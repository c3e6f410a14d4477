/** What a parser or a search gives back. */
module Wrappers {
  datatype Option<T> = None | Some(value: T)
}
