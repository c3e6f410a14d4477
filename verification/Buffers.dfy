/** Overwriting part of a buffer: what memcpy into the middle of an array leaves behind. */
module Buffers {
  /** `s` with the elements from `at` on replaced by `part`. */
  ghost function Splice<T>(s: seq<T>, at: nat, part: seq<T>): (r: seq<T>)
    requires at + |part| <= |s|
    ensures |r| == |s|
  {
    s[..at] + part + s[at + |part|..]
  }

  lemma SpliceParts<T>(s: seq<T>, at: nat, part: seq<T>)
    requires at + |part| <= |s|
    ensures var r := Splice(s, at, part);
            r[..at] == s[..at] && r[at..at + |part|] == part && r[at + |part|..] == s[at + |part|..]
  {
  }

  lemma SpliceNothing<T>(s: seq<T>, at: nat)
    requires at <= |s|
    ensures Splice(s, at, []) == s
  {
  }

  /** Two adjacent writes are one, and the first leaves the target of the second alone. */
  lemma SpliceMore<T>(s: seq<T>, at: nat, part: seq<T>, more: seq<T>)
    requires at + |part| + |more| <= |s|
    ensures var t := Splice(s, at, part);
            && t[at + |part|..at + |part| + |more|] == s[at + |part|..at + |part| + |more|]
            && Splice(t, at + |part|, more) == Splice(s, at, part + more)
  {
  }

  lemma SpliceRest<T>(s: seq<T>, at: nat, part: seq<T>, size: nat)
    requires |part| <= size && at + size <= |s|
    ensures Splice(s, at, part) == Splice(s, at, part + s[at..at + size][|part|..])
  {
    assert s[at + |part|..] == s[at..at + size][|part|..] + s[at + size..];
  }

  lemma SliceOfSlice<T>(s: seq<T>, a: nat, b: nat, i: nat, j: nat)
    requires a <= b <= |s| && i <= j <= b - a
    ensures s[a..b][i..j] == s[a + i..a + j]
  {
    var x, y := s[a..b][i..j], s[a + i..a + j];
    assert |x| == |y| && forall k :: 0 <= k < |x| ==> x[k] == y[k];
  }

  /** A slice cut in two. */
  lemma SliceCut<T>(s: seq<T>, a: nat, b: nat, k: nat)
    requires a <= b <= |s| && k <= b - a
    ensures s[a..b][..k] == s[a..a + k] && s[a..b][k..] == s[a + k..b]
  {
    SliceOfSlice(s, a, b, 0, k);
    SliceOfSlice(s, a, b, k, b - a);
    assert s[a..b][..k] == s[a..b][0..k] && s[a..b][k..] == s[a..b][k..b - a];
  }

  /** And what follows a place, cut in two. */
  lemma TailCut<T>(s: seq<T>, a: nat, k: nat)
    requires a + k <= |s|
    ensures s[a..][..k] == s[a..a + k] && s[a..][k..] == s[a + k..]
  {
    assert forall i :: 0 <= i < k ==> s[a..][..k][i] == s[a..a + k][i];
    assert forall i :: 0 <= i < |s| - a - k ==> s[a..][k..][i] == s[a + k..][i];
  }

  lemma Associative<T>(x: seq<T>, y: seq<T>, z: seq<T>)
    ensures x + (y + z) == x + y + z
  {
  }

  /** A buffer by its parts. */
  lemma ThreeParts<T>(s: seq<T>, i: nat, j: nat)
    requires i <= j <= |s|
    ensures s == s[..i] + s[i..j] + s[j..]
  {
  }

  /** The first `n` elements, or all there are. */
  function AtMost<T>(s: seq<T>, n: nat): seq<T> { if |s| > n then s[..n] else s }

  lemma AtMostSize<T>(s: seq<T>, n: nat)
    ensures |AtMost(s, n)| == if |s| > n then n else |s|
  {
  }

  /** memcpy of `block` to `data + at`. */
  method Write<T>(data: array<T>, at: nat, block: seq<T>)
    requires at + |block| <= data.Length
    modifies data
    ensures data[..] == Splice(old(data[..]), at, block)
    ensures |block| == data.Length ==> data[..] == block
  {
    for i := 0 to |block|
      invariant forall j :: 0 <= j < data.Length ==>
        data[j] == if at <= j < at + i then block[j - at] else old(data[j])
    {
      data[at + i] := block[i];
    }
  }

  /** memcpy of `block` behind the first `at` elements. */
  method WriteBehind<T>(data: array<T>, at: nat, block: seq<T>)
    requires at + |block| <= data.Length
    modifies data
    ensures data[..at + |block|] == old(data[..at]) + block
    ensures data[at + |block|..] == old(data[at + |block|..])
  {
    ghost var before := data[..];
    SpliceParts(before, at, block);
    Write(data, at, block);
    assert data[..at + |block|] == data[..][..at] + data[..][at..at + |block|];
    assert data[at + |block|..] == data[..][at + |block|..] == before[at + |block|..];
  }
}
