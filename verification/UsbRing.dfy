/** The ring between the USB event thread and the stream thread, core/usb_backend.c. Stores and flushes
    hold the lock throughout, and a read from the end of its one wait on; so a run is a sequence of
    operations, each taking effect when it last takes the lock. */
module UsbRing {
  import opened Buffers
  import opened Bytes

  /* ---- what the ring stands for ---- */

  datatype Operation = Store(data: seq<Byte>) | Read(capacity: nat) | Flush

  /** A queue of at most `size` bytes, its two statistics, and the history of what left it. */
  datatype Queue = Queue(size: nat, contents: seq<Byte>, gone: seq<Byte>, dropped: nat, peak: nat) {
    predicate Takes(data: seq<Byte>) { |data| <= size - |contents| }

    function Apply(op: Operation): Queue {
      match op
      case Store(data) =>
        if !Takes(data) then this.(dropped := dropped + |data|)
        else
          var c := contents + data;
          this.(contents := c, peak := if |c| > peak then |c| else peak)
      case Read(capacity) =>
        var n := if |contents| < capacity then |contents| else capacity;
        this.(contents := contents[n..], gone := gone + contents[..n])
      case Flush => this.(contents := [], gone := gone + contents)
    }
  }

  function Empty(size: nat): Queue { Queue(size, [], [], 0, 0) }

  function Run(q: Queue, ops: seq<Operation>): Queue {
    if ops == [] then q else Run(q, ops[..|ops| - 1]).Apply(ops[|ops| - 1])
  }

  /** The bytes of the stores that were taken, whole, in order. */
  function Accepted(q: Queue, ops: seq<Operation>): seq<Byte> {
    if ops == [] then []
    else
      var earlier, last := ops[..|ops| - 1], ops[|ops| - 1];
      Accepted(q, earlier) + if last.Store? && Run(q, earlier).Takes(last.data) then last.data else []
  }

  /** The total size of the stores that were refused. */
  function Refused(q: Queue, ops: seq<Operation>): nat {
    if ops == [] then 0
    else
      var earlier, last := ops[..|ops| - 1], ops[|ops| - 1];
      Refused(q, earlier) + if last.Store? && !Run(q, earlier).Takes(last.data) then |last.data| else 0
  }

  /** Over every interleaving of stores, reads and flushes: what left and what is still there are
      together, in order, exactly what was taken; every store is all or nothing; `dropped` is the
      total of the refused ones; and `peak` is the most the queue ever held. */
  lemma {:induction false} RunConserves(size: nat, ops: seq<Operation>)
    ensures var q := Run(Empty(size), ops);
            && q.size == size && |q.contents| <= size
            && q.gone + q.contents == Accepted(Empty(size), ops)
            && q.dropped == Refused(Empty(size), ops)
    decreases |ops|
  {
    if ops != [] {
      var earlier, last := ops[..|ops| - 1], ops[|ops| - 1];
      hide Queue.Apply, Queue.Takes;
      RunConserves(size, earlier);
      StepConserves(Run(Empty(size), earlier), last);
    }
  }

  lemma StepConserves(q: Queue, op: Operation)
    requires |q.contents| <= q.size
    ensures var r, taken := q.Apply(op), op.Store? && q.Takes(op.data);
            && r.size == q.size && |r.contents| <= r.size
            && r.gone + r.contents == q.gone + q.contents + (if taken then op.data else [])
            && r.dropped == q.dropped + (if op.Store? && !taken then |op.data| else 0)
  {
    match op {
      case Store(data) =>
        assert q.gone + (q.contents + data) == (q.gone + q.contents) + data;
      case Read(capacity) =>
        var n := if |q.contents| < capacity then |q.contents| else capacity;
        assert (q.gone + q.contents[..n]) + q.contents[n..] == q.gone + q.contents;
      case Flush =>
    }
  }

  /** The same as a log: everything taken so far, and how much of it has left. A store is taken whole if
      there is room for it beside what has not left; a flush lets everything go. */
  datatype Log = Log(taken: seq<Byte>, left: nat, refused: nat)

  function Recorded(size: nat, ops: seq<Operation>): (log: Log)
    ensures log.left <= |log.taken|
  {
    if ops == [] then Log([], 0, 0) else Record(size, Recorded(size, ops[..|ops| - 1]), ops[|ops| - 1])
  }

  function Record(size: nat, log: Log, op: Operation): (next: Log)
    requires log.left <= |log.taken|
    ensures next.left <= |next.taken|
  {
    var waiting := |log.taken| - log.left;
    match op
    case Store(data) =>
      if waiting + |data| <= size then log.(taken := log.taken + data) else log.(refused := log.refused + |data|)
    case Read(capacity) => log.(left := log.left + if capacity < waiting then capacity else waiting)
    case Flush => log.(left := |log.taken|)
  }

  /** A queue is where a log is. */
  predicate Matches(q: Queue, log: Log) {
    && log.left <= |log.taken| && q.gone == log.taken[..log.left] && q.contents == log.taken[log.left..]
    && q.dropped == log.refused
  }

  /** Every run of the queue is the log's: what is gone, what is there and what was dropped. So after a
      flush nothing is there. */
  lemma {:induction false} QueueIsLog(size: nat, ops: seq<Operation>)
    ensures Matches(Run(Empty(size), ops), Recorded(size, ops))
    ensures ops != [] && ops[|ops| - 1].Flush? ==> Run(Empty(size), ops).contents == []
    decreases |ops|
  {
    if ops != [] {
      var earlier, last := ops[..|ops| - 1], ops[|ops| - 1];
      hide Record, Queue.Apply, Matches;
      QueueIsLog(size, earlier);
      RunConserves(size, earlier);
      StepIsLogged(Run(Empty(size), earlier), Recorded(size, earlier), last);
    }
  }

  lemma StepIsLogged(q: Queue, log: Log, op: Operation)
    requires Matches(q, log)
    ensures Matches(q.Apply(op), Record(q.size, log, op)) && (op.Flush? ==> q.Apply(op).contents == [])
  {
    match op {
      case Store(data) =>
        assert (log.taken + data)[..log.left] == log.taken[..log.left];
        assert (log.taken + data)[log.left..] == log.taken[log.left..] + data;
      case Read(capacity) =>
        var n := if |q.contents| < capacity then |q.contents| else capacity;
        TailCut(log.taken, log.left, n);
        assert log.taken[..log.left] + log.taken[log.left..log.left + n] == log.taken[..log.left + n];
      case Flush =>
        assert log.taken[..log.left] + log.taken[log.left..] == log.taken;
    }
  }

  /** How much the queue holds after the first `k` operations. */
  function HeldAfter(size: nat, ops: seq<Operation>, k: nat): nat
    requires k <= |ops|
  {
    |Run(Empty(size), ops[..k]).contents|
  }

  function PeakOf(size: nat, ops: seq<Operation>): nat { Run(Empty(size), ops).peak }

  lemma HeldStep(size: nat, ops: seq<Operation>)
    requires ops != []
    ensures var n := |ops| - 1;
            || (HeldAfter(size, ops, n + 1) <= HeldAfter(size, ops, n) && PeakOf(size, ops) == PeakOf(size, ops[..n]))
            || PeakOf(size, ops) == if HeldAfter(size, ops, n + 1) > PeakOf(size, ops[..n])
                                    then HeldAfter(size, ops, n + 1) else PeakOf(size, ops[..n])
  {
    assert ops[..|ops|] == ops;
  }

  lemma HeldEarlier(size: nat, ops: seq<Operation>, n: nat, k: nat)
    requires k <= n <= |ops|
    ensures HeldAfter(size, ops[..n], k) == HeldAfter(size, ops, k)
  {
    assert ops[..n][..k] == ops[..k];
  }

  lemma NothingHeld(size: nat)
    ensures HeldAfter(size, [], 0) == 0 && PeakOf(size, []) == 0
  {
  }

  lemma {:induction false} PeakIsMaximum(size: nat, ops: seq<Operation>)
    ensures forall k :: 0 <= k <= |ops| ==> HeldAfter(size, ops, k) <= PeakOf(size, ops)
    ensures exists k :: 0 <= k <= |ops| && HeldAfter(size, ops, k) == PeakOf(size, ops)
    decreases |ops|
  {
    hide HeldAfter, PeakOf;
    if ops == [] {
      NothingHeld(size);
    } else {
      var n := |ops| - 1;
      PeakIsMaximum(size, ops[..n]);
      HeldStep(size, ops);
      forall k | 0 <= k <= n
        ensures HeldAfter(size, ops[..n], k) == HeldAfter(size, ops, k)
      {
        HeldEarlier(size, ops, n, k);
      }
      var k :| 0 <= k <= n && HeldAfter(size, ops[..n], k) == PeakOf(size, ops[..n]);
      assert HeldAfter(size, ops, k) == PeakOf(size, ops[..n]);
    }
  }

  lemma RunNothing(q: Queue)
    ensures Run(q, []) == q
  {
  }

  lemma NothingRead(q: Queue)
    ensures q.Apply(Read(0)) == q && q.contents[..0] == []
  {
    assert q.contents[0..] == q.contents && q.gone + [] == q.gone;
  }

  /* ---- positions around the ring ---- */

  lemma ModOnce(a: nat, n: nat)
    requires 0 < n && a < 2 * n
    ensures a % n == if a < n then a else a - n
  {
    if a >= n {
      assert a == n + (a - n);
      ModUnique(a, n, 1, a - n);
    } else {
      ModUnique(a, n, 0, a);
    }
  }

  lemma ModUnique(a: nat, n: nat, q: nat, r: nat)
    requires n > 0 && a == n * q + r && r < n && q <= 1
    ensures a % n == r
  {
    var d := a / n;
    assert a == n * d + a % n;
    assert d >= q + 1 ==> n * d >= n * (q + 1);
    assert d <= q - 1 ==> n * d <= n * (q - 1);
  }

  /** A position moved on by `k` around a ring of `n`. */
  function Onward(n: nat, p: nat, k: nat): (q: nat)
    requires n > 0
    ensures q < n
  {
    (p + k) % n
  }

  /** The place `i` bytes after `start` in a ring of `n`. */
  function Place(n: nat, start: nat, i: nat): (p: nat)
    requires start < n && i < n
    ensures p < n
  {
    if start + i < n then start + i else start + i - n
  }

  /** The `used` bytes from `tail` on, around the end. */
  function Around(ring: seq<Byte>, tail: nat, used: nat): (s: seq<Byte>)
    requires tail < |ring| && used <= |ring|
    ensures |s| == used
  {
    seq(used, i requires 0 <= i < used => ring[Place(|ring|, tail, i)])
  }

  class Ring {
    const ring: array<Byte>
    var head: nat
    var tail: nat
    var used: nat
    var peak: nat
    var dropped: nat
    /** Everything read or flushed so far. */
    ghost var gone: seq<Byte>

    ghost predicate Valid()
      reads this
    {
      && 0 < ring.Length && tail < ring.Length && used <= ring.Length
      && head == Onward(ring.Length, tail, used)
    }

    ghost function Model(): Queue
      reads this, ring
      requires Valid()
    {
      Queue(ring.Length, Around(ring[..], tail, used), gone, dropped, peak)
    }

    constructor (size: nat)
      requires size > 0
      ensures Valid() && Model() == Empty(size) && fresh(ring)
    {
      ring := new Byte[size];
      head, tail, used, peak, dropped, gone := 0, 0, 0, 0, 0, [];
      new;
      ModOnce(0, size);
    }

    /** Copies into the free part, wrapping once if need be; or counts the loss. */
    method StoreBytes(data: seq<Byte>)
      requires Valid()
      modifies this, ring
      ensures Valid() && Model() == old(Model()).Apply(Store(data))
    {
      hide Around, Place;
      ModOnce(tail + used, ring.Length);
      if |data| > ring.Length - used {
        dropped := dropped + |data|;
      } else {
        ghost var before := ring[..];
        CopyIn(data);
        StoredAround(before, ring[..], tail, used, head, data);
        head := Onward(ring.Length, head, |data|);
        used := used + |data|;
        if used > peak {
          peak := used;
        }
      }
    }

    /** The two copies of a store. */
    method CopyIn(data: seq<Byte>)
      requires Valid() && |data| <= ring.Length - used && head < ring.Length
      modifies ring
      ensures forall i :: 0 <= i < ring.Length ==>
        ring[Place(ring.Length, head, i)] == if i < |data| then data[i] else old(ring[Place(ring.Length, head, i)])
    {
      hide Splice;
      var first := ring.Length - head;
      if first > |data| {
        first := |data|;
      }
      SpliceAt(ring[..], head, data[..first]);
      Write(ring, head, data[..first]);
      if |data| > first {
        SpliceAt(ring[..], 0, data[first..]);
        Write(ring, 0, data[first..]);
      }
    }

    method FlushBytes()
      requires Valid()
      modifies this
      ensures Valid() && Model() == old(Model()).Apply(Flush)
    {
      gone := gone + Around(ring[..], tail, used);
      head, tail, used := 0, 0, 0;
      ModOnce(0, ring.Length);
    }

    /** A read. If nothing is there and there is time, it waits once, which gives up the lock: other
        operations run `meanwhile`. Whatever they leave, up to `capacity` bytes of it are then copied. */
    method ReadBytes(capacity: nat, timed: bool, meanwhile: seq<Operation>)
        returns (data: seq<Byte>, ghost waited: seq<Operation>)
      requires Valid() && forall i :: 0 <= i < |meanwhile| ==> !meanwhile[i].Read?
      modifies this, ring
      ensures waited == if capacity > 0 && timed && old(used) == 0 then meanwhile else []
      ensures Valid() && Model() == Run(old(Model()), waited).Apply(Read(capacity))
      ensures var contents := Run(old(Model()), waited).contents;
              data == contents[..if |contents| < capacity then |contents| else capacity]
    {
      hide Around, Run, Queue.Apply;
      data, waited := [], [];
      RunNothing(Model());
      if capacity == 0 {
        NothingRead(Model());
        return;
      }
      if used == 0 && timed {
        Wait(meanwhile);
        waited := meanwhile;
      }
      data := CopyOut(capacity);
    }

    /** What the other threads do while a read waits. */
    method Wait(meanwhile: seq<Operation>)
      requires Valid() && forall i :: 0 <= i < |meanwhile| ==> !meanwhile[i].Read?
      modifies this, ring
      ensures Valid() && Model() == Run(old(Model()), meanwhile)
    {
      hide Around, Queue.Apply;
      ghost var before := Model();
      for i := 0 to |meanwhile|
        invariant Valid() && Model() == Run(before, meanwhile[..i])
      {
        assert meanwhile[..i + 1][..i] == meanwhile[..i];
        match meanwhile[i] {
          case Store(data) => StoreBytes(data);
          case Flush => FlushBytes();
        }
      }
      assert meanwhile[..|meanwhile|] == meanwhile;
    }

    /** Copies out up to `capacity` bytes, oldest first. */
    method CopyOut(capacity: nat) returns (data: seq<Byte>)
      requires Valid()
      modifies this
      ensures Valid() && Model() == old(Model()).Apply(Read(capacity))
      ensures |data| == if old(used) < capacity then old(used) else capacity
      ensures data == old(Model()).contents[..|data|]
    {
      hide Around, Place, Onward;
      ghost var contents := Around(ring[..], tail, used);
      var copied := if used < capacity then used else capacity;
      data := [];
      if copied > 0 {
        data := Pieces(copied);
        TakenAround(ring[..], tail, used, copied);
        tail := Onward(ring.Length, tail, copied);
        used := used - copied;
      } else {
        assert contents[..0] == [] && contents[0..] == contents;
      }
      gone := gone + data;
    }

    /** The oldest bytes, in one or two pieces. */
    method Pieces(copied: nat) returns (data: seq<Byte>)
      requires Valid() && 0 < copied <= used
      ensures data == Around(ring[..], tail, used)[..copied]
    {
      hide Around, Place;
      var first := ring.Length - tail;
      if first > copied {
        first := copied;
      }
      data := ring[tail..tail + first];
      if copied > first {
        data := data + ring[..copied - first];
      }
      PiecesAround(ring[..], tail, used, copied);
    }

    /** Loss and high-water mark so far. */
    method Stats() returns (droppedBytes: nat, peakBytes: nat)
      requires Valid()
      ensures droppedBytes == Model().dropped && peakBytes == Model().peak
    {
      return dropped, peak;
    }
  }

  /** Bytes stored from the head on come after what the ring held. */
  lemma StoredAround(before: seq<Byte>, after: seq<Byte>, tail: nat, used: nat, head: nat, data: seq<Byte>)
    requires 0 < |before| == |after| && tail < |before| && used + |data| <= |before|
    requires head == Onward(|before|, tail, used)
    requires forall i :: 0 <= i < |before| ==>
      after[Place(|before|, head, i)] == if i < |data| then data[i] else before[Place(|before|, head, i)]
    ensures Around(after, tail, used + |data|) == Around(before, tail, used) + data
    ensures Onward(|before|, head, |data|) == Onward(|before|, tail, used + |data|)
  {
    var n := |before|;
    ModOnce(tail + used, n);
    forall i | 0 <= i < used + |data|
      ensures Around(after, tail, used + |data|)[i] == (Around(before, tail, used) + data)[i]
    {
      if i < used {
        assert used < n ==> Place(n, tail, i) == Place(n, head, n - used + i);
      } else {
        assert Place(n, tail, i) == Place(n, head, i - used);
      }
    }
    ModPast(tail, used, |data|, n);
  }

  lemma SpliceAt(s: seq<Byte>, at: nat, part: seq<Byte>)
    requires at + |part| <= |s|
    ensures forall k :: 0 <= k < |s| ==> Splice(s, at, part)[k] == if at <= k < at + |part| then part[k - at] else s[k]
  {
  }

  /** Taking from the front: the one or two pieces copied out, and what stays. */
  lemma TakenAround(ring: seq<Byte>, tail: nat, used: nat, copied: nat)
    requires tail < |ring| && copied <= used <= |ring| && copied > 0
    ensures var n := |ring|;
            var after := Onward(n, tail, copied);
            && Around(ring, after, used - copied) == Around(ring, tail, used)[copied..]
            && Onward(n, after, used - copied) == Onward(n, tail, used)
  {
    var n := |ring|;
    ModOnce(tail + copied, n);
    var after := Onward(n, tail, copied);
    ModOnce(tail + used, n);
    ModOnce(after + (used - copied), n);
    forall i | 0 <= i < used - copied
      ensures Around(ring, after, used - copied)[i] == Around(ring, tail, used)[copied..][i]
    {
      assert Place(n, after, i) == Place(n, tail, copied + i);
    }
  }

  /** The first bytes lie in one piece, or in two: to the end and from the start. */
  lemma PiecesAround(ring: seq<Byte>, tail: nat, used: nat, copied: nat)
    requires tail < |ring| && copied <= used <= |ring| && copied > 0
    ensures var first := if |ring| - tail > copied then copied else |ring| - tail;
            Around(ring, tail, used)[..copied]
            == ring[tail..tail + first] + (if copied > first then ring[..copied - first] else [])
  {
  }

  lemma ModPast(tail: nat, used: nat, more: nat, n: nat)
    requires 0 < n && tail < n && used + more <= n
    ensures ((tail + used) % n + more) % n == (tail + used + more) % n
  {
    ModOnce(tail + used, n);
    ModOnce((tail + used) % n + more, n);
    ModOnce(tail + used + more, n);
  }
}
