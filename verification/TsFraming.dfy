/** Cutting a noisy byte stream into transport stream packets, however the reads fall: the loop of
    daemon/avl_tuner_probe.c, which engine/usb_dvbs2_engine.c repeats. */
module TsFraming {
  import opened Buffers
  import opened Bytes
  import opened TsPacket

  const KEPT := 4 * 188
  const READ_MAX := 65424
  const BUFFER := 65424 + 5 * 188

  /* ---- acquisition ---- */

  /** Five sync bytes in step, the last of them inside the buffer. */
  predicate SyncAt(s: seq<Byte>, o: nat) {
    o + KEPT < |s| && s[o] == SYNC && s[o + 188] == SYNC && s[o + 376] == SYNC && s[o + 564] == SYNC &&
        s[o + 752] == SYNC
  }

  /** The first offset from `start` on where sync is acquired, or -1. */
  function FirstSync(s: seq<Byte>, start: nat): (o: int)
    ensures o == -1 || (start <= o && o + KEPT < |s| && SyncAt(s, o))
    ensures forall k :: start <= k < (if o == -1 then |s| else o) ==> !SyncAt(s, k)
    decreases |s| - start
  {
    if start + KEPT >= |s| then -1
    else if SyncAt(s, start) then start
    else FirstSync(s, start + 1)
  }

  method FindSync(s: array<Byte>, size: nat, start: nat) returns (o: int)
    requires size <= s.Length
    ensures o == FirstSync(s[..size], start)
  {
    o := start;
    while o + KEPT < size
      invariant start <= o && FirstSync(s[..size], o) == FirstSync(s[..size], start)
    {
      if s[o] == SYNC && s[o + 188] == SYNC && s[o + 376] == SYNC && s[o + 564] == SYNC && s[o + 752] == SYNC {
        return;
      }
      o := o + 1;
    }
    o := -1;
  }

  /* ---- one pass over a buffer ---- */

  type Packets = seq<seq<Byte>>

  /** What a pass hands over, where it stops, and whether it is still in step. */
  datatype Pass = Pass(packets: Packets, pos: nat, synced: bool)

  function Scan(s: seq<Byte>, pos: nat, synced: bool): (r: Pass)
    requires pos <= |s|
    ensures pos <= r.pos <= |s|
    ensures r.synced ==> r.pos + PACKET > |s|
    ensures !r.synced ==> r.pos + PACKET > |s| || FirstSync(s, r.pos) == -1
    decreases |s| - pos, !synced
  {
    if pos + PACKET > |s| then Pass([], pos, synced)
    else if !synced then
      var o := FirstSync(s, pos);
      if o == -1 then Pass([], pos, false) else Scan(s, o, true)
    else if s[pos] != SYNC then Scan(s, pos + 1, false)
    else
      var r := Scan(s, pos + PACKET, true);
      Pass([s[pos..pos + PACKET]] + r.packets, r.pos, r.synced)
  }

  /** The first step of a pass with a packet's worth of bytes before it. */
  lemma ScanStep(s: seq<Byte>, pos: nat, synced: bool)
    requires pos + PACKET <= |s|
    ensures Scan(s, pos, synced) ==
      if !synced then (if FirstSync(s, pos) == -1 then Pass([], pos, false) else Scan(s, FirstSync(s, pos), true))
      else if s[pos] != SYNC then Scan(s, pos + 1, false)
      else Ahead(s[pos..pos + PACKET], Scan(s, pos + PACKET, true))
  {
    hide FirstSync, SyncAt;
  }

  function Ahead(packet: seq<Byte>, r: Pass): Pass { r.(packets := [packet] + r.packets) }

  /* ---- what a pass amounts to, place by place ---- */

  predicate Five(s: seq<Byte>, o: nat) {
    o + 752 < |s| && s[o] == 0x47 && s[o + 188] == 0x47 && s[o + 376] == 0x47 && s[o + 564] == 0x47 &&
        s[o + 752] == 0x47
  }

  /** From `q` on, sync is first found at `p`. */
  ghost predicate Acquired(s: seq<Byte>, q: nat, p: nat) {
    q <= p && Five(s, p) && forall k :: q <= k < p ==> !Five(s, k)
  }

  /** The packet that comes at or after `q` starts at `p`: there, if the pass is in step and finds a sync byte,
      and otherwise where sync is found again. */
  ghost predicate Comes(s: seq<Byte>, q: nat, inStep: bool, p: nat) {
    if inStep && q < |s| && s[q] == 0x47 then p == q else Acquired(s, if inStep then q + 1 else q, p)
  }

  /** None does: too little is left, or sync is not found again. */
  ghost predicate NoneComes(s: seq<Byte>, q: nat, inStep: bool) {
    q + 188 > |s| || ((inStep ==> s[q] != 0x47) && forall k :: (if inStep then q + 1 else q) <= k ==> !Five(s, k))
  }

  /** The packets at the places `at`, each the next to come behind the one before it, and none after the last. */
  ghost predicate Walk(s: seq<Byte>, q: nat, inStep: bool, at: seq<nat>, packets: Packets)
    decreases |at|
  {
    if at == [] then packets == [] && NoneComes(s, q, inStep)
    else
      && Comes(s, q, inStep, at[0]) && at[0] + 188 <= |s|
      && packets != [] && packets[0] == s[at[0]..at[0] + 188]
      && Walk(s, at[0] + 188, true, at[1..], packets[1..])
  }

  /** A pass hands over, in order, every packet that comes, and nothing else. */
  lemma {:induction false} ScanWalks(s: seq<Byte>, pos: nat, synced: bool) returns (at: seq<nat>)
    requires pos <= |s|
    ensures Walk(s, pos, synced, at, Scan(s, pos, synced).packets)
    decreases |s| - pos, !synced
  {
    hide Scan, Five, SyncAt;
    at := [];
    if pos + 188 > |s| {
      NothingLeft(s, pos, synced);
    } else {
      ScanStep(s, pos, synced);
      SyncIsFive(s);
      if synced && s[pos] == 0x47 {
        var rest := ScanWalks(s, pos + 188, true);
        at := [pos] + rest;
        assert at[1..] == rest;
      } else if synced {
        at := ScanWalks(s, pos + 1, false);
      } else if FirstSync(s, pos) != -1 {
        at := ScanWalks(s, FirstSync(s, pos), true);
        SyncByte(s, FirstSync(s, pos));
      }
    }
  }

  lemma NothingLeft(s: seq<Byte>, pos: nat, synced: bool)
    requires pos <= |s| < pos + 188
    ensures Scan(s, pos, synced).packets == []
  {
  }

  lemma SyncIsFive(s: seq<Byte>)
    ensures forall o: nat :: SyncAt(s, o) == Five(s, o)
    ensures forall o: nat :: Five(s, o) ==> o + 188 <= |s|
  {
  }

  lemma SyncByte(s: seq<Byte>, o: nat)
    requires SyncAt(s, o)
    ensures o + 188 <= |s| && s[o] == 0x47
  {
  }

  /** Out of step, only the bytes that may yet be the start of five packets are kept. */
  function Trim(size: nat, pos: nat, synced: bool): (p: nat)
    requires pos <= size
    ensures pos <= p <= size
  {
    if !synced && size - pos > KEPT then size - KEPT else pos
  }

  lemma TrimUnique(size: nat, pos: nat, synced: bool, p: nat)
    requires pos <= p <= size && (synced ==> p == pos)
    requires (!synced ==> size - p <= KEPT) && (p > pos ==> size - p == KEPT)
    ensures p == Trim(size, pos, synced)
  {
  }

  /* ---- the framer between reads ---- */

  datatype Framer = Framer(tail: seq<Byte>, synced: bool)

  const START := Framer([], false)

  /** A pass from the start of the buffer, with what follows it trimmed. */
  function Cut(s: seq<Byte>, synced: bool): (r: Pass)
    ensures r.pos <= |s|
  {
    var pass := Scan(s, 0, synced);
    pass.(pos := Trim(|s|, pass.pos, pass.synced))
  }

  /** One read: the packets it completes, and the state for the next. The last condition is the
      source's defensive reset. */
  function Feed(f: Framer, x: seq<Byte>): (Packets, Framer) {
    var s := f.tail + x;
    var cut := Cut(s, f.synced);
    (cut.packets, if |s| - cut.pos > BUFFER - READ_MAX then START else Framer(s[cut.pos..], cut.synced))
  }

  /** What every read leaves: less than a packet when in step, at most four packets when not. */
  ghost predicate Settled(f: Framer) {
    if f.synced then |f.tail| < PACKET else |f.tail| <= KEPT
  }

  /** The retained tail never exceeds four packets, so the defensive reset never fires and the
      next read always fits the buffer. */
  lemma TailBounded(f: Framer, x: seq<Byte>)
    ensures var s := f.tail + x;
            var cut := Cut(s, f.synced);
            && |s| - cut.pos <= KEPT <= BUFFER - READ_MAX
            && Feed(f, x).1 == Framer(s[cut.pos..], cut.synced)
            && Settled(Feed(f, x).1)
  {
  }

  function FeedAll(f: Framer, chunks: seq<seq<Byte>>): (Packets, Framer)
    decreases |chunks|
  {
    if chunks == [] then ([], f)
    else
      var (p, g) := Feed(f, chunks[0]);
      var (q, h) := FeedAll(g, chunks[1..]);
      (p + q, h)
  }

  function Concat(chunks: seq<seq<Byte>>): seq<Byte> {
    if chunks == [] then [] else chunks[0] + Concat(chunks[1..])
  }

  /* ---- more bytes do not change what was decided ---- */

  lemma SyncAtExtended(s: seq<Byte>, y: seq<Byte>, o: nat)
    ensures o + KEPT < |s| ==> SyncAt(s + y, o) == SyncAt(s, o)
  {
  }

  lemma FirstSyncExtended(s: seq<Byte>, y: seq<Byte>, pos: nat)
    requires FirstSync(s, pos) != -1
    ensures FirstSync(s + y, pos) == FirstSync(s, pos)
  {
    var o := FirstSync(s, pos);
    SyncAtExtended(s, y, o);
    forall k | pos <= k < o
      ensures !SyncAt(s + y, k)
    {
      SyncAtExtended(s, y, k);
    }
  }

  /** Offsets already rejected need not be looked at again. */
  lemma {:induction false} FirstSyncSkips(t: seq<Byte>, lo: nat, hi: nat)
    requires lo <= hi && forall k :: lo <= k < hi ==> !SyncAt(t, k)
    ensures FirstSync(t, lo) == FirstSync(t, hi)
    decreases hi - lo
  {
    if lo < hi {
      FirstSyncSkips(t, lo + 1, hi);
    }
  }

  function After(r: Pass, more: Pass): Pass {
    Pass(r.packets + more.packets, more.pos, more.synced)
  }

  lemma {:induction false} ScanExtended(s: seq<Byte>, y: seq<Byte>, pos: nat, synced: bool)
    requires pos <= |s|
    ensures var r := Scan(s, pos, synced);
            Scan(s + y, pos, synced) == After(r, Scan(s + y, r.pos, r.synced))
    decreases |s| - pos, !synced
  {
    hide FirstSync, SyncAt;
    if pos + PACKET <= |s| {
      if !synced {
        if FirstSync(s, pos) != -1 {
          FirstSyncExtended(s, y, pos);
          ScanExtended(s, y, FirstSync(s, pos), true);
        }
      } else if s[pos] != SYNC {
        ScanExtended(s, y, pos + 1, false);
      } else {
        var r := Scan(s, pos + PACKET, true);
        ScanExtended(s, y, pos + PACKET, true);
        assert (s + y)[pos..pos + PACKET] == s[pos..pos + PACKET];
        AfterCons(s[pos..pos + PACKET], r, Scan(s + y, r.pos, r.synced));
      }
    }
  }

  lemma AfterCons(packet: seq<Byte>, r: Pass, more: Pass)
    ensures Pass([packet] + After(r, more).packets, more.pos, more.synced) ==
        After(Pass([packet] + r.packets, r.pos, r.synced), more)
  {
    assert [packet] + (r.packets + more.packets) == ([packet] + r.packets) + more.packets;
  }

  /* ---- positions are relative ---- */

  lemma SyncAtShifted(s: seq<Byte>, k: nat, o: nat)
    requires k <= |s|
    ensures SyncAt(s[k..], o) == SyncAt(s, k + o)
  {
  }

  lemma FirstSyncShifted(s: seq<Byte>, k: nat, o: nat)
    requires k <= |s|
    ensures FirstSync(s, k + o) == if FirstSync(s[k..], o) == -1 then -1 else FirstSync(s[k..], o) + k
  {
    hide SyncAt, FirstSync;
    forall i: nat
      ensures SyncAt(s[k..], i) == SyncAt(s, k + i)
    {
      SyncAtShifted(s, k, i);
    }
    var a, b := FirstSync(s, k + o), FirstSync(s[k..], o);
    if b != -1 {
      assert SyncAt(s, k + b);
      SyncInside(s, k + b);
    }
    if a != -1 {
      assert SyncAt(s[k..], a - k);
      SyncInside(s[k..], a - k);
    }
  }

  lemma SyncInside(s: seq<Byte>, o: nat)
    requires SyncAt(s, o)
    ensures o < |s|
  {
  }

  function Shifted(r: Pass, k: nat): Pass { r.(pos := r.pos + k) }

  lemma {:induction false} ScanShifted(s: seq<Byte>, k: nat, pos: nat, synced: bool)
    requires k + pos <= |s|
    ensures Scan(s, k + pos, synced) == Shifted(Scan(s[k..], pos, synced), k)
    decreases |s| - k - pos, !synced
  {
    hide FirstSync, SyncAt, Scan;
    var u := s[k..];
    if k + pos + PACKET > |s| {
      ScanEnds(s, k + pos, synced);
      ScanEnds(u, pos, synced);
    } else {
      ScanStep(s, k + pos, synced);
      ScanStep(u, pos, synced);
      assert u[pos] == s[k + pos];
      if !synced {
        FirstSyncShifted(s, k, pos);
        if FirstSync(u, pos) != -1 {
          ScanShifted(s, k, FirstSync(u, pos), true);
        }
      } else if u[pos] != SYNC {
        ScanShifted(s, k, pos + 1, false);
      } else {
        ScanShifted(s, k, pos + PACKET, true);
        assert u[pos..pos + PACKET] == s[k + pos..k + pos + PACKET];
      }
    }
  }

  /* ---- reads compose ---- */

  /** Skipping the bytes that trimming drops changes neither the packets nor, after trimming again,
      the place. */
  lemma TrimHarmless(s: seq<Byte>, y: seq<Byte>, pos: nat, synced: bool)
    requires pos <= |s| && (!synced ==> pos + PACKET > |s| || FirstSync(s, pos) == -1)
    ensures var p := Trim(|s|, pos, synced);
            var a, b := Scan(s + y, pos, synced), Scan(s + y, p, synced);
            && a.packets == b.packets && a.synced == b.synced
            && Trim(|s + y|, a.pos, a.synced) == Trim(|s + y|, b.pos, b.synced)
  {
    hide SyncAt, FirstSync;
    var p, t := Trim(|s|, pos, synced), s + y;
    if p != pos {
      forall k | pos <= k < p
        ensures !SyncAt(t, k)
      {
        SyncAtExtended(s, y, k);
        assert !SyncAt(s, k);
      }
      FirstSyncSkips(t, pos, p);
    }
  }

  lemma CutConcat(s: seq<Byte>, y: seq<Byte>, synced: bool)
    ensures var c := Cut(s, synced);
            var d := Cut(s[c.pos..] + y, c.synced);
            Cut(s + y, synced) == Pass(c.packets + d.packets, c.pos + d.pos, d.synced)
  {
    hide SyncAt, FirstSync, Scan, Trim;
    var t := s + y;
    var first := Scan(s, 0, synced);
    var k := Trim(|s|, first.pos, first.synced);
    ScanExtended(s, y, 0, synced);
    TrimHarmless(s, y, first.pos, first.synced);
    assert t[k..] == s[k..] + y;
    ScanShifted(t, k, 0, first.synced);
    var second := Scan(t[k..], 0, first.synced);
    TrimRelative(|t|, k, second.pos, second.synced);
  }

  /** One read of `x + y` is a read of `x` followed by a read of `y`. */
  lemma FeedConcat(f: Framer, x: seq<Byte>, y: seq<Byte>)
    ensures var (p, g) := Feed(f, x);
            var (q, h) := Feed(g, y);
            Feed(f, x + y) == (p + q, h)
  {
    hide Cut;
    var s := f.tail + x;
    assert f.tail + (x + y) == s + y;
    TailBounded(f, x);
    TailBounded(f, x + y);
    CutConcat(s, y, f.synced);
    var c := Cut(s, f.synced);
    var g := Feed(f, x).1;
    TailBounded(g, y);
    var d := Cut(g.tail + y, g.synced);
    assert (s + y)[c.pos..] == s[c.pos..] + y;
    assert (s + y)[c.pos..][d.pos..] == (s + y)[c.pos + d.pos..];
  }

  lemma TrimRelative(size: nat, k: nat, pos: nat, synced: bool)
    requires k + pos <= size
    ensures Trim(size, k + pos, synced) == k + Trim(size - k, pos, synced)
  {
  }

  lemma FeedNothing(f: Framer)
    requires Settled(f)
    ensures Feed(f, []) == ([], f)
  {
    assert f.tail + [] == f.tail;
  }

  lemma {:induction false} FeedAllIsFeed(f: Framer, chunks: seq<seq<Byte>>)
    requires Settled(f)
    ensures FeedAll(f, chunks) == Feed(f, Concat(chunks))
    decreases |chunks|
  {
    hide Feed;
    if chunks == [] {
      FeedNothing(f);
    } else {
      TailBounded(f, chunks[0]);
      FeedAllIsFeed(Feed(f, chunks[0]).1, chunks[1..]);
      FeedConcat(f, chunks[0], Concat(chunks[1..]));
    }
  }

  /** The packets do not depend on the read boundaries: any two ways of cutting the same bytes
      into reads give the same packets and leave the same state. */
  lemma BoundariesDoNotMatter(a: seq<seq<Byte>>, b: seq<seq<Byte>>)
    requires Concat(a) == Concat(b)
    ensures FeedAll(START, a) == FeedAll(START, b)
  {
    FeedAllIsFeed(START, a);
    FeedAllIsFeed(START, b);
  }

  /* ---- a clean stream loses nothing ---- */

  ghost predicate IsPacket(p: seq<Byte>) {
    |p| == PACKET && p[0] == SYNC
  }

  ghost predicate ArePackets(packets: Packets) {
    forall i :: 0 <= i < |packets| ==> IsPacket(packets[i])
  }

  lemma {:induction false} PacketAt(packets: Packets, i: nat)
    requires ArePackets(packets) && i < |packets|
    ensures |Concat(packets)| == PACKET * |packets|
    ensures Concat(packets)[PACKET * i] == SYNC
    ensures Concat(packets)[PACKET * i..PACKET * (i + 1)] == packets[i]
    decreases i
  {
    ConcatSize(packets);
    ConcatSize(packets[1..]);
    if i > 0 {
      PacketAt(packets[1..], i - 1);
      var rest := Concat(packets[1..]);
      assert Concat(packets)[PACKET * i..PACKET * (i + 1)] == rest[PACKET * (i - 1)..PACKET * i];
    }
  }

  lemma {:induction false} ConcatSize(packets: Packets)
    requires ArePackets(packets)
    ensures |Concat(packets)| == PACKET * |packets|
    decreases |packets|
  {
    if packets != [] {
      ConcatSize(packets[1..]);
    }
  }

  lemma {:induction false} ScanClean(packets: Packets, i: nat)
    requires ArePackets(packets) && i <= |packets| && |Concat(packets)| == PACKET * |packets|
    ensures Scan(Concat(packets), PACKET * i, true) == Pass(packets[i..], PACKET * |packets|, true)
    decreases |packets| - i
  {
    hide Concat, FirstSync;
    if i < |packets| {
      PacketAt(packets, i);
      ScanClean(packets, i + 1);
      assert packets[i..] == [packets[i]] + packets[i + 1..];
    }
  }

  /** Five or more packets in a row come out as they went in, however they are read. */
  lemma CleanStream(packets: Packets, chunks: seq<seq<Byte>>)
    requires ArePackets(packets) && |packets| >= 5 && Concat(chunks) == Concat(packets)
    ensures FeedAll(START, chunks) == (packets, Framer([], true))
  {
    hide Scan, FirstSync, Concat;
    FeedAllIsFeed(START, chunks);
    var s := Concat(packets);
    PacketAt(packets, 0); PacketAt(packets, 1); PacketAt(packets, 2); PacketAt(packets, 3); PacketAt(packets, 4);
    assert SyncAt(s, 0);
    AcquireAtOnce(s);
    ScanClean(packets, 0);
    assert packets[0..] == packets && [] + s == s;
    assert s[|s|..] == [];
  }

  lemma AcquireAtOnce(s: seq<Byte>)
    requires SyncAt(s, 0)
    ensures Scan(s, 0, false) == Scan(s, 0, true)
  {
  }

  /* ---- the code ---- */

  class Capture {
    /** A read's worth of bytes behind what the previous one left. */
    const buffer: array<Byte>
    var pending: nat
    var synced: bool
    var acquisitions: nat
    /** The packets handed to the file and the table watcher so far. */
    var emitted: Packets

    ghost predicate Valid()
      reads this, buffer
    {
      buffer.Length == BUFFER && pending <= KEPT && Settled(State())
    }

    ghost function State(): Framer
      reads this, buffer
      requires buffer.Length == BUFFER && pending <= BUFFER
    {
      Framer(buffer[..pending], synced)
    }

    constructor ()
      ensures Valid() && State() == START && emitted == [] && fresh(buffer)
    {
      buffer := new Byte[BUFFER];
      pending, synced, acquisitions, emitted := 0, false, 0, [];
    }

    /** One transfer from the device. */
    method Read(data: seq<Byte>)
      requires Valid() && 0 < |data| <= READ_MAX
      modifies this, buffer
      ensures Valid()
      ensures |emitted| >= |old(emitted)| && emitted[..|old(emitted)|] == old(emitted)
      ensures (emitted[|old(emitted)|..], State()) == Feed(old(State()), data)
    {
      hide Cut;
      ghost var s := State().tail + data;
      assert [] + s == s;
      var available := Fill(data);
      HandOver(available, s);
    }

    /** Puts a transfer behind what the last one left. */
    method Fill(data: seq<Byte>) returns (available: nat)
      requires Valid() && 0 < |data| <= READ_MAX
      modifies buffer
      ensures available == pending + |data| <= BUFFER && buffer[..available] == old(State()).tail + data
    {
      WriteBehind(buffer, pending, data);
      available := pending + |data|;
    }

    /** Hands over the packets of the buffer and moves what is left to its start. */
    method HandOver(available: nat, ghost s: seq<Byte>)
      requires buffer.Length == BUFFER && available <= BUFFER && s == buffer[..available]
      modifies this, buffer
      ensures Valid()
      ensures |emitted| >= |old(emitted)| && emitted[..|old(emitted)|] == old(emitted)
      ensures (emitted[|old(emitted)|..], State()) == Feed(Framer([], old(synced)), s)
    {
      hide Scan, FirstSync, SyncAt, Trim;
      ghost var f := Framer([], synced);
      assert [] + s == s;
      TailBounded(f, s);
      var pos := Frame(available, s);
      ghost var framed := pos;
      pos := TrimTo(available, pos);
      TrimUnique(available, framed, synced, pos);
      pending := available - pos;
      TailOf(available, pos, s);
      MoveDown(pos, pending);
      if pending > BUFFER - READ_MAX {
        // The source's defensive reset: no input leads here.
        assert false;
      }
    }

    /** Without sync at most four packets' worth of bytes are left to the next read, and no more are
        dropped than that takes; with sync none are. */
    method TrimTo(available: nat, pos: nat) returns (p: nat)
      requires pos <= available
      ensures pos <= p <= available
      ensures synced ==> p == pos
      ensures !synced ==> available - p <= KEPT
      ensures p > pos ==> available - p == KEPT
    {
      p := pos;
      if !synced && available - p > KEPT {
        p := available - KEPT;
      }
    }

    lemma TailOf(available: nat, pos: nat, s: seq<Byte>)
      requires pos <= available <= buffer.Length && s == buffer[..available]
      ensures s[pos..] == buffer[pos..available]
    {
    }

    lemma SameSlice(s: seq<Byte>, pos: nat, packet: seq<Byte>)
      requires pos + PACKET <= |s| <= buffer.Length && s == buffer[..|s|]
      requires packet == buffer[pos..pos + PACKET]
      ensures packet == s[pos..pos + PACKET]
    {
    }

    /** Hands over every packet of the buffer. */
    method Frame(available: nat, ghost s: seq<Byte>) returns (pos: nat)
      requires buffer.Length == BUFFER && available <= BUFFER && s == buffer[..available]
      modifies `synced, `acquisitions, `emitted
      ensures pos <= available
      ensures |emitted| >= |old(emitted)| && emitted[..|old(emitted)|] == old(emitted)
      ensures Scan(s, 0, old(synced)) == Pass(emitted[|old(emitted)|..], pos, synced)
    {
      hide FirstSync, SyncAt, Scan, Done;
      pos := 0;
      ghost var before := emitted;
      ghost var done: Packets := [];
      ghost var all := Scan(s, 0, synced);
      NothingDone(all);
      while pos + PACKET <= available
        invariant pos <= available && emitted == before + done && s == buffer[..available]
        invariant all == Done(done, Scan(s, pos, synced))
        decreases available - pos, !synced
      {
        ScanStep(s, pos, synced);
        if !synced {
          var sync := FindSync(buffer, available, pos);
          if sync == -1 { break; }
          pos, synced, acquisitions := sync, true, acquisitions + 1;
          ScanStep(s, pos, true);
        }
        if buffer[pos] != SYNC {
          synced := false;
          pos := pos + 1;
          continue;
        }
        var packet := buffer[pos..pos + PACKET];
        SameSlice(s, pos, packet);
        DoneMore(done, packet, Scan(s, pos + PACKET, true));
        Associative(before, done, [packet]);
        emitted := emitted + [packet];
        done := done + [packet];
        pos := pos + PACKET;
      }
      ScanEnds(s, pos, synced);
      DoneAll(done, pos, synced);
      assert emitted[|before|..] == done;
    }

    /** memmove of what is left to the start of the buffer. */
    method MoveDown(from_: nat, count: nat)
      requires from_ + count <= buffer.Length
      modifies buffer
      ensures buffer[..count] == old(buffer[from_..from_ + count])
    {
      for i := 0 to count
        invariant forall j :: 0 <= j < i ==> buffer[j] == old(buffer[from_ + j])
        invariant forall j :: i <= j < buffer.Length ==> buffer[j] == old(buffer[j])
      {
        buffer[i] := buffer[from_ + i];
      }
    }
  }

  /** A pass whose first packets are already handed over. */
  function Done(done: Packets, r: Pass): Pass { r.(packets := done + r.packets) }

  lemma NothingDone(r: Pass)
    ensures Done([], r) == r
  {
    assert [] + r.packets == r.packets;
  }

  lemma DoneMore(done: Packets, packet: seq<Byte>, r: Pass)
    ensures Done(done, Ahead(packet, r)) == Done(done + [packet], r)
  {
    assert done + ([packet] + r.packets) == (done + [packet]) + r.packets;
  }

  lemma DoneAll(done: Packets, pos: nat, synced: bool)
    ensures Done(done, Pass([], pos, synced)) == Pass(done, pos, synced)
  {
    assert done + [] == done;
  }

  lemma ScanEnds(s: seq<Byte>, pos: nat, synced: bool)
    requires pos <= |s| && (pos + PACKET > |s| || (!synced && FirstSync(s, pos) == -1))
    ensures Scan(s, pos, synced) == Pass([], pos, synced)
  {
    hide FirstSync, SyncAt;
  }
}
