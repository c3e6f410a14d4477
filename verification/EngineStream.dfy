/** The receiver's loop of engine/usb_dvbs2_engine.c: each read is descrambled in the buffer, from where
    sync is or will be, before packets are cut from it. */
module EngineStream {
  import opened Bytes
  import opened Buffers
  import opened TsPacket
  import opened TsFraming
  import Csa

  /** The whole packets' worth of bytes from a place on. */
  function Windows(s: seq<Byte>, at: nat): (w: seq<Packet>)
    requires at <= |s|
    ensures |w| == (|s| - at) / PACKET
  {
    seq((|s| - at) / PACKET, i requires 0 <= i < (|s| - at) / PACKET => s[at + PACKET * i..at + PACKET * (i + 1)])
  }

  function Flat(packets: seq<Packet>): (s: seq<Byte>)
    ensures |s| == PACKET * |packets|
  {
    if packets == [] then [] else Flat(packets[..|packets| - 1]) + packets[|packets| - 1]
  }

  /** The buffer after the descrambler ran over it; nothing happens without a place to start. */
  ghost function Run(s: seq<Byte>, at: int, words: Csa.Words, cipher: Csa.Cipher): (t: seq<Byte>)
    requires Csa.KeepsLength(cipher) && -1 <= at <= |s|
    ensures |t| == |s|
  {
    if at == -1 then s
    else s[..at] + Flat(Csa.DescrambleAll(Windows(s, at), words, cipher)) + s[at + PACKET * |Windows(s, at)|..]
  }

  /** Where the descrambler starts. */
  function RunFrom(s: seq<Byte>, synced: bool): (at: int)
    ensures -1 <= at <= |s|
  {
    if synced then 0 else FirstSync(s, 0)
  }

  /** One read of the receiver: as the framer's, on the descrambled buffer. */
  ghost function Receive(f: Framer, x: seq<Byte>, words: Csa.Words, cipher: Csa.Cipher): (Packets, Framer)
    requires Csa.KeepsLength(cipher)
  {
    var s := f.tail + x;
    Feed(Framer([], f.synced), Run(s, RunFrom(s, f.synced), words, cipher))
  }

  /** From a place on, every packet's worth of bytes begins with the sync byte. */
  ghost predicate InStep(s: seq<Byte>, at: nat) {
    forall i: nat :: at + PACKET * i < |s| ==> s[at + PACKET * i] == SYNC
  }

  /** A packet of the buffer, and its byte in it. */
  lemma {:induction false} FlatAt(packets: seq<Packet>, i: nat)
    requires i < |packets|
    ensures Flat(packets)[PACKET * i..PACKET * (i + 1)] == packets[i]
    decreases |packets|
  {
    var n := |packets| - 1;
    if i < n {
      FlatAt(packets[..n], i);
      assert Flat(packets)[PACKET * i..PACKET * (i + 1)] == Flat(packets[..n])[PACKET * i..PACKET * (i + 1)];
    }
  }

  lemma InStepNext(s: seq<Byte>, at: nat)
    requires InStep(s, at) && at + PACKET <= |s|
    ensures s[at] == SYNC && InStep(s, at + PACKET)
  {
    assert s[at + PACKET * 0] == SYNC;
    forall i: nat | at + PACKET + PACKET * i < |s|
      ensures s[at + PACKET + PACKET * i] == SYNC
    {
      assert s[at + PACKET * (i + 1)] == SYNC;
    }
  }

  lemma WindowsNext(s: seq<Byte>, at: nat)
    requires at + PACKET <= |s|
    ensures Windows(s, at) == [s[at..at + PACKET]] + Windows(s, at + PACKET)
  {
    assert (|s| - at) / PACKET == |Windows(s, at + PACKET)| + 1;
  }

  /** What is handed over of a buffer in step: all its whole packets. */
  lemma {:induction false} ScanInStep(s: seq<Byte>, at: nat)
    requires at <= |s| && InStep(s, at)
    ensures Scan(s, at, true) == Pass(Windows(s, at), at + PACKET * |Windows(s, at)|, true)
    decreases |s| - at
  {
    hide FirstSync, InStep, Scan, Windows;
    if at + PACKET <= |s| {
      ScanStep(s, at, true);
      InStepNext(s, at);
      WindowsNext(s, at);
      ScanInStep(s, at + PACKET);
    } else {
      ScanEnds(s, at, true);
      assert |Windows(s, at)| == 0;
    }
  }

  /* ---- one read ---- */

  /** Descrambling leaves every packet's sync byte, so what was in step is in step. */
  lemma RunParts(s: seq<Byte>, at: nat, words: Csa.Words, cipher: Csa.Cipher)
    requires Csa.KeepsLength(cipher) && at <= |s|
    ensures var t, n := Run(s, at, words, cipher), |Windows(s, at)|;
            && t[..at] == s[..at] && t[at + PACKET * n..] == s[at + PACKET * n..]
            && Windows(t, at) == Csa.DescrambleAll(Windows(s, at), words, cipher)
  {
    hide Flat, Csa.Descramble;
    var t, w := Run(s, at, words, cipher), Windows(s, at);
    var d := Csa.DescrambleAll(w, words, cipher);
    assert t[at..at + PACKET * |w|] == Flat(d);
    forall i | 0 <= i < |w|
      ensures Windows(t, at)[i] == d[i]
    {
      FlatAt(d, i);
      SliceOfSlice(t, at, at + PACKET * |w|, PACKET * i, PACKET * (i + 1));
    }
  }

  lemma RunInStep(s: seq<Byte>, at: nat, words: Csa.Words, cipher: Csa.Cipher)
    requires Csa.KeepsLength(cipher) && at <= |s| && InStep(s, at)
    ensures InStep(Run(s, at, words, cipher), at)
  {
    hide Run, Csa.Descramble;
    var t, w := Run(s, at, words, cipher), Windows(s, at);
    RunParts(s, at, words, cipher);
    forall i: nat | at + PACKET * i < |t|
      ensures t[at + PACKET * i] == SYNC
    {
      assert s[at + PACKET * i] == SYNC;
      if i < |w| {
        Csa.DescrambleKeepsHeader(w[i], words, cipher);
        assert t[at + PACKET * i] == Windows(t, at)[i][0];
        assert w[i][0] == w[i][..3][0] && Windows(t, at)[i][0] == Windows(t, at)[i][..3][0];
      } else {
        assert i == |w|;
        assert t[at + PACKET * i] == t[at + PACKET * i..][0] && s[at + PACKET * i] == s[at + PACKET * i..][0];
      }
    }
  }

  /** The places at which a pass finds its packets. */
  function Places(s: seq<Byte>, pos: nat, synced: bool): seq<nat>
    requires pos <= |s|
    decreases |s| - pos, !synced
  {
    if pos + PACKET > |s| then []
    else if !synced then
      var o := FirstSync(s, pos);
      if o == -1 then [] else Places(s, o, true)
    else if s[pos] != SYNC then Places(s, pos + 1, false)
    else [pos] + Places(s, pos + PACKET, true)
  }

  /** In step, they depend on the size alone. */
  lemma {:induction false} PlacesInStep(s: seq<Byte>, at: nat)
    requires at <= |s| && InStep(s, at)
    ensures Places(s, at, true) == Strides(at, |s|)
    decreases |s| - at
  {
    hide FirstSync, InStep;
    if at + PACKET <= |s| {
      InStepNext(s, at);
      PlacesInStep(s, at + PACKET);
    }
  }

  /** Every place a packet's length further on that has a whole one before the end. */
  function Strides(at: nat, size: nat): seq<nat>
    decreases size - at
  {
    if at + PACKET > size then [] else [at] + Strides(at + PACKET, size)
  }

  /** A buffer in step, or to be in step from where sync is found in it. */
  ghost predicate Steady(s: seq<Byte>, synced: bool) {
    var at := RunFrom(s, synced);
    at == -1 || InStep(s, at)
  }

  /** Sync is found where it was found before descrambling. */
  ghost predicate SameStart(s: seq<Byte>, synced: bool, words: Csa.Words, cipher: Csa.Cipher)
    requires Csa.KeepsLength(cipher)
  {
    var at := RunFrom(s, synced);
    RunFrom(Run(s, at, words, cipher), synced) == at
  }

  /** The framer on a steady buffer: what it hands over, from which places, and what it keeps. */
  lemma FeedSteady(tail: seq<Byte>, synced: bool, x: seq<Byte>)
    requires Steady(tail + x, synced) && RunFrom(tail + x, synced) != -1
    ensures var s, at := tail + x, RunFrom(tail + x, synced);
            && Feed(Framer(tail, synced), x) == (Windows(s, at), Framer(s[at + PACKET * |Windows(s, at)|..], true))
            && Places(s, 0, synced) == Strides(at, |s|)
  {
    hide InStep;
    var s, at := tail + x, RunFrom(tail + x, synced);
    ScanInStep(s, at);
    PlacesInStep(s, at);
    TailBounded(Framer(tail, synced), x);
    assert !synced ==> at + KEPT < |s|;
  }

  /** The same packets, each descrambled once. */
  ghost predicate Descrambled(p: Packets, q: Packets, words: Csa.Words, cipher: Csa.Cipher) {
    |q| == |p| && forall i :: 0 <= i < |p| ==> |p[i]| == PACKET && q[i] == Csa.Descramble(p[i], words, cipher)
  }

  /** Handed over are the packets the framer would hand over, from the same places and each descrambled
      once, and kept is what the framer would keep. */
  ghost predicate AsFramed(f: Framer, x: seq<Byte>, words: Csa.Words, cipher: Csa.Cipher)
    requires Csa.KeepsLength(cipher)
  {
    var s := f.tail + x;
    && Places(Run(s, RunFrom(s, f.synced), words, cipher), 0, f.synced) == Places(s, 0, f.synced)
    && Descrambled(Feed(f, x).0, Receive(f, x, words, cipher).0, words, cipher)
    && Receive(f, x, words, cipher).1 == Feed(f, x).1
  }

  /** A read of a steady buffer does, if and only if sync is still found where it was: descrambling
      leaves the sync bytes alone, but not those between them. */
  lemma ReadDescrambles(f: Framer, x: seq<Byte>, words: Csa.Words, cipher: Csa.Cipher)
    requires Csa.KeepsLength(cipher) && Steady(f.tail + x, f.synced)
    ensures AsFramed(f, x, words, cipher) <==> SameStart(f.tail + x, f.synced, words, cipher)
  {
    hide InStep, Run, AsFramed, Csa.Descramble;
    var s := f.tail + x;
    var at := RunFrom(s, f.synced);
    if at == -1 {
      NothingToRun(f, x, words, cipher);
    } else if SameStart(s, f.synced, words, cipher) {
      SteadyRead(f, x, at, words, cipher);
    } else {
      FeedSteady(f.tail, f.synced, x);
      FirstPlace(s, Run(s, at, words, cipher), at);
      assert !AsFramed(f, x, words, cipher) by { PlacesDiffer(f, x, words, cipher); }
    }
  }

  lemma PlacesDiffer(f: Framer, x: seq<Byte>, words: Csa.Words, cipher: Csa.Cipher)
    requires Csa.KeepsLength(cipher)
    ensures var s := f.tail + x;
            AsFramed(f, x, words, cipher) ==>
              Places(Run(s, RunFrom(s, f.synced), words, cipher), 0, f.synced) == Places(s, 0, f.synced)
  {
    hide Places, Run, Receive, Feed;
  }

  lemma NothingToRun(f: Framer, x: seq<Byte>, words: Csa.Words, cipher: Csa.Cipher)
    requires Csa.KeepsLength(cipher) && RunFrom(f.tail + x, f.synced) == -1
    ensures AsFramed(f, x, words, cipher) && SameStart(f.tail + x, f.synced, words, cipher)
  {
    var s := f.tail + x;
    assert [] + s == s;
    assert Feed(f, x).0 == [];
  }

  lemma SteadyRead(f: Framer, x: seq<Byte>, at: nat, words: Csa.Words, cipher: Csa.Cipher)
    requires Csa.KeepsLength(cipher) && at == RunFrom(f.tail + x, f.synced) && Steady(f.tail + x, f.synced)
    requires SameStart(f.tail + x, f.synced, words, cipher)
    ensures AsFramed(f, x, words, cipher)
  {
    hide InStep, Run, Feed, Places, Windows, Csa.Descramble;
    var s := f.tail + x;
    var t := Run(s, at, words, cipher);
    FeedSteady(f.tail, f.synced, x);
    RunInStep(s, at, words, cipher);
    RunParts(s, at, words, cipher);
    assert [] + t == t;
    FeedSteady([], f.synced, t);
  }

  lemma FirstPlace(s: seq<Byte>, t: seq<Byte>, at: nat)
    requires |t| == |s| && at + KEPT < |s| && FirstSync(t, 0) != at
    requires Places(s, 0, false) == Strides(at, |s|)
    ensures Places(t, 0, false) != Places(s, 0, false)
  {
    hide FirstSync;
    assert Places(s, 0, false)[0] == at;
    var o := FirstSync(t, 0);
    if o != -1 {
      assert Places(t, 0, false) == Places(t, o, true);
      assert t[o] == SYNC by { SyncThere(t); }
    }
  }

  lemma SyncThere(t: seq<Byte>)
    ensures var o := FirstSync(t, 0); o != -1 ==> o + KEPT < |t| && t[o] == SYNC
  {
  }

  /* ---- all run ---- */

  /** A read, and the words that are installed when it is handled. */
  datatype Read = Read(data: seq<Byte>, words: Csa.Words)

  function Datas(run: seq<Read>): seq<seq<Byte>> {
    if run == [] then [] else [run[0].data] + Datas(run[1..])
  }

  ghost function ReceiveAll(f: Framer, run: seq<Read>, cipher: Csa.Cipher): (Packets, Framer)
    requires Csa.KeepsLength(cipher)
    decreases |run|
  {
    if run == [] then ([], f)
    else
      var (p, g) := Receive(f, run[0].data, run[0].words, cipher);
      var (q, h) := ReceiveAll(g, run[1..], cipher);
      (p + q, h)
  }

  /** Read by read, packets and state are the framer's, the packets descrambled once with the words of
      their read. */
  ghost predicate AllAsFramed(f: Framer, run: seq<Read>, cipher: Csa.Cipher)
    requires Csa.KeepsLength(cipher)
    decreases |run|
  {
    |run| == 0
    || (AsFramed(f, run[0].data, run[0].words, cipher)
        && AllAsFramed(Feed(f, run[0].data).1, run[1..], cipher))
  }

  /** Sync is found where it was in every read. */
  ghost predicate AllSameStart(f: Framer, run: seq<Read>, cipher: Csa.Cipher)
    requires Csa.KeepsLength(cipher)
    decreases |run|
  {
    |run| == 0
    || (SameStart(f.tail + run[0].data, f.synced, run[0].words, cipher)
        && AllSameStart(Feed(f, run[0].data).1, run[1..], cipher))
  }

  lemma InStepLater(s: seq<Byte>, at: nat, n: nat)
    requires InStep(s, at) && at + PACKET * n <= |s|
    ensures InStep(s[at + PACKET * n..], 0)
  {
    var u := s[at + PACKET * n..];
    forall i: nat | 0 + PACKET * i < |u|
      ensures u[0 + PACKET * i] == SYNC
    {
      assert s[at + PACKET * (n + i)] == SYNC;
    }
  }

  lemma InStepBefore(s: seq<Byte>, more: seq<Byte>, at: nat)
    requires InStep(s + more, at)
    ensures InStep(s, at)
  {
    forall i: nat | at + PACKET * i < |s|
      ensures s[at + PACKET * i] == SYNC
    {
      assert (s + more)[at + PACKET * i] == SYNC;
    }
  }

  /** A steady stream is steady in every read, and steady behind it. */
  lemma SteadyOn(f: Framer, x: seq<Byte>, more: seq<Byte>)
    requires Steady(f.tail + x + more, f.synced)
    ensures Steady(f.tail + x, f.synced)
    ensures var g := Feed(f, x).1; Steady(g.tail + more, g.synced)
  {
    hide InStep, Windows, SyncAt, FirstSync;
    var s, all := f.tail + x, f.tail + x + more;
    var at := RunFrom(s, f.synced);
    if at == -1 {
      SearchOn(f, x, more);
    } else {
      if !f.synced { FirstSyncExtended(s, more, 0); }
      InStepBefore(s, more, at);
      FeedSteady(f.tail, f.synced, x);
      var n := |Windows(s, at)|;
      WindowsFit(s, at);
      InStepLater(all, at, n);
      assert all[at + PACKET * n..] == s[at + PACKET * n..] + more;
    }
  }

  lemma WindowsFit(s: seq<Byte>, at: nat)
    requires at <= |s|
    ensures at + PACKET * |Windows(s, at)| <= |s|
  {
  }

  /** Without sync so far, the trimmed tail finds it where the whole would. */
  lemma SearchOn(f: Framer, x: seq<Byte>, more: seq<Byte>)
    requires Steady(f.tail + x + more, f.synced) && RunFrom(f.tail + x, f.synced) == -1
    ensures var g := Feed(f, x).1; Steady(g.tail + more, g.synced)
  {
    hide InStep, FirstSync, SyncAt;
    var s, all := f.tail + x, f.tail + x + more;
    var p := Trim(|s|, 0, false);
    TailBounded(f, x);
    assert Feed(f, x).1 == Framer(s[p..], false);
    forall k | 0 <= k < p
      ensures !SyncAt(all, k)
    {
      SyncAtExtended(s, more, k);
      assert !SyncAt(s, k) by { NoSyncBefore(s, k); }
    }
    FirstSyncSkips(all, 0, p);
    FirstSyncShifted(all, p, 0);
    assert all[p..] == s[p..] + more;
    if FirstSync(all[p..], 0) != -1 {
      InStepShifted(all, p, FirstSync(all[p..], 0));
    }
  }

  lemma NoSyncBefore(s: seq<Byte>, k: nat)
    requires FirstSync(s, 0) == -1 && k < |s|
    ensures !SyncAt(s, k)
  {
  }

  lemma InStepShifted(s: seq<Byte>, p: nat, at: nat)
    requires p <= |s| && InStep(s, at + p)
    ensures InStep(s[p..], at)
  {
    forall i: nat | at + PACKET * i < |s[p..]|
      ensures s[p..][at + PACKET * i] == SYNC
    {
      assert s[at + p + PACKET * i] == SYNC;
    }
  }

  /** Over a stream that is in step from where sync is first found, whatever comes before and however it
      is read, the receiver hands over the packets of the framer, each descrambled once with the words of
      the read that completes it, if and only if in every read sync is found where it was. */
  lemma {:induction false} StreamDescrambles(f: Framer, run: seq<Read>, cipher: Csa.Cipher)
    requires Csa.KeepsLength(cipher) && Steady(f.tail + Concat(Datas(run)), f.synced)
    ensures AllAsFramed(f, run, cipher) <==> AllSameStart(f, run, cipher)
    decreases |run|
  {
    hide Steady, AsFramed, SameStart, Feed;
    if run != [] {
      var x, more := run[0].data, Concat(Datas(run[1..]));
      assert Datas(run)[1..] == Datas(run[1..]);
      Associative(f.tail, x, more);
      SteadyOn(f, x, more);
      ReadDescrambles(f, x, run[0].words, cipher);
      StreamDescrambles(Feed(f, x).1, run[1..], cipher);
    }
  }

  /** With the same words throughout, that is the stream's packets, each descrambled once. */
  lemma {:induction false} OnceUnderFixedWords(f: Framer, run: seq<Read>, words: Csa.Words, cipher: Csa.Cipher)
    requires Csa.KeepsLength(cipher) && AllAsFramed(f, run, cipher)
    requires forall i :: 0 <= i < |run| ==> run[i].words == words
    ensures Descrambled(FeedAll(f, Datas(run)).0, ReceiveAll(f, run, cipher).0, words, cipher)
    ensures ReceiveAll(f, run, cipher).1 == FeedAll(f, Datas(run)).1
    decreases |run|
  {
    hide Feed, Receive, Descrambled, AsFramed, Csa.Descramble;
    if run == [] {
      NothingDescrambled(words, cipher);
    } else {
      var x, rest := run[0].data, run[1..];
      var g := Feed(f, x).1;
      assert Datas(run)[1..] == Datas(rest);
      AsFramedMeans(f, x, words, cipher);
      OnceUnderFixedWords(g, rest, words, cipher);
      DescrambledConcat(Feed(f, x).0, Receive(f, x, words, cipher).0, FeedAll(g, Datas(rest)).0,
                        ReceiveAll(g, rest, cipher).0, words, cipher);
    }
  }

  lemma NothingDescrambled(words: Csa.Words, cipher: Csa.Cipher)
    ensures Descrambled([], [], words, cipher)
  {
  }

  lemma AsFramedMeans(f: Framer, x: seq<Byte>, words: Csa.Words, cipher: Csa.Cipher)
    requires Csa.KeepsLength(cipher) && AsFramed(f, x, words, cipher)
    ensures Descrambled(Feed(f, x).0, Receive(f, x, words, cipher).0, words, cipher)
    ensures Receive(f, x, words, cipher).1 == Feed(f, x).1
  {
    hide Places, Run, Receive, Feed, Descrambled;
  }

  lemma DescrambledConcat(p: Packets, q: Packets, r: Packets, s: Packets, words: Csa.Words, cipher: Csa.Cipher)
    requires Descrambled(p, q, words, cipher) && Descrambled(r, s, words, cipher)
    ensures Descrambled(p + r, q + s, words, cipher)
  {
    hide Csa.Descramble;
  }

  /* ---- a stream that begins with a packet ---- */

  /** Then sync is found at its start, descrambled or not. */
  lemma {:induction false} StartStays(f: Framer, run: seq<Read>, cipher: Csa.Cipher)
    requires Csa.KeepsLength(cipher) && InStep(f.tail + Concat(Datas(run)), 0)
    ensures Steady(f.tail + Concat(Datas(run)), f.synced) && AllSameStart(f, run, cipher)
    decreases |run|
  {
    hide InStep, SameStart, FirstSync;
    AtOnce(f.tail + Concat(Datas(run)));
    if run != [] {
      var x, more := run[0].data, Concat(Datas(run[1..]));
      assert Datas(run)[1..] == Datas(run[1..]);
      Associative(f.tail, x, more);
      StartStaysOnce(f, x, more, run[0].words, cipher);
      StartStays(Feed(f, x).1, run[1..], cipher);
    }
  }

  /** Five packets' worth of sync bytes are enough to find it, and there is no waiting for more. */
  lemma AtOnce(s: seq<Byte>)
    requires InStep(s, 0)
    ensures FirstSync(s, 0) == if |s| > KEPT then 0 else -1
  {
    if |s| > KEPT {
      assert s[0 + PACKET * 0] == SYNC && s[0 + PACKET * 1] == SYNC && s[0 + PACKET * 2] == SYNC;
      assert s[0 + PACKET * 3] == SYNC && s[0 + PACKET * 4] == SYNC;
      assert SyncAt(s, 0);
    }
  }

  lemma StartStaysOnce(f: Framer, x: seq<Byte>, more: seq<Byte>, words: Csa.Words, cipher: Csa.Cipher)
    requires Csa.KeepsLength(cipher) && InStep(f.tail + x + more, 0)
    ensures SameStart(f.tail + x, f.synced, words, cipher)
    ensures InStep(Feed(f, x).1.tail + more, 0)
  {
    hide InStep, FirstSync, Windows, Run;
    var s, all := f.tail + x, f.tail + x + more;
    InStepBefore(s, more, 0);
    AtOnce(s);
    if f.synced || |s| > KEPT {
      RunInStep(s, 0, words, cipher);
      AtOnce(Run(s, 0, words, cipher));
      FeedSteady(f.tail, f.synced, x);
      var n := |Windows(s, 0)|;
      WindowsFit(s, 0);
      InStepLater(all, 0, n);
      assert all[0 + PACKET * n..] == s[0 + PACKET * n..] + more;
    } else {
      TailBounded(f, x);
      assert Run(s, -1, words, cipher) == s by { RunNothing(s, words, cipher); }
      assert Feed(f, x).1 == Framer(s[0..], false) && s[0..] == s;
    }
  }

  lemma RunNothing(s: seq<Byte>, words: Csa.Words, cipher: Csa.Cipher)
    requires Csa.KeepsLength(cipher)
    ensures Run(s, -1, words, cipher) == s
  {
  }

  /** Five or more packets in a row come out each descrambled once, however they are read. */
  lemma CleanStreamDescrambles(packets: Packets, run: seq<Read>, words: Csa.Words, cipher: Csa.Cipher)
    requires Csa.KeepsLength(cipher) && ArePackets(packets) && |packets| >= 5
    requires Concat(Datas(run)) == Concat(packets) && forall i :: 0 <= i < |run| ==> run[i].words == words
    ensures Descrambled(packets, ReceiveAll(START, run, cipher).0, words, cipher)
    ensures ReceiveAll(START, run, cipher).1 == Framer([], true)
  {
    hide Concat, FeedAll, Descrambled, Steady;
    var s := Concat(packets);
    assert [] + s == s;
    assert InStep(s, 0) by { CleanInStep(packets); }
    StartStays(START, run, cipher);
    StreamDescrambles(START, run, cipher);
    OnceUnderFixedWords(START, run, words, cipher);
    CleanStream(packets, Datas(run));
  }

  lemma CleanInStep(packets: Packets)
    requires ArePackets(packets)
    ensures InStep(Concat(packets), 0)
  {
    hide Concat;
    ConcatSize(packets);
    forall i: nat | 0 + PACKET * i < |Concat(packets)|
      ensures Concat(packets)[0 + PACKET * i] == SYNC
    {
      PacketAt(packets, i);
    }
  }

  /* ---- and one that does not ---- */

  /** A sync byte too many before five packets. */
  function Stray(q: Packet): (s: seq<Byte>)
    ensures |s| == 1 + 5 * PACKET
  {
    [SYNC] + Flat([q, q, q, q, q])
  }

  lemma StrayPacket(q: Packet, k: nat)
    requires k < 5
    ensures Stray(q)[1 + PACKET * k..1 + PACKET * (k + 1)] == q
  {
    hide Flat;
    var five: seq<Packet> := [q, q, q, q, q];
    FlatAt(five, k);
    var flat := Flat(five);
    assert ([SYNC] + flat)[1..] == flat;
    SliceOfSlice([SYNC] + flat, 1, 1 + |flat|, PACKET * k, PACKET * (k + 1));
    assert ([SYNC] + flat)[1..1 + |flat|] == flat;
  }

  lemma StrayAt(q: Packet, i: nat, j: nat)
    requires i < 5 && j < PACKET
    ensures Stray(q)[1 + PACKET * i + j] == q[j] && Windows(Stray(q), 1) == [q, q, q, q, q]
  {
    hide Stray;
    var s := Stray(q);
    StrayPacket(q, 0);
    StrayPacket(q, 1);
    StrayPacket(q, 2);
    StrayPacket(q, 3);
    StrayPacket(q, 4);
    StrayPacket(q, i);
    assert s[1 + PACKET * i + j] == s[1 + PACKET * i..1 + PACKET * (i + 1)][j];
  }

  /** It hurts if the packets' last byte becomes the sync byte by descrambling, as a scrambled payload
      well may: then the receiver cuts its packets a byte too early. */
  lemma FalseStart(q: Packet, words: Csa.Words, cipher: Csa.Cipher)
    requires Csa.KeepsLength(cipher) && q[0] == SYNC && q[187] != SYNC
    requires var d := Csa.Descramble(q, words, cipher); |d| == PACKET && d[187] == SYNC
    ensures FirstSync(Stray(q), 0) == 1 && Steady(Stray(q), false)
    ensures FirstSync(Run(Stray(q), 1, words, cipher), 0) == 0 && !AsFramed(START, Stray(q), words, cipher)
  {
    hide Stray, Run, Windows, AsFramed, Csa.Descramble;
    var s, d := Stray(q), Csa.Descramble(q, words, cipher);
    var t := Run(s, 1, words, cipher);
    forall i | 0 <= i < 5
      ensures s[1 + PACKET * i] == SYNC && s[1 + PACKET * i + 187] != SYNC
    {
      StrayAt(q, i, 0);
      StrayAt(q, i, 187);
    }
    StrayFound(s);
    RunParts(s, 1, words, cipher);
    forall i | 0 <= i < 4
      ensures t[1 + PACKET * i + 187] == SYNC
    {
      StrayAt(q, i, 0);
      WindowByte(t, i);
    }
    assert t[0] == t[..1][0] == s[..1][0] == s[0] == SYNC by { assert s[0] == SYNC by { FirstStray(q); } }
    assert t[188] == t[1 + PACKET * 0 + 187] && t[376] == t[1 + PACKET * 1 + 187];
    assert t[564] == t[1 + PACKET * 2 + 187] && t[752] == t[1 + PACKET * 3 + 187];
    FoundAtStart(t);
    assert [] + s == s;
    ReadDescrambles(START, s, words, cipher);
  }

  lemma FirstStray(q: Packet)
    ensures Stray(q)[0] == SYNC
  {
  }

  lemma WindowByte(t: seq<Byte>, i: nat)
    requires |t| == 1 + 5 * PACKET && i < 5
    ensures |Windows(t, 1)| == 5 && t[1 + PACKET * i + 187] == Windows(t, 1)[i][187]
  {
  }

  lemma FoundAtStart(t: seq<Byte>)
    requires |t| > KEPT && SyncAt(t, 0)
    ensures FirstSync(t, 0) == 0
  {
  }

  lemma StrayFound(s: seq<Byte>)
    requires |s| == 1 + 5 * PACKET && forall i :: 0 <= i < 5 ==> s[1 + PACKET * i] == SYNC
    requires s[1 + PACKET * 0 + 187] != SYNC
    ensures FirstSync(s, 0) == 1 && InStep(s, 1)
  {
    assert s[1 + PACKET * 0] == SYNC && s[1 + PACKET * 1] == SYNC && s[1 + PACKET * 2] == SYNC;
    assert s[1 + PACKET * 3] == SYNC && s[1 + PACKET * 4] == SYNC;
    assert SyncAt(s, 1) && !SyncAt(s, 0);
    assert FirstSync(s, 0) == FirstSync(s, 1) == 1;
  }

  /** Such packets, words and such a cipher there are. */
  lemma FalseStartHappens()
    ensures exists q: Packet, words, cipher: Csa.Cipher ::
              Csa.KeepsLength(cipher) && Steady(Stray(q), false) && !AsFramed(START, Stray(q), words, cipher)
  {
    hide AsFramed, Stray, Steady;
    var q: Packet := [SYNC, 0, 0, 0x90] + seq(184, _ => 0);
    var words := Csa.Words(Csa.Installed([]), Csa.NoKey);
    var cipher: Csa.Cipher := (k, p: seq<Byte>) => seq(|p|, _ => SYNC);
    assert PayloadOffset(q) == 4 by { assert q[3] == 0x90; }
    assert Csa.Scrambled(q) && Csa.WordFor(q, words) == Csa.Installed([]) by { assert q[0] == SYNC && q[3] == 0x90; }
    FalseStart(q, words, cipher);
  }

  /* ---- in place ---- */

  class Receiver {
    const capture: Capture
    const csa: Csa.Descrambler

    ghost predicate Valid()
      reads capture, capture.buffer, csa, csa.even, csa.odd
    {
      && capture.Valid() && csa.Idle()
      && capture.buffer as object != csa.even.slots && capture.buffer as object != csa.odd.slots
    }

    constructor (batchSize: nat)
      requires batchSize > 0
      ensures Valid() && capture.State() == START && capture.emitted == []
      ensures csa.InstalledWords() == Csa.Words(Csa.NoKey, Csa.NoKey)
      ensures fresh(capture) && fresh(capture.buffer) && fresh(csa) && fresh(csa.even) && fresh(csa.odd)
    {
      capture := new Capture();
      csa := new Csa.Descrambler(batchSize);
    }

    /** A transfer is put into the buffer, descrambled there, and handed over packet by packet. */
    method Read(data: seq<Byte>, cipher: Csa.Cipher)
      requires Valid() && 0 < |data| <= READ_MAX && Csa.KeepsLength(cipher)
      modifies capture, capture.buffer, csa.even`count, csa.odd`count, csa.even.slots, csa.odd.slots
      ensures Valid() && csa.InstalledWords() == old(csa.InstalledWords())
      ensures |capture.emitted| >= |old(capture.emitted)|
      ensures capture.emitted[..|old(capture.emitted)|] == old(capture.emitted)
      ensures (capture.emitted[|old(capture.emitted)|..], capture.State())
           == Receive(old(capture.State()), data, old(csa.InstalledWords()), cipher)
    {
      hide Feed, FirstSync, Run, Csa.DescrambleAll;
      ghost var s, words := capture.State().tail + data, csa.InstalledWords();
      var available := capture.Fill(data);
      var start: int := 0;
      if !capture.synced {
        start := FindSync(capture.buffer, available, 0);
      }
      RunNothing(s, words, cipher);
      if start != -1 {
        RunBuffer(available, start, cipher);
      }
      capture.HandOver(available, capture.buffer[..available]);
    }

    /** dtv_csa_decrypt_run on the whole packets' worth of bytes from a place on, which it sees as packets. */
    method RunBuffer(available: nat, at: nat, cipher: Csa.Cipher)
      requires csa.Idle() && Csa.KeepsLength(cipher) && at <= available <= capture.buffer.Length
      requires capture.buffer as object != csa.even.slots && capture.buffer as object != csa.odd.slots
      modifies capture.buffer, csa.even`count, csa.odd`count, csa.even.slots, csa.odd.slots
      ensures csa.Idle() && csa.InstalledWords() == old(csa.InstalledWords())
      ensures capture.buffer[..available]
           == Run(old(capture.buffer[..available]), at, old(csa.InstalledWords()), cipher)
    {
      hide Flat, Windows, Run, Csa.DescrambleAll;
      ghost var s, words := capture.buffer[..available], csa.InstalledWords();
      RunIs(s, at, words, cipher);
      var packets := TakePackets(available, at);
      var count := csa.DecryptRun(packets, cipher);
      PutPackets(available, at, packets, s);
    }

    method TakePackets(available: nat, at: nat) returns (packets: array<Packet>)
      requires at <= available <= capture.buffer.Length
      ensures fresh(packets) && packets[..] == Windows(capture.buffer[..available], at)
    {
      var n := (available - at) / PACKET;
      packets := new Packet[n];
      for i := 0 to n
        invariant forall j :: 0 <= j < i ==> packets[j] == Windows(capture.buffer[..available], at)[j]
      {
        SliceOfSlice(capture.buffer[..], 0, available, at + PACKET * i, at + PACKET * (i + 1));
        packets[i] := capture.buffer[at + PACKET * i..at + PACKET * (i + 1)];
      }
    }

    method PutPackets(available: nat, at: nat, packets: array<Packet>, ghost s: seq<Byte>)
      requires at + PACKET * packets.Length <= available <= capture.buffer.Length
      requires capture.buffer as object != packets && s == capture.buffer[..available]
      modifies capture.buffer
      ensures capture.buffer[..available] == s[..at] + Flat(packets[..]) + s[at + PACKET * packets.Length..]
    {
      hide Flat;
      NoneFlat();
      for i := 0 to packets.Length
        invariant capture.buffer[..at + PACKET * i] == s[..at] + Flat(packets[..i])
        invariant capture.buffer[at + PACKET * i..available] == s[at + PACKET * i..]
      {
        PutOne(available, at + PACKET * i, packets[i]);
        FlatMore(packets[..i], packets[i]);
        assert packets[..i + 1] == packets[..i] + [packets[i]];
        Associative(s[..at], Flat(packets[..i]), packets[i]);
        TailCut(s, at + PACKET * i, PACKET);
      }
      assert packets[..packets.Length] == packets[..];
      Halves(available, at + PACKET * packets.Length);
    }

    method PutOne(available: nat, at: nat, packet: Packet)
      requires at + PACKET <= available <= capture.buffer.Length
      modifies capture.buffer
      ensures capture.buffer[..at + PACKET] == old(capture.buffer[..at]) + packet
      ensures capture.buffer[at + PACKET..available] == old(capture.buffer[at..available])[PACKET..]
    {
      ghost var before := capture.buffer[..];
      WriteBehind(capture.buffer, at, packet);
      TailKept(before, capture.buffer[..], available, at + PACKET);
      SliceCut(before, at, available, PACKET);
    }

    lemma Halves(available: nat, end: nat)
      requires end <= available <= capture.buffer.Length
      ensures capture.buffer[..available] == capture.buffer[..end] + capture.buffer[end..available]
    {
    }
  }

  lemma RunIs(s: seq<Byte>, at: nat, words: Csa.Words, cipher: Csa.Cipher)
    requires Csa.KeepsLength(cipher) && at <= |s|
    ensures var w := Windows(s, at);
            && at + PACKET * |w| <= |s|
            && Run(s, at, words, cipher)
               == s[..at] + Flat(Csa.DescrambleAll(w, words, cipher)) + s[at + PACKET * |w|..]
  {
    hide Flat, Csa.DescrambleAll;
  }

  lemma NoneFlat()
    ensures Flat([]) == []
  {
  }

  lemma FlatMore(packets: seq<Packet>, p: Packet)
    ensures Flat(packets + [p]) == Flat(packets) + p
  {
    assert (packets + [p])[..|packets|] == packets;
  }

  lemma TailKept(before: seq<Byte>, after: seq<Byte>, available: nat, place: nat)
    requires place <= available <= |before| == |after| && after[place..] == before[place..]
    ensures after[place..available] == before[place..available]
  {
    assert after[place..][..available - place] == after[place..available];
  }
}
