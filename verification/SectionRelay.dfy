/** The engine's packets under the scanner: what engine/ts_udp.c sends is laid out as
    ISO/IEC 13818-1 section 2.4.4 prescribes, so core/ts_services.c collects the same sections from it. */
module SectionRelay {
  import opened Bytes
  import opened SectionScan
  import opened TsPacket
  import opened Wrappers
  import Psi

  /** The payload the scanner takes out of a packet. */
  function PayloadOf(p: Packet): Payload {
    Payload(p[PayloadOffset(p)..], p[1] & 0x40 != 0)
  }

  ghost function PayloadsOf(packets: seq<Packet>): (r: seq<Payload>)
    ensures |r| == |packets|
  {
    if packets == [] then [] else [PayloadOf(packets[0])] + PayloadsOf(packets[1..])
  }

  lemma {:induction false} PayloadsOfConcat(x: seq<Packet>, y: seq<Packet>)
    ensures PayloadsOf(x + y) == PayloadsOf(x) + PayloadsOf(y)
  {
    if x == [] {
      assert x + y == y;
    } else {
      assert (x + y)[1..] == x[1..] + y;
      PayloadsOfConcat(x[1..], y);
    }
  }

  predicate Sendable(s: seq<Byte>) {
    |s| <= Psi.CAPACITY && IsSection(s)
  }

  lemma StuffingIsStuffing(n: nat)
    ensures AllStuffing(Psi.Stuffing(n))
  {
  }

  /** One sent packet, as the layout sees it. */
  lemma PieceIsLaidOut(s: seq<Byte>, used: nat, todo: seq<seq<Byte>>, pid: bv16, counter: Byte)
    requires Sendable(s) && used < |s| && AllSections(todo)
    ensures AllSections([s] + todo)
    ensures var end := Psi.ChunkEnd(s, used);
            var p := PayloadOf(Psi.PacketOf(pid, counter, used == 0, s[used..end]));
            var rest := if used == 0 then Rest([], [s] + todo) else Rest(s[used..], todo);
            LaidOut(rest, p) == Some(Rest(s[end..], todo))
  {
    var end := Psi.ChunkEnd(s, used);
    var chunk := s[used..end];
    var fill := Psi.Stuffing(Psi.Room(used == 0) - |chunk|);
    Psi.PackedSeen(pid, counter, used == 0, chunk);
    var p := PayloadOf(Psi.PacketOf(pid, counter, used == 0, chunk));
    hide Psi.PacketOf, PayloadOffset, IsSection, LaidOut, AllStuffing;
    StuffingIsStuffing(|fill|);
    if used == 0 {
      FirstLaidOut(s, end, todo, fill, p);
    } else {
      LaterLaidOut(s, used, end, todo, fill, p);
    }
  }

  lemma FirstLaidOut(s: seq<Byte>, end: nat, todo: seq<seq<Byte>>, fill: seq<Byte>, p: Payload)
    requires IsSection(s) && 0 < end <= |s| && AllSections(todo) && AllStuffing(fill) && (fill != [] ==> end == |s|)
    requires p.start && |p.data| > 0 && p.data[0] == 0 && p.data[1..] == s[..end] + fill
    ensures AllSections([s] + todo)
    ensures LaidOut(Rest([], [s] + todo), p) == Some(Rest(s[end..], todo))
  {
    hide IsSection, LaidInto, AllStuffing;
    LaidIntoOne(s, end, todo, fill);
    assert p.data[1..1] == [];
  }

  lemma LaterLaidOut(s: seq<Byte>, used: nat, end: nat, todo: seq<seq<Byte>>, fill: seq<Byte>, p: Payload)
    requires used < end <= |s| && AllSections(todo) && AllStuffing(fill) && (fill != [] ==> end == |s|)
    requires !p.start && p.data == s[used..end] + fill
    ensures LaidOut(Rest(s[used..], todo), p) == Some(Rest(s[end..], todo))
  {
    hide IsSection, LaidInto;
    var chunk := s[used..end];
    if end < |s| {
      assert p.data == chunk;
      assert s[used..][|chunk|..] == s[end..] && s[used..][..|chunk|] == chunk;
    } else {
      assert chunk == s[used..] && p.data[|chunk|..] == fill && s[end..] == [];
    }
  }

  lemma LaidIntoOne(s: seq<Byte>, end: nat, todo: seq<seq<Byte>>, fill: seq<Byte>)
    requires IsSection(s) && 0 < end <= |s| && AllSections(todo) && AllStuffing(fill) && (fill != [] ==> end == |s|)
    ensures AllSections([s] + todo)
    ensures LaidInto(s[..end] + fill, [s] + todo) == Some(Rest(s[end..], todo))
  {
    var data := s[..end] + fill;
    assert data[0] == s[0];
    assert ([s] + todo)[1..] == todo;
    if end == |s| {
      assert data[..|s|] == s && data[|s|..] == fill && s[end..] == [];
    } else {
      assert data == s[..end];
    }
  }

  lemma {:induction false} SectionIsLaidOut(s: seq<Byte>, used: nat, todo: seq<seq<Byte>>, pid: bv16, counter: Byte,
                                            more: seq<Payload>)
    requires Sendable(s) && used < |s| && AllSections(todo) && AllSections([s] + todo)
    requires Carries(more, Rest([], todo))
    ensures var rest := if used == 0 then Rest([], [s] + todo) else Rest(s[used..], todo);
            Carries(PayloadsOf(Psi.Packets(s, used, pid, counter)) + more, rest)
    decreases |s| - used
  {
    var end := Psi.ChunkEnd(s, used);
    var p := Psi.PacketOf(pid, counter, used == 0, s[used..end]);
    var later := Psi.Packets(s, end, pid, Psi.NextCounter(counter));
    PieceIsLaidOut(s, used, todo, pid, counter);
    hide LaidOut, Sendable, PayloadOf, Psi.PacketOf, Psi.ChunkEnd;
    assert Psi.Packets(s, used, pid, counter) == [p] + later;
    PayloadsOfConcat([p], later);
    assert PayloadsOf([p]) == [PayloadOf(p)];
    var all := PayloadsOf([p] + later) + more;
    assert all[0] == PayloadOf(p) && all[1..] == PayloadsOf(later) + more;
    if end < |s| {
      SectionIsLaidOut(s, end, todo, pid, Psi.NextCounter(counter), more);
    } else {
      assert later == [] && s[end..] == [];
      assert PayloadsOf(later) + more == more;
    }
  }

  lemma {:induction false} SentIsLaidOut(sections: seq<seq<Byte>>, pid: bv16, counter: Byte)
    requires AllSections(sections) && forall i :: 0 <= i < |sections| ==> Sendable(sections[i])
    ensures Carries(PayloadsOf(Psi.AllPackets(sections, pid, counter)), Rest([], sections))
    decreases |sections|
  {
    hide Sendable, Carries;
    if sections == [] {
      NothingCarried();
    } else {
      var first := Psi.Packets(sections[0], 0, pid, counter);
      var next := Psi.CounterAfter(counter, |first|);
      SentIsLaidOut(sections[1..], pid, next);
      var more := Psi.AllPackets(sections[1..], pid, next);
      SendableNonEmpty(sections[0]);
      assert [sections[0]] + sections[1..] == sections;
      SectionIsLaidOut(sections[0], 0, sections[1..], pid, counter, PayloadsOf(more));
      PayloadsOfConcat(first, more);
    }
  }

  lemma NothingCarried()
    ensures Carries([], Rest([], []))
  {
  }

  lemma SendableNonEmpty(s: seq<Byte>)
    requires Sendable(s)
    ensures |s| > 0
  {
  }

  /** Sections sent by the engine on a pid reach the scanner's parser, all of them and in order. */
  lemma ScannerReadsEngine(sections: seq<seq<Byte>>, pid: bv16, counter: Byte)
    requires AllSections(sections) && forall i :: 0 <= i < |sections| ==> Sendable(sections[i])
    ensures Partial([])
    ensures ProcessAll([], PayloadsOf(Psi.AllPackets(sections, pid, counter))).1 == sections
  {
    SentIsLaidOut(sections, pid, counter);
    SectionsArrive(sections, PayloadsOf(Psi.AllPackets(sections, pid, counter)));
  }
}
