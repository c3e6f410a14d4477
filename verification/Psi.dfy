/** Sending PSI sections as transport packets and collecting them again, engine/ts_udp.c. */
module Psi {
  import opened Bytes
  import opened Buffers
  import opened Wire
  import opened Wrappers
  import opened TsPacket

  const CAPACITY := 1024
  const DATAGRAM := 7 * PACKET

  /* ---- packetising ---- */

  /** What the first packet of a section, or a later one, has room for. */
  function Room(first: bool): nat { if first then 183 else 184 }

  function ChunkEnd(section: seq<Byte>, used: nat): (end: nat)
    requires used < |section|
    ensures used < end <= |section| && end - used <= Room(used == 0)
  {
    if |section| - used > Room(used == 0) then used + Room(used == 0) else |section|
  }

  function Header(pid: bv16, counter: Byte, first: bool): (h: seq<Byte>)
    ensures |h| == PACKET - Room(first)
  {
    [0x47, (((pid >> 8) & 0x1f) as Byte) | (if first then 0x40 else 0), (pid & 0xff) as Byte, 0x10 | (counter & 0x0f)]
    + if first then [0] else []
  }

  function Stuffing(n: nat): (s: seq<Byte>)
    ensures |s| == n
  {
    seq(n, _ => 0xff)
  }

  /** One packet: header, pointer field if it starts the section, a piece of it, stuffing. */
  function PacketOf(pid: bv16, counter: Byte, first: bool, chunk: seq<Byte>): Packet
    requires |chunk| <= Room(first)
  {
    Header(pid, counter, first) + chunk + Stuffing(Room(first) - |chunk|)
  }

  function NextCounter(counter: Byte): Byte { (counter + 1) & 0x0f }

  /** The packets for what is left of a section. */
  function Packets(section: seq<Byte>, used: nat, pid: bv16, counter: Byte): seq<Packet>
    requires used <= |section|
    decreases |section| - used
  {
    if used == |section| then []
    else
      var end := ChunkEnd(section, used);
      [PacketOf(pid, counter, used == 0, section[used..end])] + Packets(section, end, pid, NextCounter(counter))
  }

  /* ---- assembling ---- */

  /** The bytes collected, and the size their header announces once three of them are there. */
  datatype Assembly = Assembly(data: seq<Byte>, expected: nat)

  const EMPTY := Assembly([], 0)

  ghost predicate Sound(a: Assembly) {
    if |a.data| < 3 then a.expected == 0
    else a.expected == 3 + SectionLength(a.data[1], a.data[2]) && |a.data| < a.expected <= CAPACITY
  }

  lemma EmptyIsSound()
    ensures Sound(EMPTY)
  {
  }

  lemma SoundSize(a: Assembly)
    requires Sound(a)
    ensures a.expected <= CAPACITY && |a.data| < CAPACITY && (a.expected != 0 ==> |a.data| < a.expected)
  {
  }

  /** How much of some payload still fits. */
  function Fitting(a: Assembly, bytes: seq<Byte>): (take: nat)
    requires |a.data| < CAPACITY
    ensures take <= |bytes| && |a.data| + take <= CAPACITY && (bytes != [] ==> take > 0)
  {
    if |a.data| + |bytes| > CAPACITY then CAPACITY - |a.data| else |bytes|
  }

  /** Gives the section out when it is complete, and gives up on one that will not fit. */
  function Deliver(a: Assembly): (Assembly, Option<seq<Byte>>) {
    var expected := if a.expected == 0 && |a.data| >= 3 then Announced(a.data) else a.expected;
    if expected > CAPACITY then (EMPTY, None)
    else if expected != 0 && |a.data| >= expected then (EMPTY, Some(a.data[..expected]))
    else (Assembly(a.data, expected), None)
  }

  /** Adds payload to what is collected. */
  function Gather(a: Assembly, bytes: seq<Byte>): (Assembly, Option<seq<Byte>>)
    requires |a.data| < CAPACITY
  {
    if bytes == [] then (a, None)
    else Deliver(Assembly(a.data + bytes[..Fitting(a, bytes)], a.expected))
  }

  function Feed(a: Assembly, p: Packet): (Assembly, Option<seq<Byte>>)
    requires |a.data| < CAPACITY
  {
    var offset := PayloadOffset(p);
    if offset == PACKET then (a, None)
    else if p[1] & 0x40 != 0 then
      var start := offset + 1 + p[offset] as nat;
      if start > PACKET then (a, None) else Gather(EMPTY, p[start..])
    else if a.data == [] then (a, None)
    else Gather(a, p[offset..])
  }

  /** A collection never fills the buffer, and only whole sections leave it: their size is the one their
      header announces. */
  lemma FeedSound(a: Assembly, p: Packet)
    requires Sound(a)
    ensures Sound(Feed(a, p).0)
    ensures Feed(a, p).1.Some? ==>
              var s := Feed(a, p).1.value;
              3 <= |s| <= CAPACITY && |s| == Announced(s)
  {
    hide Gather, Announced, Sound;
    SoundSize(a);
    assert Sound(EMPTY) by { EmptyIsSound(); }
    var offset := PayloadOffset(p);
    if offset < PACKET {
      var start := offset + 1 + p[offset] as nat;
      if p[1] & 0x40 != 0 && start <= PACKET {
        GatherSound(EMPTY, p[start..]);
      }
      GatherSound(a, p[offset..]);
    }
  }

  lemma GatherSound(a: Assembly, bytes: seq<Byte>)
    requires Sound(a)
    ensures Sound(Gather(a, bytes).0)
    ensures Gather(a, bytes).1.Some? ==>
              var s := Gather(a, bytes).1.value;
              3 <= |s| <= CAPACITY && |s| == Announced(s)
  {
  }

  /** What a run of packets leaves collected, and the sections it gave out. */
  ghost function FeedAll(a: Assembly, packets: seq<Packet>): (r: (Assembly, seq<Option<seq<Byte>>>))
    requires Sound(a)
    ensures Sound(r.0) && |r.1| == |packets|
    decreases |packets|
  {
    if packets == [] then (a, [])
    else
      FeedSound(a, packets[0]);
      var rest := FeedAll(Feed(a, packets[0]).0, packets[1..]);
      (rest.0, [Feed(a, packets[0]).1] + rest.1)
  }

  /* ---- the two together ---- */

  predicate IsSection(s: seq<Byte>) { 3 <= |s| <= 1024 && |s| == Announced(s) }

  /** How a sent packet looks to the assembler. */
  lemma PackedSeen(pid: bv16, counter: Byte, first: bool, chunk: seq<Byte>)
    requires |chunk| <= Room(first)
    ensures var p := PacketOf(pid, counter, first, chunk);
            && PayloadOffset(p) == 4
            && (p[1] & 0x40 != 0 <==> first)
            && (first ==> p[4] == 0 && p[5..] == chunk + Stuffing(183 - |chunk|))
            && (!first ==> p[4..] == chunk + Stuffing(184 - |chunk|))
            && p[3] == 0x10 | (counter & 0x0f)
  {
  }

  /** Bytes that start like a section announce its size. */
  lemma AnnouncedByPrefix(s: seq<Byte>, data: seq<Byte>, end: nat)
    requires 3 <= end <= |s| && end <= |data| && data[..end] == s[..end]
    ensures Announced(data) == Announced(s)
  {
    assert data[1] == data[..end][1] == s[1] && data[2] == data[..end][2] == s[2];
  }

  /** Collecting the next piece of a section, with the stuffing behind its last one. */
  lemma GatherPiece(s: seq<Byte>, used: nat, end: nat, fill: nat)
    requires IsSection(s) && used < end <= |s| && end >= 3
    requires fill > 0 ==> end == |s|
    ensures var a := if used == 0 then EMPTY else Assembly(s[..used], |s|);
            var r := Gather(a, s[used..end] + Stuffing(fill));
            if end == |s| then r == (EMPTY, Some(s)) else r == (Assembly(s[..end], |s|), None)
  {
    hide Announced, Stuffing;
    var a := if used == 0 then EMPTY else Assembly(s[..used], |s|);
    var bytes := s[used..end] + Stuffing(fill);
    var take := if |a.data| + |bytes| > CAPACITY then CAPACITY - |a.data| else |bytes|;
    var data := a.data + bytes[..take];
    PrefixOfPiece(s, used, end, a.data, Stuffing(fill), take);
    AnnouncedByPrefix(s, data, end);
    assert s[..|s|] == s;
    assert end < |s| ==> data[..end] == data;
  }

  lemma PrefixOfPiece(s: seq<Byte>, used: nat, end: nat, start: seq<Byte>, tail: seq<Byte>, take: nat)
    requires used < end <= |s| && start == s[..used] && end - used <= take <= end - used + |tail|
    ensures (start + (s[used..end] + tail)[..take])[..end] == s[..end]
  {
    assert s[..end] == s[..used] + s[used..end];
  }

  /** One packet of a section, whatever was collected before its first. */
  lemma FeedPiece(a: Assembly, s: seq<Byte>, used: nat, pid: bv16, counter: Byte)
    requires IsSection(s) && used < |s|
    requires if used == 0 then Sound(a) else a == Assembly(s[..used], |s|) && used >= 183
    ensures var end := ChunkEnd(s, used);
            var r := Feed(a, PacketOf(pid, counter, used == 0, s[used..end]));
            if end == |s| then r == (EMPTY, Some(s)) else r == (Assembly(s[..end], |s|), None) && end >= 183
  {
    hide Gather, PacketOf, Stuffing;
    var end := ChunkEnd(s, used);
    PackedSeen(pid, counter, used == 0, s[used..end]);
    GatherPiece(s, used, end, Room(used == 0) - (end - used));
  }

  ghost function OnlyLast(n: nat, s: seq<Byte>): seq<Option<seq<Byte>>>
    requires n > 0
  {
    seq(n - 1, _ => None) + [Some(s)]
  }

  lemma {:induction false} FeedRest(a: Assembly, s: seq<Byte>, used: nat, pid: bv16, counter: Byte)
    requires IsSection(s) && used < |s| && Sound(a)
    requires used > 0 ==> a == Assembly(s[..used], |s|) && used >= 183
    ensures var packets := Packets(s, used, pid, counter);
            |packets| > 0 && FeedAll(a, packets).0 == EMPTY && FeedAll(a, packets).1 == OnlyLast(|packets|, s)
    decreases |s| - used
  {
    hide Feed, PacketOf, ChunkEnd, IsSection;
    var end := ChunkEnd(s, used);
    var packets := Packets(s, used, pid, counter);
    var p := PacketOf(pid, counter, used == 0, s[used..end]);
    FeedPiece(a, s, used, pid, counter);
    FeedSound(a, p);
    assert packets[0] == p && packets[1..] == Packets(s, end, pid, NextCounter(counter));
    assert FeedAll(a, packets).0 == FeedAll(Feed(a, p).0, packets[1..]).0;
    assert FeedAll(a, packets).1 == [Feed(a, p).1] + FeedAll(Feed(a, p).0, packets[1..]).1;
    if end == |s| {
      assert packets[1..] == [] && OnlyLast(1, s) == [Some(s)];
    } else {
      FeedRest(Assembly(s[..end], |s|), s, end, pid, NextCounter(counter));
      assert OnlyLast(|packets|, s) == [None] + OnlyLast(|packets| - 1, s);
    }
  }

  /** A section sent as packets comes out of any assembler, with its last packet and not before. */
  lemma SectionArrives(a: Assembly, s: seq<Byte>, pid: bv16, counter: Byte)
    requires IsSection(s) && Sound(a)
    ensures var packets := Packets(s, 0, pid, counter);
            |packets| > 0 && FeedAll(a, packets).0 == EMPTY && FeedAll(a, packets).1 == OnlyLast(|packets|, s)
  {
    FeedRest(a, s, 0, pid, counter);
  }

  lemma {:induction false} FeedAllConcat(a: Assembly, x: seq<Packet>, y: seq<Packet>)
    requires Sound(a)
    ensures FeedAll(a, x + y).0 == FeedAll(FeedAll(a, x).0, y).0
    ensures FeedAll(a, x + y).1 == FeedAll(a, x).1 + FeedAll(FeedAll(a, x).0, y).1
    decreases |x|
  {
    hide Feed;
    if x == [] {
      assert x + y == y;
    } else {
      FeedSound(a, x[0]);
      assert (x + y)[0] == x[0] && (x + y)[1..] == x[1..] + y;
      FeedAllConcat(Feed(a, x[0]).0, x[1..], y);
    }
  }

  /** The counter after `n` packets. */
  function CounterAfter(counter: Byte, n: nat): Byte
    decreases n
  {
    if n == 0 then counter else NextCounter(CounterAfter(counter, n - 1))
  }

  /** The packets of several sections sent one after the other on a pid. */
  ghost function AllPackets(sections: seq<seq<Byte>>, pid: bv16, counter: Byte): seq<Packet> {
    if sections == [] then []
    else
      var first := Packets(sections[0], 0, pid, counter);
      first + AllPackets(sections[1..], pid, CounterAfter(counter, |first|))
  }

  ghost function Given(outputs: seq<Option<seq<Byte>>>): seq<seq<Byte>> {
    if outputs == [] then []
    else (if outputs[0].Some? then [outputs[0].value] else []) + Given(outputs[1..])
  }

  lemma {:induction false} GivenConcat(x: seq<Option<seq<Byte>>>, y: seq<Option<seq<Byte>>>)
    ensures Given(x + y) == Given(x) + Given(y)
  {
    if x == [] {
      assert x + y == y;
    } else {
      assert (x + y)[1..] == x[1..] + y && (x + y)[0] == x[0];
      GivenConcat(x[1..], y);
      Associative(if x[0].Some? then [x[0].value] else [], Given(x[1..]), Given(y));
    }
  }

  lemma {:induction false} GivenOnlyLast(n: nat, s: seq<Byte>)
    requires n > 0
    ensures Given(OnlyLast(n, s)) == [s]
  {
    if n > 1 {
      assert OnlyLast(n, s)[1..] == OnlyLast(n - 1, s);
      GivenOnlyLast(n - 1, s);
    } else {
      assert OnlyLast(n, s) == [Some(s)] && OnlyLast(n, s)[1..] == [];
    }
  }

  /** Any list of sections comes out again, in order and complete, whatever the assembler held. */
  lemma {:induction false} SectionsArrive(a: Assembly, sections: seq<seq<Byte>>, pid: bv16, counter: Byte)
    requires Sound(a)
    requires forall i :: 0 <= i < |sections| ==> IsSection(sections[i])
    ensures Given(FeedAll(a, AllPackets(sections, pid, counter)).1) == sections
    decreases |sections|
  {
    hide FeedAll, Sound, Packets, IsSection, OnlyLast;
    if sections == [] {
      NothingFed(a);
    } else {
      var s := sections[0];
      var first := Packets(s, 0, pid, counter);
      var next := CounterAfter(counter, |first|);
      SectionArrives(a, s, pid, counter);
      GivenOnlyLast(|first|, s);
      EmptyIsSound();
      FeedAllConcat(a, first, AllPackets(sections[1..], pid, next));
      SectionsArrive(EMPTY, sections[1..], pid, next);
      GivenConcat(FeedAll(a, first).1, FeedAll(EMPTY, AllPackets(sections[1..], pid, next)).1);
    }
  }

  lemma NothingFed(a: Assembly)
    requires Sound(a)
    ensures FeedAll(a, []).1 == []
  {
  }

  /* ---- packets of a broadcaster ---- */

  /** What a packet has of a section, behind the end of the one before if it starts one; its header and
      adaptation field are any. */
  datatype Piece = Piece(header: seq<Byte>, field: Option<seq<Byte>>, skipped: seq<Byte>, bytes: seq<Byte>)

  /** A packet in which a section starts says by the pointer field, a count of bytes, where; in another the
      payload is all piece. */
  ghost predicate Carries(p: Packet, piece: Piece, starts: bool) {
    && |piece.header| == 4 && (piece.header[1] & 0x40 != 0 <==> starts)
    && |piece.skipped| < 256 && (!starts ==> piece.skipped == [])
    && Holds(p, piece.header, piece.field,
             (if starts then [|piece.skipped| as Byte] else []) + piece.skipped + piece.bytes)
  }

  /** A packet in which a section starts, and those up to the next one of that kind. */
  ghost predicate CarriesGroup(packets: seq<Packet>, pieces: seq<Piece>) {
    && |packets| == |pieces| > 0
    && forall i :: 0 <= i < |packets| ==> Carries(packets[i], pieces[i], i == 0)
  }

  function BytesOf(pieces: seq<Piece>): seq<Byte> {
    if pieces == [] then [] else pieces[0].bytes + BytesOf(pieces[1..])
  }

  /** The section at the start of some bytes, if it is all there and not too long: its size is three and
      the twelve bits that follow the first twelve. */
  function FirstSection(bytes: seq<Byte>): seq<seq<Byte>> {
    if |bytes| < 3 then []
    else
      var size := 3 + (bytes[1] & 0x0f) as nat * 256 + bytes[2] as nat;
      if size <= 1024 && size <= |bytes| then [bytes[..size]] else []
  }

  /** What the bytes of a section's start leave collected while they decide nothing. */
  predicate Undecided(b: seq<Byte>) { |b| < 3 || |b| < Announced(b) <= CAPACITY }

  function Collected(b: seq<Byte>): Assembly { Assembly(b, if |b| < 3 then 0 else Announced(b)) }

  lemma AnnouncedMore(b: seq<Byte>, more: seq<Byte>)
    requires |b| >= 3
    ensures Announced(b + more) == Announced(b)
  {
    assert (b + more)[1] == b[1] && (b + more)[2] == b[2];
  }

  lemma HeaderAnnounced(b: seq<Byte>)
    requires |b| >= 3
    ensures Announced(b) >= 3
  {
  }

  lemma FirstSectionIs(b: seq<Byte>)
    ensures FirstSection(b) == if |b| >= 3 && Announced(b) <= CAPACITY && Announced(b) <= |b| then [b[..Announced(b)]]
                               else []
  {
  }

  lemma FirstSectionMore(b: seq<Byte>, more: seq<Byte>)
    requires !Undecided(b)
    ensures FirstSection(b + more) == FirstSection(b)
  {
    hide Announced, FirstSection;
    AnnouncedMore(b, more);
    FirstSectionIs(b);
    FirstSectionIs(b + more);
    assert Announced(b) <= |b| ==> (b + more)[..Announced(b)] == b[..Announced(b)];
  }

  /** More bytes either decide what comes out, or are collected. */
  lemma GatherMore(b: seq<Byte>, bytes: seq<Byte>)
    requires Undecided(b) && bytes != []
    ensures |b| < CAPACITY
    ensures var c := b + bytes;
            Gather(Collected(b), bytes) ==
              if Undecided(c) then (Collected(c), None)
              else (EMPTY, if FirstSection(c) == [] then None else Some(FirstSection(c)[0]))
  {
    hide Announced, FirstSection;
    var c, take := b + bytes, Fitting(Collected(b), bytes);
    var data := b + bytes[..take];
    assert bytes[..|bytes|] == bytes;
    assert data == c[..|data|] && c == data + c[|data|..];
    assert |c| <= CAPACITY ==> data == c;
    FirstSectionIs(c);
    if |b| >= 3 { AnnouncedMore(b, bytes); }
    if |data| >= 3 {
      AnnouncedMore(data, c[|data|..]);
      HeaderAnnounced(data);
      assert Announced(c) <= |data| ==> data[..Announced(c)] == c[..Announced(c)];
    }
  }

  /** A packet to the assembler: the payload is where the layout has it. */
  lemma FeedCarried(a: Assembly, p: Packet, piece: Piece, starts: bool)
    requires |a.data| < CAPACITY && Carries(p, piece, starts)
    ensures Feed(a, p) == if starts then Gather(EMPTY, piece.bytes)
                          else if a.data == [] then (a, None) else Gather(a, piece.bytes)
  {
    hide Gather, Holds, FieldBytes;
    StartFlag(p, piece, starts);
    if starts {
      StartFound(p, piece);
    } else {
      var payload: seq<Byte> := [];
      assert payload + piece.skipped + piece.bytes == piece.bytes;
      PayloadFound(p, piece.header, piece.field, piece.bytes);
      GatherNothing(a);
    }
  }

  lemma StartFlag(p: Packet, piece: Piece, starts: bool)
    requires Carries(p, piece, starts)
    ensures p[1] & 0x40 != 0 <==> starts
  {
    hide FieldBytes;
    assert p[1] == piece.header[1];
  }

  lemma StartFound(p: Packet, piece: Piece)
    requires Carries(p, piece, true)
    ensures var o := PayloadOffset(p);
            o < PACKET && var start := o + 1 + p[o] as nat; start <= PACKET && p[start..] == piece.bytes
  {
    hide Holds, FieldBytes;
    var n := |piece.skipped| as Byte;
    ByteOfNat(|piece.skipped|);
    PayloadFound(p, piece.header, piece.field, [n] + piece.skipped + piece.bytes);
    BehindPointer(p, PayloadOffset(p), n, piece.skipped, piece.bytes);
  }

  lemma BehindPointer(p: seq<Byte>, o: nat, n: Byte, skipped: seq<Byte>, bytes: seq<Byte>)
    requires o <= |p| && p[o..] == [n] + skipped + bytes
    ensures o < |p| && p[o] == n && o + 1 + |skipped| <= |p| && p[o + 1 + |skipped|..] == bytes
  {
    assert p[o] == p[o..][0];
    assert p[o + 1 + |skipped|..] == p[o..][1 + |skipped|..];
  }

  /** Packets that start no section, after one that did. */
  lemma {:induction false} RestGives(b: seq<Byte>, packets: seq<Packet>, pieces: seq<Piece>)
    requires Undecided(b) && b != [] && Sound(Collected(b)) && |packets| == |pieces|
    requires forall i :: 0 <= i < |packets| ==> Carries(packets[i], pieces[i], false)
    ensures Given(FeedAll(Collected(b), packets).1) == FirstSection(b + BytesOf(pieces))
    decreases |packets|
  {
    hide Carries, Feed, FirstSection, Collected, Gather, Sound, Undecided;
    if packets == [] {
      assert b + [] == b;
      NothingYet(b);
    } else {
      var p, bytes := packets[0], pieces[0].bytes;
      StillCollected(b);
      FeedSound(Collected(b), p);
      FeedCarried(Collected(b), p, pieces[0], false);
      Associative(b, bytes, BytesOf(pieces[1..]));
      if bytes == [] {
        GatherNothing(Collected(b));
        assert b + bytes == b;
        RestGives(b, packets[1..], pieces[1..]);
      } else {
        GatherMore(b, bytes);
        if Undecided(b + bytes) {
          RestGives(b + bytes, packets[1..], pieces[1..]);
        } else {
          FirstSectionMore(b + bytes, BytesOf(pieces[1..]));
          NothingMore(packets[1..], pieces[1..]);
          AtMostOne(b + bytes);
        }
      }
    }
  }

  lemma AtMostOne(b: seq<Byte>)
    ensures FirstSection(b) == [] || FirstSection(b) == [FirstSection(b)[0]]
  {
  }

  lemma NothingYet(b: seq<Byte>)
    requires Undecided(b)
    ensures FirstSection(b) == []
  {
    hide FirstSection;
    FirstSectionIs(b);
  }

  lemma StillCollected(b: seq<Byte>)
    ensures Collected(b).data == b
    ensures Undecided(b) ==> |b| < CAPACITY
  {
  }

  lemma GatherNothing(a: Assembly)
    requires |a.data| < CAPACITY
    ensures Gather(a, []) == (a, None)
  {
  }

  /** An assembler that has given its section out waits for the next one to start. */
  lemma {:induction false} NothingMore(packets: seq<Packet>, pieces: seq<Piece>)
    requires |packets| == |pieces| && forall i :: 0 <= i < |packets| ==> Carries(packets[i], pieces[i], false)
    ensures Sound(EMPTY) && Given(FeedAll(EMPTY, packets).1) == []
    decreases |packets|
  {
    hide Carries, Feed, Sound;
    EmptyIsSound();
    if packets != [] {
      FeedSound(EMPTY, packets[0]);
      FeedCarried(EMPTY, packets[0], pieces[0], false);
      NothingMore(packets[1..], pieces[1..]);
    }
  }

  /** Of every group of packets exactly the section that starts first in it comes out, if it ends in the
      group: one that ends in the packet in which the next one starts is lost, and so is one that starts
      behind another in a packet. */
  lemma GroupGives(a: Assembly, packets: seq<Packet>, pieces: seq<Piece>)
    requires Sound(a) && CarriesGroup(packets, pieces)
    ensures Given(FeedAll(a, packets).1) == Heard(pieces)
  {
    hide Carries, Feed, FirstSection, Collected, Gather, Sound, Undecided;
    var p, bytes := packets[0], pieces[0].bytes;
    SoundSize(a);
    FeedSound(a, p);
    FeedCarried(a, p, pieces[0], true);
    EmptyIsSound();
    if bytes == [] {
      GatherNothing(EMPTY);
      NothingMore(packets[1..], pieces[1..]);
    } else {
      NothingCollected();
      GatherMore([], bytes);
      assert [] + bytes == bytes;
      if Undecided(bytes) {
        RestGives(bytes, packets[1..], pieces[1..]);
      } else {
        FirstSectionMore(bytes, BytesOf(pieces[1..]));
        NothingMore(packets[1..], pieces[1..]);
        AtMostOne(bytes);
      }
    }
  }

  lemma NothingCollected()
    ensures Collected([]) == EMPTY && Undecided([])
  {
  }

  /** What is heard of a group. */
  function Heard(pieces: seq<Piece>): seq<seq<Byte>>
    requires |pieces| > 0
  {
    if pieces[0].bytes == [] then [] else FirstSection(BytesOf(pieces))
  }

  ghost predicate CarriesAll(groups: seq<seq<Packet>>, pieces: seq<seq<Piece>>) {
    |groups| == |pieces| && forall i :: 0 <= i < |groups| ==> CarriesGroup(groups[i], pieces[i])
  }

  function AllOf(groups: seq<seq<Packet>>): seq<Packet> {
    if groups == [] then [] else groups[0] + AllOf(groups[1..])
  }

  ghost function AllHeard(pieces: seq<seq<Piece>>): seq<seq<Byte>>
    requires forall i :: 0 <= i < |pieces| ==> |pieces[i]| > 0
  {
    if pieces == [] then [] else Heard(pieces[0]) + AllHeard(pieces[1..])
  }

  /** And so over any broadcast, whatever the assembler held. */
  lemma {:induction false} BroadcastGives(a: Assembly, groups: seq<seq<Packet>>, pieces: seq<seq<Piece>>)
    requires Sound(a) && CarriesAll(groups, pieces)
    ensures Given(FeedAll(a, AllOf(groups)).1) == AllHeard(pieces)
    decreases |groups|
  {
    hide Carries, FeedAll, Sound, Heard;
    if groups == [] {
      NothingFed(a);
    } else {
      FeedAllConcat(a, groups[0], AllOf(groups[1..]));
      GroupGives(a, groups[0], pieces[0]);
      BroadcastGives(FeedAll(a, groups[0]).0, groups[1..], pieces[1..]);
      GivenConcat(FeedAll(a, groups[0]).1, FeedAll(FeedAll(a, groups[0]).0, AllOf(groups[1..])).1);
    }
  }

  /* ---- continuity ---- */

  lemma NextCounterIsModulo(counter: Byte)
    ensures NextCounter(counter) < 16
    ensures NextCounter(counter) as nat == (counter as nat + 1) % 16
  {
  }

  lemma {:induction false} CounterIsModulo(counter: Byte, n: nat)
    requires counter < 16
    ensures CounterAfter(counter, n) < 16
    ensures CounterAfter(counter, n) as nat == (counter as nat + n) % 16
  {
    hide NextCounter;
    if n > 0 {
      CounterIsModulo(counter, n - 1);
      NextCounterIsModulo(CounterAfter(counter, n - 1));
      ModuloSteps(counter as nat + n - 1);
    } else {
      SmallIsItself(counter);
    }
  }

  lemma ModuloSteps(x: nat)
    ensures (x % 16 + 1) % 16 == (x + 1) % 16
  {
  }

  lemma SmallIsItself(counter: Byte)
    requires counter < 16
    ensures counter as nat == (counter as nat + 0) % 16
  {
  }

  lemma {:induction false} CounterAfterMore(counter: Byte, m: nat, n: nat)
    ensures CounterAfter(counter, m + n) == CounterAfter(CounterAfter(counter, m), n)
    decreases n
  {
    if n > 0 {
      CounterAfterMore(counter, m, n - 1);
    }
  }

  predicate OnPid(p: Packet, pid: bv16, counter: Byte) {
    && p[0] == 0x47 && p[1] & 0x1f == ((pid >> 8) & 0x1f) as Byte && p[2] == (pid & 0xff) as Byte
    && p[3] == 0x10 | (counter & 0x0f)
  }

  lemma PackedOnPid(pid: bv16, counter: Byte, first: bool, chunk: seq<Byte>)
    requires |chunk| <= Room(first)
    ensures OnPid(PacketOf(pid, counter, first, chunk), pid, counter)
  {
  }

  lemma {:induction false} PacketsCounted(s: seq<Byte>, used: nat, pid: bv16, counter: Byte)
    requires used <= |s|
    ensures var packets := Packets(s, used, pid, counter);
            forall i :: 0 <= i < |packets| ==> OnPid(packets[i], pid, CounterAfter(counter, i))
    decreases |s| - used
  {
    hide OnPid, NextCounter, PacketOf, ChunkEnd;
    if used < |s| {
      var end := ChunkEnd(s, used);
      var packets := Packets(s, used, pid, counter);
      PackedOnPid(pid, counter, used == 0, s[used..end]);
      PacketsCounted(s, end, pid, NextCounter(counter));
      forall i | 0 <= i < |packets|
        ensures OnPid(packets[i], pid, CounterAfter(counter, i))
      {
        if i > 0 {
          CounterAfterMore(counter, 1, i - 1);
          assert CounterAfter(counter, 1) == NextCounter(CounterAfter(counter, 0)) == NextCounter(counter);
          assert packets[i] == Packets(s, end, pid, NextCounter(counter))[i - 1];
        }
      }
    }
  }

  /** The continuity counter runs on, modulo 16, over any sequence of sections on a pid. */
  lemma {:induction false} ContinuityRuns(sections: seq<seq<Byte>>, pid: bv16, counter: Byte)
    ensures var packets := AllPackets(sections, pid, counter);
            forall i :: 0 <= i < |packets| ==> OnPid(packets[i], pid, CounterAfter(counter, i))
    decreases |sections|
  {
    hide OnPid, CounterAfter, Packets;
    if sections != [] {
      var first := Packets(sections[0], 0, pid, counter);
      var next := CounterAfter(counter, |first|);
      PacketsCounted(sections[0], 0, pid, counter);
      ContinuityRuns(sections[1..], pid, next);
      var packets := AllPackets(sections, pid, counter);
      forall i | |first| <= i < |packets|
        ensures OnPid(packets[i], pid, CounterAfter(counter, i))
      {
        CounterAfterMore(counter, |first|, i - |first|);
        assert packets[i] == AllPackets(sections[1..], pid, next)[i - |first|];
      }
    }
  }

  /* ---- the assembler ---- */

  class Assembler {
    const data: array<Byte>
    var length: nat
    var expected: nat

    ghost predicate Valid()
      reads this, data
    {
      data.Length == CAPACITY && length < CAPACITY && Sound(Collected())
    }

    ghost function Collected(): Assembly
      requires length <= data.Length
      reads this, data
    {
      Assembly(data[..length], expected)
    }

    constructor ()
      ensures Valid() && Collected() == EMPTY && fresh(data)
    {
      data := new Byte[CAPACITY](_ => 0);
      length, expected := 0, 0;
    }

    /** Feeds one packet. A complete section is left at the start of the buffer until the next call. */
    method Assemble(packet: Packet) returns (complete: bool, size: nat)
      requires Valid()
      modifies this, data
      ensures Valid() && size <= CAPACITY
      ensures Collected() == Feed(old(Collected()), packet).0
      ensures complete <==> Feed(old(Collected()), packet).1.Some?
      ensures complete ==> data[..size] == Feed(old(Collected()), packet).1.value
    {
      hide Gather, Sound;
      FeedSound(Collected(), packet);
      complete, size := false, 0;
      var offset := FindPayload(packet);
      if offset >= PACKET {
        return;
      }
      if packet[1] & 0x40 != 0 {
        var pointer := packet[offset] as nat;
        offset := offset + 1;
        if offset + pointer > PACKET {
          return;
        }
        offset := offset + pointer;
        length, expected := 0, 0;
        assert data[..0] == [];
        EmptyIsSound();
      } else if length == 0 {
        return;
      }
      complete, size := Collect(packet[offset..]);
    }

    /** The part of Assemble after the payload was found. */
    method Collect(bytes: seq<Byte>) returns (complete: bool, size: nat)
      requires data.Length == CAPACITY && length < CAPACITY && Sound(Collected())
      modifies this, data
      ensures length < CAPACITY && size <= CAPACITY
      ensures Collected() == Gather(old(Collected()), bytes).0
      ensures complete <==> Gather(old(Collected()), bytes).1.Some?
      ensures complete ==> data[..size] == Gather(old(Collected()), bytes).1.value
    {
      hide Sound, Splice, Deliver, Announced;
      complete, size := false, 0;
      if |bytes| == 0 {
        return;
      }
      ghost var before := Collected();
      SoundSize(before);
      GatherSound(before, bytes);
      SoundSize(Gather(before, bytes).0);
      var take := |bytes|;
      if length + take > CAPACITY {
        take := CAPACITY - length;
      }
      // The buffer is never full here, so the source's reset for that case is not reached.
      assert take != 0;
      SpliceParts(data[..], length, bytes[..take]);
      Write(data, length, bytes[..take]);
      assert data[..][..length + take] == before.data + bytes[..take];
      length := length + take;
      assert Collected() == Assembly(before.data + bytes[..take], before.expected);
      complete, size := Finish();
    }

    method Finish() returns (complete: bool, size: nat)
      requires data.Length == CAPACITY && length <= CAPACITY && expected <= CAPACITY
      modifies this
      ensures length <= CAPACITY && size <= CAPACITY
      ensures Collected() == Deliver(old(Collected())).0
      ensures complete <==> Deliver(old(Collected())).1.Some?
      ensures complete ==> data[..size] == Deliver(old(Collected())).1.value
    {
      hide Announced;
      complete, size := false, 0;
      assert data[..0] == [];
      if expected == 0 && length >= 3 {
        expected := Announced(data[..length]);
        if expected > CAPACITY {
          length, expected := 0, 0;
          return;
        }
      }
      if expected != 0 && length >= expected {
        complete, size := true, expected;
        assert data[..size] == data[..length][..size];
        length, expected := 0, 0;
      }
    }
  }

  /* ---- the writer ---- */

  function Flat(parts: seq<seq<Byte>>): seq<Byte> {
    if parts == [] then [] else Flat(parts[..|parts| - 1]) + parts[|parts| - 1]
  }

  lemma FlatMore(parts: seq<seq<Byte>>, part: seq<Byte>)
    ensures Flat(parts + [part]) == Flat(parts) + part
  {
    assert (parts + [part])[..|parts|] == parts;
  }

  /** The datagram being filled, and a socket: the datagrams handed to it so far. Which sends fail is
      up to the network. */
  class Writer {
    const datagram: array<Byte>
    var size: nat
    var packets: nat
    var sent: seq<seq<Byte>>
    const fails: nat -> bool
    /** A second port that gets the same datagrams, whether they arrive there or not. */
    const hasAlt: bool
    var sentAlt: seq<seq<Byte>>

    ghost predicate Valid()
      reads this
    {
      datagram.Length == DATAGRAM && size < DATAGRAM && size % PACKET == 0 && Mirrored()
    }

    ghost predicate Mirrored()
      reads `sent, `sentAlt
    {
      sentAlt == if hasAlt then sent else []
    }

    /** Everything written, in order: the datagrams and what waits in the buffer. */
    ghost function Stream(): seq<Byte>
      requires size <= datagram.Length
      reads this, datagram
    {
      Flat(sent) + datagram[..size]
    }

    constructor (network: nat -> bool, alt: bool)
      ensures Valid() && Stream() == [] && sent == [] && packets == 0 && fresh(datagram) && fails == network &&
          hasAlt == alt
    {
      datagram := new Byte[DATAGRAM](_ => 0);
      size, packets, sent, fails, hasAlt, sentAlt := 0, 0, [], network, alt, [];
    }

    /** Hands over what waits, full or not. */
    method Flush() returns (rc: int)
      requires datagram.Length == DATAGRAM && size <= DATAGRAM && Mirrored()
      modifies `size, `sent, `sentAlt
      ensures size == 0 && Stream() == old(Stream()) && Mirrored()
      ensures old(size) == 0 ==> sent == old(sent) && rc == 0
      ensures old(size) > 0 ==> sent == old(sent) + [old(datagram[..size])]
      ensures rc == if old(size) > 0 && fails(|old(sent)|) then -1 else 0
    {
      rc := 0;
      if size == 0 {
        return;
      }
      FlatMore(sent, datagram[..size]);
      if fails(|sent|) {
        rc := -1;
      }
      sent := sent + [datagram[..size]];
      // The second port is best effort: its failures are not looked at.
      if hasAlt {
        sentAlt := sentAlt + [datagram[..size]];
      }
      size := 0;
    }

    /** Seven packets make a datagram. */
    method SendPacket(packet: Packet) returns (rc: int)
      requires Valid()
      modifies this, datagram
      ensures Valid() && packets == old(packets) + 1
      ensures Stream() == old(Stream()) + packet
      ensures if old(size) == 6 * 188
              then size == 0 && |sent| == |old(sent)| + 1 && |sent[|old(sent)|]| == 7 * 188 &&
                  sent[..|old(sent)|] == old(sent)
              else size == old(size) + PACKET && sent == old(sent)
      ensures rc == if |sent| > |old(sent)| && fails(|old(sent)|) then -1 else 0
    {
      SpliceParts(datagram[..], size, packet);
      Write(datagram, size, packet);
      assert datagram[..][..size + PACKET] == old(datagram[..size]) + packet;
      size := size + PACKET;
      packets := packets + 1;
      rc := 0;
      if size == DATAGRAM {
        rc := Flush();
      }
    }

    /** Sends a section packet by packet until a datagram fails; `n` packets were written. */
    method SendSection(pid: bv16, counter: Byte, section: seq<Byte>) returns (rc: int, next: Byte, ghost n: nat)
      requires Valid()
      modifies this, datagram
      ensures Valid()
      ensures n <= |Packets(section, 0, pid, counter)| && packets == old(packets) + n
      ensures Stream() == old(Stream()) + Flat(Packets(section, 0, pid, counter)[..n])
      ensures next == CounterAfter(counter, n)
      ensures |sent| >= |old(sent)|
      ensures rc == 0 ==> n == |Packets(section, 0, pid, counter)|
      ensures rc == 0 <==> forall k :: |old(sent)| <= k < |sent| ==> !fails(k)
      ensures rc != 0 ==> rc == -1 && n > 0 && size == 0 && |sent| > |old(sent)|
      ensures rc != 0 ==> forall k :: |old(sent)| <= k < |sent| - 1 ==> !fails(k)
    {
      hide Flat, ChunkEnd, PacketOf, NextCounter, Packets;
      NoPackets(section, pid, counter);
      var used, first := 0, true;
      next, n := counter, 0;
      ghost var all := Packets(section, 0, pid, counter);
      NoneFlat();
      while used < |section|
        invariant used <= |section| && first == (used == 0)
        invariant Valid() && n <= |all| && packets == old(packets) + n
        invariant all[n..] == Packets(section, used, pid, next)
        invariant Stream() == old(Stream()) + Flat(all[..n])
        invariant next == CounterAfter(counter, n)
        invariant |sent| >= |old(sent)|
        invariant forall k :: |old(sent)| <= k < |sent| ==> !fails(k)
        decreases |section| - used
      {
        var packet, chunk := BuildPacket(pid, next, section, used);
        NextPacket(all, n, section, used, pid, next);
        next := NextCounter(next);
        rc := SendPacket(packet);
        n := n + 1;
        if rc != 0 {
          return;
        }
        used := used + chunk;
        first := false;
      }
      rc := 0;
      NoPackets(section, pid, next);
      assert all[..n] == all;
    }
  }

  /** The next packet of a section, seen from all of them. */
  lemma NextPacket(all: seq<Packet>, n: nat, section: seq<Byte>, used: nat, pid: bv16, counter: Byte)
    requires n <= |all| && used < |section| && all[n..] == Packets(section, used, pid, counter)
    ensures n < |all|
    ensures var end := ChunkEnd(section, used);
            && all[n] == PacketOf(pid, counter, used == 0, section[used..end])
            && all[n + 1..] == Packets(section, end, pid, NextCounter(counter))
            && Flat(all[..n + 1]) == Flat(all[..n]) + all[n]
  {
    hide ChunkEnd, PacketOf, Flat;
    FlatMore(all[..n], all[n]);
    assert all[..n + 1] == all[..n] + [all[n]];
    assert all[n] == all[n..][0] && all[n + 1..] == all[n..][1..];
  }

  lemma NoPackets(section: seq<Byte>, pid: bv16, counter: Byte)
    ensures Packets(section, |section|, pid, counter) == []
  {
  }

  lemma NoneFlat()
    ensures Flat([]) == []
  {
  }

  /** The packet buffer: stuffing everywhere, then the header and the piece over it. */
  method BuildPacket(pid: bv16, counter: Byte, section: seq<Byte>, used: nat) returns (packet: Packet, chunk: nat)
    requires used < |section|
    ensures chunk == ChunkEnd(section, used) - used
    ensures packet == PacketOf(pid, counter, used == 0, section[used..ChunkEnd(section, used)])
  {
    var first := used == 0;
    var payloadOffset := if first then 5 else 4;
    var capacity := PACKET - payloadOffset;
    chunk := |section| - used;
    if chunk > capacity {
      chunk := capacity;
    }
    var buffer := NewPacket(pid, counter, first);
    hide Splice, Header;
    ghost var blank, piece := buffer[..], section[used..used + chunk];
    assert blank[payloadOffset + chunk..] == Stuffing(capacity - chunk);
    SpliceParts(blank, payloadOffset, piece);
    Write(buffer, payloadOffset, section[used..used + chunk]);
    packet := buffer[..];
    ThreeParts(packet, payloadOffset, payloadOffset + chunk);
  }

  /** Stuffing with the header over it. */
  method NewPacket(pid: bv16, counter: Byte, first: bool) returns (buffer: array<Byte>)
    ensures fresh(buffer) && buffer.Length == PACKET
    ensures buffer[..if first then 5 else 4] == Header(pid, counter, first)
    ensures forall k :: (if first then 5 else 4) <= k < PACKET ==> buffer[k] == 0xff
  {
    hide Header;
    buffer := new Byte[PACKET](_ => 0xff);
    buffer[0] := 0x47;
    buffer[1] := ((pid >> 8) & 0x1f) as Byte;
    if first {
      buffer[1] := buffer[1] | 0x40;
    }
    buffer[2] := (pid & 0xff) as Byte;
    buffer[3] := 0x10 | (counter & 0x0f);
    if first {
      buffer[4] := 0;
    }
    HeaderBytes(buffer[..], pid, counter, first);
  }

  lemma HeaderBytes(packet: Packet, pid: bv16, counter: Byte, first: bool)
    requires packet[0] == 0x47 && packet[2] == (pid & 0xff) as Byte && packet[3] == 0x10 | (counter & 0x0f)
    requires packet[1] == (((pid >> 8) & 0x1f) as Byte) | (if first then 0x40 else 0)
    requires first ==> packet[4] == 0
    ensures packet[..if first then 5 else 4] == Header(pid, counter, first)
  {
  }
}
