/** Rewriting a program map table for the player, engine/ts_udp.c: the table of ISO/IEC 13818-1
    section 2.4.4.8, without its CA descriptors while the stream is descrambled. */
module PmtRewrite {
  import opened Bytes
  import opened Buffers
  import opened Wire
  import opened Wrappers
  import Crc
  import Psi

  const CAPACITY := Psi.CAPACITY
  const MAX_PIDS := 32
  const CA: Byte := 0x09

  /* ---- descriptor loops ---- */

  type Body = b: seq<Byte> | |b| < 256

  datatype Descriptor = Descriptor(tag: Byte, body: Body)

  function EncodeOne(d: Descriptor): (r: seq<Byte>)
    ensures |r| == 2 + |d.body|
  {
    [d.tag, |d.body| as Byte] + d.body
  }

  function EncodeLoop(ds: seq<Descriptor>): seq<Byte> {
    if ds == [] then [] else EncodeOne(ds[0]) + EncodeLoop(ds[1..])
  }

  function FirstOf(bytes: seq<Byte>): Descriptor
    requires |bytes| >= 2 && 2 + bytes[1] as nat <= |bytes|
  {
    ByteBound(bytes[1]);
    Descriptor(bytes[0], bytes[2..2 + bytes[1] as nat])
  }

  /** The whole descriptors at the start of some bytes; what does not make one is left. */
  function ParseLoop(bytes: seq<Byte>): seq<Descriptor> {
    if |bytes| < 2 then []
    else
      var n := 2 + bytes[1] as nat;
      if n > |bytes| then []
      else [FirstOf(bytes)] + ParseLoop(bytes[n..])
  }

  function WithoutCa(ds: seq<Descriptor>): (r: seq<Descriptor>) {
    if ds == [] then []
    else (if ds[0].tag == CA then [] else [ds[0]]) + WithoutCa(ds[1..])
  }

  /** What is kept of a descriptor loop. */
  function Kept(info: seq<Byte>, strip: bool): seq<Byte> {
    EncodeLoop(if strip then WithoutCa(ParseLoop(info)) else ParseLoop(info))
  }

  /** What is kept of a stream's loop, which is copied as it is unless it is to be stripped. */
  function StreamKept(info: seq<Byte>, strip: bool): seq<Byte> {
    if strip then Kept(info, true) else info
  }

  lemma ParseOne(d: Descriptor, more: seq<Byte>)
    ensures ParseLoop(EncodeOne(d) + more) == [d] + ParseLoop(more)
  {
    var bytes := EncodeOne(d) + more;
    ByteOfNat(|d.body|);
    assert bytes[2..2 + |d.body|] == d.body && bytes[2 + |d.body|..] == more;
  }

  lemma {:induction false} ParseOfEncoded(ds: seq<Descriptor>)
    ensures ParseLoop(EncodeLoop(ds)) == ds
  {
    if ds != [] {
      ParseOfEncoded(ds[1..]);
      ParseOne(ds[0], EncodeLoop(ds[1..]));
    }
  }

  lemma {:induction false} WithoutCaTwice(ds: seq<Descriptor>)
    ensures WithoutCa(WithoutCa(ds)) == WithoutCa(ds)
  {
    if ds != [] {
      WithoutCaTwice(ds[1..]);
      var rest := WithoutCa(ds[1..]);
      assert WithoutCa(ds) == if ds[0].tag == CA then rest else [ds[0]] + rest;
      assert ([ds[0]] + rest)[1..] == rest;
    }
  }

  lemma {:induction false} KeptIsShorter(bytes: seq<Byte>, strip: bool)
    ensures |Kept(bytes, strip)| <= |bytes|
    decreases |bytes|
  {
    if |bytes| >= 2 && 2 + bytes[1] as nat <= |bytes| {
      var n := 2 + bytes[1] as nat;
      KeptIsShorter(bytes[n..], strip);
      KeptStep(bytes, strip);
    }
  }

  /** The first descriptor is kept, or not, and the rest follows. */
  lemma KeptStep(bytes: seq<Byte>, strip: bool)
    requires |bytes| >= 2 && 2 + bytes[1] as nat <= |bytes|
    ensures var n := 2 + bytes[1] as nat;
            Kept(bytes, strip) == (if strip && bytes[0] == CA then [] else bytes[..n]) + Kept(bytes[n..], strip)
  {
    hide ParseLoop, WithoutCa, EncodeLoop, EncodeOne;
    var n := 2 + bytes[1] as nat;
    var d, rest := FirstOf(bytes), ParseLoop(bytes[n..]);
    FirstEncoded(bytes);
    FirstParsed(bytes);
    EncodedFirst(d, rest);
    EncodedFirst(d, WithoutCa(rest));
    WithoutCaFirst(d, rest);
    assert [] + Kept(bytes[n..], strip) == Kept(bytes[n..], strip);
  }

  lemma FirstEncoded(bytes: seq<Byte>)
    requires |bytes| >= 2 && 2 + bytes[1] as nat <= |bytes|
    ensures EncodeOne(FirstOf(bytes)) == bytes[..2 + bytes[1] as nat]
  {
    var size, n := bytes[1] as nat, 2 + bytes[1] as nat;
    ByteBack(bytes[1]);
    ByteBound(bytes[1]);
    assert |bytes[2..n]| == size;
    assert bytes[..n] == [bytes[0], bytes[1]] + bytes[2..n];
  }

  lemma FirstParsed(bytes: seq<Byte>)
    requires |bytes| >= 2 && 2 + bytes[1] as nat <= |bytes|
    ensures ParseLoop(bytes) == [FirstOf(bytes)] + ParseLoop(bytes[2 + bytes[1] as nat..])
  {
    hide FirstOf;
  }

  lemma EncodedFirst(d: Descriptor, rest: seq<Descriptor>)
    ensures EncodeLoop([d] + rest) == EncodeOne(d) + EncodeLoop(rest)
  {
    assert ([d] + rest)[1..] == rest;
  }

  lemma WithoutCaFirst(d: Descriptor, rest: seq<Descriptor>)
    ensures WithoutCa([d] + rest) == if d.tag == CA then WithoutCa(rest) else [d] + WithoutCa(rest)
  {
    assert ([d] + rest)[1..] == rest;
    assert [] + WithoutCa(rest) == WithoutCa(rest);
  }

  /** Keeping what was kept changes nothing, unless CA descriptors are only now taken out. */
  lemma KeptTwice(info: seq<Byte>, first: bool, then_: bool)
    requires then_ ==> first
    ensures Kept(Kept(info, first), then_) == Kept(info, first)
  {
    ParseOfEncoded(ParseLoop(info));
    ParseOfEncoded(WithoutCa(ParseLoop(info)));
    WithoutCaTwice(ParseLoop(info));
  }

  /* ---- stream entries ---- */

  /** One entry of the table: a stream type, a pid with its reserved bits, the four bits before the
      length, and a descriptor loop. */
  datatype Entry = Entry(kind: Byte, pidHi: Byte, pidLo: Byte, flags: Byte, info: seq<Byte>)
  {
    predicate Fine() { |info| < 4096 && flags & 0x0f == 0 }

    function Pid(): nat { Word(pidHi & 0x1f, pidLo) }

    /** Teletext is private data with a teletext descriptor in its loop. */
    predicate IsTeletext() { kind == 0x06 && HasTeletext(ParseLoop(info)) }
  }

  predicate HasTeletext(ds: seq<Descriptor>) {
    exists k :: 0 <= k < |ds| && (ds[k].tag == 0x56 || ds[k].tag == 0x46)
  }

  function EncodeEntry(e: Entry): (r: seq<Byte>)
    requires |e.info| < 4096
    ensures |r| == 5 + |e.info|
  {
    [e.kind, e.pidHi, e.pidLo, LengthHi(e.flags, |e.info|), Lo(|e.info|)] + e.info
  }

  predicate AllFine(entries: seq<Entry>) {
    forall i :: 0 <= i < |entries| ==> entries[i].Fine()
  }

  function EncodeEntries(entries: seq<Entry>): seq<Byte>
    requires AllFine(entries)
  {
    if entries == [] then [] else EncodeEntry(entries[0]) + EncodeEntries(entries[1..])
  }

  function EntrySize(bytes: seq<Byte>): (n: nat)
    requires |bytes| >= 5
    ensures n >= 5
  {
    5 + SectionLength(bytes[3], bytes[4])
  }

  function EntryOf(bytes: seq<Byte>): (e: Entry)
    requires |bytes| >= 5 && EntrySize(bytes) <= |bytes|
  {
    Entry(bytes[0], bytes[1], bytes[2], bytes[3] & 0xf0, bytes[5..EntrySize(bytes)])
  }

  /** The entries of a table, none if one of them runs past its end; fewer than five bytes at the end
      are left. */
  function ParseEntries(bytes: seq<Byte>): Option<seq<Entry>> {
    if |bytes| < 5 then Some([])
    else if EntrySize(bytes) > |bytes| then None
    else
      var rest := ParseEntries(bytes[EntrySize(bytes)..]);
      if rest.None? then None else Some([EntryOf(bytes)] + rest.value)
  }

  lemma EntryOfFine(bytes: seq<Byte>)
    requires |bytes| >= 5 && EntrySize(bytes) <= |bytes|
    ensures EntryOf(bytes).Fine() && EncodeEntry(EntryOf(bytes)) == bytes[..EntrySize(bytes)]
  {
    hide SectionLength, LengthHi, Lo;
    var n := EntrySize(bytes);
    LengthRecovered(bytes[3], bytes[4], SectionLength(bytes[3], bytes[4]));
    HighNibble(bytes[3], SectionLength(bytes[3], bytes[4]));
    assert bytes[..n] == [bytes[0], bytes[1], bytes[2], bytes[3], bytes[4]] + bytes[5..n];
  }

  lemma HighNibble(b: Byte, n: nat)
    requires n < 4096
    ensures (b & 0xf0) & 0x0f == 0 && (b & 0xf0) & 0xf0 == b & 0xf0
    ensures LengthHi(b & 0xf0, n) == LengthHi(b, n)
  {
  }

  lemma ParseEntry(e: Entry, more: seq<Byte>)
    requires e.Fine()
    ensures var bytes := EncodeEntry(e) + more;
            EntrySize(bytes) == 5 + |e.info| && EntryOf(bytes) == e && bytes[EntrySize(bytes)..] == more
  {
    var bytes := EncodeEntry(e) + more;
    SectionLengthOfEncoded(e.flags, |e.info|);
    NibbleOfNat(|e.info| / 256);
    NibbleUnderFlags(e.flags, (|e.info| / 256) as Byte);
    OnlyHigh(e.flags);
    assert bytes[5..5 + |e.info|] == e.info;
    assert bytes[5 + |e.info|..] == more;
  }

  lemma OnlyHigh(b: Byte)
    requires b & 0x0f == 0
    ensures b & 0xf0 == b
  {
  }

  lemma {:induction false} ParseOfEntries(entries: seq<Entry>)
    requires AllFine(entries)
    ensures ParseEntries(EncodeEntries(entries)) == Some(entries)
  {
    hide EncodeEntry;
    if entries != [] {
      ParseOfEntries(entries[1..]);
      ParseEntry(entries[0], EncodeEntries(entries[1..]));
      assert [entries[0]] + entries[1..] == entries;
    }
  }

  /* ---- the table ---- */

  /** A program map table: ten bytes up to the PCR pid, the four bits before the length of the program's
      descriptor loop, that loop, and the streams. The length field among the ten bytes and the trailing
      CRC are not part of what it says. */
  datatype Table = Table(head: seq<Byte>, flags: Byte, info: seq<Byte>, entries: seq<Entry>) {
    predicate Fine() {
      && |head| == 10 && head[0] == 0x02 && head[1] & 0x0f == 0 && head[2] == 0
      && flags & 0x0f == 0 && |info| < 4096 && AllFine(entries)
    }
  }

  /** Everything between the table's first byte and its CRC, its length still to be filled in. */
  function Content(t: Table): (r: seq<Byte>)
    requires t.Fine()
    ensures |r| >= 12
  {
    t.head + [LengthHi(t.flags, |t.info|), Lo(|t.info|)] + t.info + EncodeEntries(t.entries)
  }

  /** The length written into the header, and the CRC behind. */
  function Seal(content: seq<Byte>): (r: seq<Byte>)
    requires 3 <= |content| < 4095
    ensures |r| == |content| + 4
  {
    var s := content[1 := LengthHi(content[1], |content| + 1)][2 := Lo(|content| + 1)];
    s + Crc.Bytes4(Crc.Crc(s))
  }

  /** Whether the twelve bits of the section length can tell the table's size. */
  predicate Encodable(t: Table)
    requires t.Fine()
  {
    |Content(t)| < 4095
  }

  function Encode(t: Table): (r: seq<Byte>)
    requires t.Fine() && Encodable(t)
    ensures |r| == |Content(t)| + 4 >= 16
  {
    Seal(Content(t))
  }

  /** The table in a section, read as the source reads it: by the section's size, the length of the
      program's loop, and those of the entries. */
  function Parse(source: seq<Byte>): Option<Table> {
    if |source| < 16 || source[0] != 0x02 then None
    else
      var start := 12 + SectionLength(source[10], source[11]);
      if start > |source| - 4 then None
      else
        var entries := ParseEntries(source[start..|source| - 4]);
        if entries.None? then None
        else Some(Table([0x02, source[1] & 0xf0, 0] + source[3..10], source[10] & 0xf0, source[12..start],
            entries.value))
  }

  function StripEntry(e: Entry, strip: bool): Entry { e.(info := StreamKept(e.info, strip)) }

  function StripEntries(entries: seq<Entry>, strip: bool): (r: seq<Entry>)
    ensures |r| == |entries|
  {
    if entries == [] then [] else [StripEntry(entries[0], strip)] + StripEntries(entries[1..], strip)
  }

  /** What the player is to be told. */
  function Strip(t: Table, strip: bool): Table {
    t.(info := Kept(t.info, strip), entries := StripEntries(t.entries, strip))
  }

  lemma StreamKeptIsShorter(info: seq<Byte>, strip: bool)
    ensures |StreamKept(info, strip)| <= |info|
  {
    KeptIsShorter(info, true);
  }

  lemma {:induction false} StripEntriesFine(entries: seq<Entry>, strip: bool)
    requires AllFine(entries)
    ensures AllFine(StripEntries(entries, strip))
    ensures |EncodeEntries(StripEntries(entries, strip))| <= |EncodeEntries(entries)|
  {
    if entries != [] {
      StripEntriesFine(entries[1..], strip);
      StreamKeptIsShorter(entries[0].info, strip);
      var r := StripEntries(entries, strip);
      assert r[0] == StripEntry(entries[0], strip) && r[1..] == StripEntries(entries[1..], strip);
    }
  }

  /** Stripping only shortens. */
  lemma StripFine(t: Table, strip: bool)
    requires t.Fine()
    ensures Strip(t, strip).Fine() && |Content(Strip(t, strip))| <= |Content(t)|
  {
    KeptIsShorter(t.info, strip);
    StripEntriesFine(t.entries, strip);
  }

  lemma {:induction false} StripEntriesTwice(entries: seq<Entry>, first: bool, then_: bool)
    requires then_ ==> first
    ensures StripEntries(StripEntries(entries, first), then_) == StripEntries(entries, first)
  {
    if entries != [] {
      StripEntriesTwice(entries[1..], first, then_);
      KeptTwice(entries[0].info, true, true);
      var r := StripEntries(entries, first);
      assert r[1..] == StripEntries(entries[1..], first);
    }
  }

  lemma StripTwice(t: Table, first: bool, then_: bool)
    requires then_ ==> first
    ensures Strip(Strip(t, first), then_) == Strip(t, first)
  {
    KeptTwice(t.info, first, then_);
    StripEntriesTwice(t.entries, first, then_);
  }

  lemma {:induction false} ParsedEntries(bytes: seq<Byte>)
    requires ParseEntries(bytes).Some?
    ensures AllFine(ParseEntries(bytes).value)
    ensures |EncodeEntries(ParseEntries(bytes).value)| <= |bytes|
    decreases |bytes|
  {
    hide EncodeEntry, EntryOf;
    if |bytes| >= 5 {
      var rest := bytes[EntrySize(bytes)..];
      ParsedEntries(rest);
      EntryOfFine(bytes);
      var entries := ParseEntries(bytes).value;
      assert entries[0] == EntryOf(bytes) && entries[1..] == ParseEntries(rest).value;
    }
  }

  lemma ParsedIsFine(source: seq<Byte>)
    requires Parse(source).Some?
    ensures Parse(source).value.Fine() && |Content(Parse(source).value)| + 4 <= |source|
  {
    var start := 12 + SectionLength(source[10], source[11]);
    LengthRecovered(source[10], source[11], SectionLength(source[10], source[11]));
    HighNibble(source[10], 0);
    HighNibble(source[1], 0);
    ParsedEntries(source[start..|source| - 4]);
  }

  lemma FlagsUnderLength(flags: Byte, n: nat)
    requires flags & 0x0f == 0 && n < 4096
    ensures LengthHi(flags, n) & 0xf0 == flags
  {
    NibbleOfNat(n / 256);
    NibbleUnderFlags(flags, (n / 256) as Byte);
    OnlyHigh(flags);
  }

  /** The first twelve bytes of an encoded table say what the table says. */
  lemma EncodedHead(t: Table)
    requires t.Fine() && Encodable(t)
    ensures var s := Encode(t);
            && s[0] == 0x02 && [0x02, s[1] & 0xf0, 0] + s[3..10] == t.head
            && SectionLength(s[10], s[11]) == |t.info| && s[10] & 0xf0 == t.flags
            && s[12..|s| - 4] == t.info + EncodeEntries(t.entries)
            && 3 + SectionLength(s[1], s[2]) == |s|
  {
    hide Crc.Crc, Crc.Bytes4, EncodeEntries, LengthHi, Lo, SectionLength;
    var s, content := Encode(t), Content(t);
    FlagsUnderLength(t.flags, |t.info|);
    SectionLengthOfEncoded(t.flags, |t.info|);
    FlagsUnderLength(t.head[1], |content| + 1);
    SectionLengthOfEncoded(t.head[1], |content| + 1);
    assert forall i :: 3 <= i < |content| ==> s[i] == content[i];
    assert s[..12][3..10] == s[3..10] == t.head[3..];
  }

  /** A table comes back from its encoding. */
  lemma ParseOfEncode(t: Table)
    requires t.Fine() && Encodable(t)
    ensures Parse(Encode(t)) == Some(t)
  {
    hide Encode, Content, EncodeEntries, ParseEntries, SectionLength;
    var s := Encode(t);
    var n := |t.info|;
    EncodedHead(t);
    SliceCut(s, 12, |s| - 4, n);
    assert s[12..12 + n] == t.info && s[12 + n..|s| - 4] == EncodeEntries(t.entries);
    ParseOfEntries(t.entries);
  }

  /** Whether the buffer of the source takes these streams behind `used` bytes: the room for each is
      tested before it is stripped. */
  predicate Room(used: nat, entries: seq<Entry>, strip: bool)
    decreases |entries|
  {
    entries == [] ||
    (used + 5 + |entries[0].info| + 4 <= CAPACITY
     && Room(used + 5 + |StreamKept(entries[0].info, strip)|, entries[1..], strip))
  }

  /** Whether it takes the whole table. */
  predicate HasRoom(t: Table, strip: bool) {
    12 + |t.info| <= CAPACITY - 4 && Room(12 + |Kept(t.info, strip)|, t.entries, strip)
  }

  lemma {:induction false} RoomFits(used: nat, entries: seq<Entry>, strip: bool)
    requires AllFine(entries) && used + 4 <= CAPACITY && Room(used, entries, strip)
    ensures AllFine(StripEntries(entries, strip))
    ensures used + |EncodeEntries(StripEntries(entries, strip))| + 4 <= CAPACITY
    decreases |entries|
  {
    hide StreamKept;
    if entries != [] {
      var e, rest := entries[0], entries[1..];
      StreamKeptIsShorter(e.info, strip);
      RoomFits(used + 5 + |StreamKept(e.info, strip)|, rest, strip);
      StripEntriesFine(entries, strip);
      assert StripEntries(entries, strip)[1..] == StripEntries(rest, strip);
    }
  }

  lemma {:induction false} RoomEnough(used: nat, entries: seq<Entry>, strip: bool)
    requires AllFine(entries) && used + |EncodeEntries(entries)| + 4 <= CAPACITY
    ensures Room(used, entries, strip)
    decreases |entries|
  {
    hide StreamKept;
    if entries != [] {
      StreamKeptIsShorter(entries[0].info, strip);
      RoomEnough(used + 5 + |StreamKept(entries[0].info, strip)|, entries[1..], strip);
    }
  }

  lemma StrippedFits(t: Table, strip: bool)
    requires t.Fine() && HasRoom(t, strip)
    ensures Strip(t, strip).Fine() && |Content(Strip(t, strip))| + 4 <= CAPACITY
  {
    hide Kept, StripEntries, EncodeEntries, Room;
    StripFine(t, strip);
    KeptIsShorter(t.info, strip);
    RoomFits(12 + |Kept(t.info, strip)|, t.entries, strip);
  }

  /** A table of at most 1024 bytes always has room. */
  lemma SmallHasRoom(t: Table, strip: bool)
    requires t.Fine() && |Content(t)| + 4 <= CAPACITY
    ensures HasRoom(t, strip)
  {
    hide Kept, EncodeEntries, Room;
    KeptIsShorter(t.info, strip);
    RoomEnough(12 + |Kept(t.info, strip)|, t.entries, strip);
  }

  /** A source that has a table, for which there is room. */
  predicate Rewritable(source: seq<Byte>, strip: bool) {
    Parse(source).Some? && HasRoom(Parse(source).value, strip)
  }

  /** The rewritten section of such a source. */
  ghost function Rewritten(source: seq<Byte>, strip: bool): (r: seq<Byte>)
    requires Rewritable(source, strip)
    ensures 16 <= |r| <= |source| && |r| <= CAPACITY
  {
    ParsedIsFine(source);
    StripFine(Parse(source).value, strip);
    StrippedFits(Parse(source).value, strip);
    Encode(Strip(Parse(source).value, strip))
  }

  /** Rewriting a well-formed table gives the section of the same table without what was to be stripped,
      of the length it says, and accepted by the CRC. */
  lemma RewritingKeepsTable(t: Table, strip: bool)
    requires t.Fine() && Encodable(t) && HasRoom(t, strip)
    ensures Strip(t, strip).Fine() && Encodable(Strip(t, strip)) && Rewritable(Encode(t), strip)
    ensures var r := Rewritten(Encode(t), strip);
            && r == Encode(Strip(t, strip)) && Parse(r) == Some(Strip(t, strip))
            && Crc.Accepts(r) && |r| == 3 + SectionLength(r[1], r[2])
  {
    hide Encode, Content, Parse, SectionLength, HasRoom;
    StrippedFits(t, strip);
    ParseOfEncode(t);
    ParseOfEncode(Strip(t, strip));
    EncodedHead(Strip(t, strip));
    EncodeAccepted(Strip(t, strip));
  }

  lemma EncodeAccepted(t: Table)
    requires t.Fine() && Encodable(t)
    ensures Crc.Accepts(Encode(t))
  {
    var content := Content(t);
    Crc.OwnCrcAccepted(content[1 := LengthHi(content[1], |content| + 1)][2 := Lo(|content| + 1)]);
  }

  /** Rewriting what was rewritten changes nothing; nor does it help to stop stripping. */
  lemma RewritingTwice(source: seq<Byte>, first: bool, then_: bool)
    requires Rewritable(source, first) && (then_ ==> first)
    ensures var r := Rewritten(source, first);
            Rewritable(r, then_) && Rewritten(r, then_) == r
  {
    hide Encode, Content, Parse, Strip, HasRoom;
    var t := Parse(source).value;
    ParsedIsFine(source);
    StrippedFits(t, first);
    ParseOfEncode(Strip(t, first));
    SmallHasRoom(Strip(t, first), then_);
    StripTwice(t, first, then_);
  }

  /** What stripping means for a loop of descriptors: the CA ones are gone, the others as they were. */
  lemma StripTakesOutCa(ds: seq<Descriptor>)
    ensures Kept(EncodeLoop(ds), false) == StreamKept(EncodeLoop(ds), false) == EncodeLoop(ds)
    ensures Kept(EncodeLoop(ds), true) == StreamKept(EncodeLoop(ds), true) == EncodeLoop(WithoutCa(ds))
    ensures NoCa(WithoutCa(ds)) && forall d :: d in WithoutCa(ds) <==> d in ds && d.tag != 0x09
  {
    ParseOfEncoded(ds);
    OnlyCaIsTakenOut(ds);
  }

  predicate NoCa(ds: seq<Descriptor>) {
    forall k :: 0 <= k < |ds| ==> ds[k].tag != 0x09
  }

  lemma {:induction false} OnlyCaIsTakenOut(ds: seq<Descriptor>)
    ensures NoCa(WithoutCa(ds)) && forall d :: d in WithoutCa(ds) <==> d in ds && d.tag != 0x09
  {
    if ds != [] {
      OnlyCaIsTakenOut(ds[1..]);
      assert ds == [ds[0]] + ds[1..];
    }
  }

  /* ---- the CA candidates of a table, engine/usb_dvbs2_engine.c ---- */

  datatype Candidate = Candidate(caSystem: nat, ecmPid: nat)

  predicate IsBiss(caSystem: nat) { caSystem / 256 == 0x26 }

  /** A CA descriptor found at `d`. Its fields lie inside the section even if its loop is cut short. */
  function Offer(section: seq<Byte>, d: nat, candidates: seq<Candidate>, capacity: nat): seq<Candidate>
    requires d + 5 < |section|
  {
    var caSystem := Word(section[d + 2], section[d + 3]);
    var c := Candidate(caSystem, Word(section[d + 4] & 0x1f, section[d + 5]));
    if section[d + 1] < 4 || |candidates| >= capacity || caSystem == 0 then candidates
    else if c.ecmPid >= 0x1fff && !IsBiss(caSystem) then candidates
    else if c in candidates then candidates
    else candidates + [c]
  }

  function CollectLoop(section: seq<Byte>, d: nat, end: nat, candidates: seq<Candidate>, capacity: nat): seq<Candidate>
    requires end + 4 <= |section|
    decreases |section| - d
  {
    if d + 2 > end then candidates
    else
      var more := if section[d] == CA then Offer(section, d, candidates, capacity) else candidates;
      CollectLoop(section, d + 2 + section[d + 1] as nat, end, more, capacity)
  }

  function CollectStreams(section: seq<Byte>, pos: nat, candidates: seq<Candidate>, capacity: nat): seq<Candidate>
    requires |section| >= 4
    decreases |section| - pos
  {
    if pos + 5 > |section| - 4 then candidates
    else
      var end := pos + 5 + SectionLength(section[pos + 3], section[pos + 4]);
      if end > |section| - 4 then candidates
      else CollectStreams(section, end, CollectLoop(section, pos + 5, end, candidates, capacity), capacity)
  }

  /** Every CA candidate a table names for a service. */
  function CollectCa(section: seq<Byte>, service: nat, capacity: nat): seq<Candidate> {
    if |section| < 16 || section[0] != 0x02 || Word(section[3], section[4]) != service then []
    else
      var start := 12 + SectionLength(section[10], section[11]);
      if start > |section| - 4 then []
      else CollectStreams(section, start, CollectLoop(section, 12, start, [], capacity), capacity)
  }

  /** A loop of whole descriptors, none of them a CA one. */
  predicate Clean(info: seq<Byte>) {
    NoCa(ParseLoop(info)) && EncodeLoop(ParseLoop(info)) == info
  }

  lemma KeptIsClean(info: seq<Byte>)
    ensures Clean(Kept(info, true))
  {
    ParseOfEncoded(WithoutCa(ParseLoop(info)));
    OnlyCaIsTakenOut(ParseLoop(info));
  }

  lemma {:induction false} NothingInLoop(section: seq<Byte>, d: nat, end: nat, ds: seq<Descriptor>,
                                         candidates: seq<Candidate>, capacity: nat)
    requires d <= end && end + 4 <= |section| && section[d..end] == EncodeLoop(ds) && NoCa(ds)
    ensures CollectLoop(section, d, end, candidates, capacity) == candidates
    decreases |ds|
  {
    if ds != [] {
      var one := EncodeOne(ds[0]);
      var next := d + |one|;
      ByteOfNat(|ds[0].body|);
      assert section[d..end][..|one|] == one && section[d..end][|one|..] == section[next..end];
      assert section[d] == section[d..end][0] == ds[0].tag && section[d + 1] == section[d..end][1];
      NothingInLoop(section, next, end, ds[1..], candidates, capacity);
    }
  }

  predicate AllClean(entries: seq<Entry>) {
    forall i :: 0 <= i < |entries| ==> Clean(entries[i].info)
  }

  lemma {:induction false} StripIsClean(entries: seq<Entry>)
    ensures AllClean(StripEntries(entries, true))
  {
    hide Clean;
    if entries != [] {
      StripIsClean(entries[1..]);
      KeptIsClean(entries[0].info);
    }
  }

  lemma {:induction false} NothingInStreams(section: seq<Byte>, pos: nat, entries: seq<Entry>,
                                            candidates: seq<Candidate>, capacity: nat)
    requires AllFine(entries) && AllClean(entries)
    requires pos + 4 <= |section| && section[pos..|section| - 4] == EncodeEntries(entries)
    ensures CollectStreams(section, pos, candidates, capacity) == candidates
    decreases |entries|
  {
    hide EncodeEntry, CollectLoop, ParseLoop, SectionLength;
    if entries != [] {
      var e, size := entries[0], 5 + |entries[0].info|;
      EntryAt(section, pos, e, EncodeEntries(entries[1..]));
      NothingInLoop(section, pos + 5, pos + size, ParseLoop(e.info), candidates, capacity);
      NothingInStreams(section, pos + size, entries[1..], candidates, capacity);
    }
  }

  /** An entry where the search for CA descriptors comes upon it. */
  lemma EntryAt(section: seq<Byte>, pos: nat, e: Entry, more: seq<Byte>)
    requires e.Fine() && pos + 4 <= |section| && section[pos..|section| - 4] == EncodeEntry(e) + more
    ensures var end := pos + 5 + |e.info|;
            && end + 4 <= |section| && 5 + SectionLength(section[pos + 3], section[pos + 4]) == 5 + |e.info|
            && section[pos + 5..end] == e.info && section[end..|section| - 4] == more
  {
    hide EncodeEntry, ParseLoop, SectionLength;
    var tail, size := section[pos..|section| - 4], 5 + |e.info|;
    ParseEntry(e, more);
    assert tail[3] == section[pos + 3] && tail[4] == section[pos + 4];
    assert e.info == EntryOf(tail).info == tail[5..size];
    SliceOfSlice(section, pos, |section| - 4, 5, size);
    SliceCut(section, pos, |section| - 4, size);
  }

  /* ---- which candidates a table gives ---- */

  /** What a CA descriptor of ISO/IEC 13818-1 section 2.6.16 names: a CA system in two bytes, a pid in the
      thirteen bits behind. The pid of all ones means that there is no ECM stream, which BISS alone does
      without; system zero is none. */
  function Named(d: Descriptor): Option<Candidate> {
    if d.tag != 0x09 || |d.body| < 4 then None
    else
      var system, pid := Word(d.body[0], d.body[1]), Word(d.body[2] & 0x1f, d.body[3]);
      if system == 0 || (pid == 0x1fff && system / 256 != 0x26) then None else Some(Candidate(system, pid))
  }

  function AllNamed(ds: seq<Descriptor>): seq<Candidate> {
    if ds == [] then []
    else (if Named(ds[0]).Some? then [Named(ds[0]).value] else []) + AllNamed(ds[1..])
  }

  /** Those of the program first, then those of each stream. */
  function NamedByStreams(entries: seq<Entry>): seq<Candidate> {
    if entries == [] then [] else AllNamed(ParseLoop(entries[0].info)) + NamedByStreams(entries[1..])
  }

  function NamedByTable(t: Table): seq<Candidate> { AllNamed(ParseLoop(t.info)) + NamedByStreams(t.entries) }

  /** Each only once, where it comes first. */
  function Distinct(cs: seq<Candidate>): (r: seq<Candidate>)
    ensures forall c :: c in r <==> c in cs
  {
    if cs == [] then []
    else
      var n := |cs| - 1;
      assert forall c :: c in cs <==> c in cs[..n] || c == cs[n];
      if cs[n] in cs[..n] then Distinct(cs[..n]) else Distinct(cs[..n]) + [cs[n]]
  }

  function First(cs: seq<Candidate>, capacity: nat): seq<Candidate> { AtMost(Distinct(cs), capacity) }

  lemma FirstMore(cs: seq<Candidate>, c: Candidate, capacity: nat)
    ensures var sofar := First(cs, capacity);
            First(cs + [c], capacity) == if |sofar| >= capacity || c in sofar then sofar else sofar + [c]
  {
    assert (cs + [c])[..|cs|] == cs;
    if |Distinct(cs)| <= capacity { assert AtMost(Distinct(cs), capacity) == Distinct(cs); }
  }

  lemma BytesOfDescriptor(section: seq<Byte>, d: nat, e: Descriptor)
    requires d + 2 + |e.body| <= |section| && section[d..d + 2 + |e.body|] == EncodeOne(e)
    ensures section[d] == e.tag && (section[d + 1] < 4 <==> |e.body| < 4)
    ensures |e.body| >= 4 ==>
              section[d + 2] == e.body[0] && section[d + 3] == e.body[1] && section[d + 4] == e.body[2] &&
              section[d + 5] == e.body[3]
  {
    var one := EncodeOne(e);
    assert forall k :: 0 <= k < |one| ==> section[d + k] == section[d..d + 2 + |e.body|][k] == one[k];
    assert section[d + 0] == one[0] && section[d + 1] == one[1];
    ByteOfNat(|e.body|);
    AtLeastFour(section[d + 1]);
    if |e.body| >= 4 {
      assert section[d + 2] == one[2] && section[d + 3] == one[3];
      assert section[d + 4] == one[4] && section[d + 5] == one[5];
    }
  }

  /** The search over a descriptor. */
  lemma OfferNamed(section: seq<Byte>, d: nat, e: Descriptor, cs: seq<Candidate>, capacity: nat)
    requires d + 5 < |section| && d + 2 + |e.body| <= |section| && section[d..d + 2 + |e.body|] == EncodeOne(e)
    ensures (if section[d] == CA then Offer(section, d, First(cs, capacity), capacity) else First(cs, capacity)) ==
              First(if Named(e).Some? then cs + [Named(e).value] else cs, capacity)
  {
    hide First, Word, IsBiss;
    BytesOfDescriptor(section, d, e);
    if |e.body| >= 4 {
      ThirteenBits(e.body[2], e.body[3]);
      if Named(e).Some? { FirstMore(cs, Named(e).value, capacity); }
      BissIs(Word(e.body[0], e.body[1]));
    }
  }

  lemma AtLeastFour(b: Byte)
    ensures b as nat >= 4 <==> b >= 4
  {
  }

  lemma ThirteenBits(hi: Byte, lo: Byte)
    ensures Word(hi & 0x1f, lo) <= 0x1fff
  {
  }

  lemma BissIs(system: nat)
    ensures IsBiss(system) <==> system / 256 == 0x26
  {
  }

  /** A loop that is all whole descriptors. */
  predicate Whole(info: seq<Byte>) { EncodeLoop(ParseLoop(info)) == info }

  predicate AllWhole(entries: seq<Entry>) {
    forall i :: 0 <= i < |entries| ==> Whole(entries[i].info)
  }

  lemma {:induction false} LoopNamed(section: seq<Byte>, d: nat, end: nat, ds: seq<Descriptor>, cs: seq<Candidate>,
                                     capacity: nat)
    requires d <= end && end + 4 <= |section| && section[d..end] == EncodeLoop(ds)
    ensures CollectLoop(section, d, end, First(cs, capacity), capacity) == First(cs + AllNamed(ds), capacity)
    decreases |ds|
  {
    hide First, Named, Offer, EncodeOne;
    if ds == [] {
      assert cs + [] == cs;
    } else {
      var next := d + 2 + |ds[0].body|;
      DescriptorAt(section, d, end, ds);
      OfferNamed(section, d, ds[0], cs, capacity);
      var more := if Named(ds[0]).Some? then [Named(ds[0]).value] else [];
      assert Named(ds[0]).None? ==> cs + more == cs;
      LoopNamed(section, next, end, ds[1..], cs + more, capacity);
      Associative(cs, more, AllNamed(ds[1..]));
    }
  }

  /** A descriptor where the search comes upon it. */
  lemma DescriptorAt(section: seq<Byte>, d: nat, end: nat, ds: seq<Descriptor>)
    requires d <= end <= |section| && ds != [] && section[d..end] == EncodeLoop(ds)
    ensures var next := d + 2 + |ds[0].body|;
            && d + 2 <= next <= end && section[d..next] == EncodeOne(ds[0]) && section[d] == ds[0].tag
            && section[d + 1] as nat == |ds[0].body| && section[next..end] == EncodeLoop(ds[1..])
  {
    hide EncodeLoop;
    var one, rest := EncodeOne(ds[0]), EncodeLoop(ds[1..]);
    assert EncodeLoop(ds) == one + rest by { FirstEncodes(ds); }
    SliceCut(section, d, end, |one|);
    assert section[d] == section[d..end][0] && section[d + 1] == section[d..end][1];
    ByteOfNat(|ds[0].body|);
  }

  lemma FirstEncodes(ds: seq<Descriptor>)
    requires ds != []
    ensures EncodeLoop(ds) == EncodeOne(ds[0]) + EncodeLoop(ds[1..])
  {
  }

  lemma {:induction false} StreamsNamed(section: seq<Byte>, pos: nat, entries: seq<Entry>, cs: seq<Candidate>,
                                        capacity: nat)
    requires AllFine(entries) && AllWhole(entries)
    requires pos + 4 <= |section| && section[pos..|section| - 4] == EncodeEntries(entries)
    ensures CollectStreams(section, pos, First(cs, capacity), capacity) == First(cs + NamedByStreams(entries), capacity)
    decreases |entries|
  {
    hide EncodeEntry, CollectLoop, ParseLoop, SectionLength, First, AllNamed;
    if entries == [] {
      assert cs + [] == cs;
    } else {
      var e, size := entries[0], 5 + |entries[0].info|;
      EntryAt(section, pos, e, EncodeEntries(entries[1..]));
      var more := AllNamed(ParseLoop(e.info));
      LoopNamed(section, pos + 5, pos + size, ParseLoop(e.info), cs, capacity);
      StreamsNamed(section, pos + size, entries[1..], cs + more, capacity);
      Associative(cs, more, NamedByStreams(entries[1..]));
    }
  }

  /** What is collected of a table with whole descriptors is what its CA descriptors name, each pair once and
      in order, as many of them as there is room for; and nothing for another service. */
  lemma CandidatesOfTable(t: Table, service: nat, capacity: nat)
    requires t.Fine() && Encodable(t) && Whole(t.info) && AllWhole(t.entries)
    ensures CollectCa(Encode(t), service, capacity) ==
              if Word(t.head[3], t.head[4]) == service then First(NamedByTable(t), capacity) else []
  {
    hide Encode, Content, Parse, EncodeEntries, CollectStreams, CollectLoop, SectionLength, First, AllNamed,
        NamedByStreams;
    EncodedHead(t);
    var s := Encode(t);
    var start := 12 + |t.info|;
    assert s[3] == s[3..10][0] == t.head[3] && s[4] == s[3..10][1] == t.head[4];
    SliceCut(s, 12, |s| - 4, |t.info|);
    assert s[12..start] == t.info && s[start..|s| - 4] == EncodeEntries(t.entries);
    NothingFirst(capacity);
    LoopNamed(s, 12, start, ParseLoop(t.info), [], capacity);
    assert [] + AllNamed(ParseLoop(t.info)) == AllNamed(ParseLoop(t.info));
    StreamsNamed(s, start, t.entries, AllNamed(ParseLoop(t.info)), capacity);
  }

  lemma NothingFirst(capacity: nat)
    ensures First([], capacity) == []
  {
  }

  /** After stripping, no CA candidate is found, whatever the source was. */
  lemma NoCandidatesLeft(source: seq<Byte>, service: nat, capacity: nat)
    requires Rewritable(source, true)
    ensures CollectCa(Rewritten(source, true), service, capacity) == []
  {
    hide Encode, Content, Parse, EncodeEntries, CollectStreams, CollectLoop, SectionLength, Kept, HasRoom;
    var t := Strip(Parse(source).value, true);
    ParsedIsFine(source);
    StrippedFits(Parse(source).value, true);
    EncodedHead(t);
    var s := Encode(t);
    var start := 12 + |t.info|;
    KeptIsClean(Parse(source).value.info);
    StripIsClean(Parse(source).value.entries);
    SliceCut(s, 12, |s| - 4, |t.info|);
    assert s[12..start] == t.info && s[start..|s| - 4] == EncodeEntries(t.entries);
    NothingInLoop(s, 12, start, ParseLoop(t.info), [], capacity);
    NothingInStreams(s, start, t.entries, [], capacity);
  }

  /** Sent as packets, the rewritten section of any source that has a table is what a receiver collects,
      whatever it held before: a section of the length it states, with a valid CRC, naming no CA system. */
  lemma PlayerSeesStripped(a: Psi.Assembly, source: seq<Byte>, service: nat, capacity: nat, pid: bv16, counter: Byte)
    requires Rewritable(source, true) && Psi.Sound(a)
    ensures var r := Rewritten(source, true);
            && Psi.Given(Psi.FeedAll(a, Psi.Packets(r, 0, pid, counter)).1) == [r]
            && Psi.IsSection(r) && Crc.Accepts(r) && CollectCa(r, service, capacity) == []
  {
    hide Encode, Parse, Content, HasRoom, Psi.Packets, Psi.FeedAll, Psi.OnlyLast, Psi.Given, SectionLength,
        CollectCa, Psi.Sound;
    var r, t := Rewritten(source, true), Strip(Parse(source).value, true);
    ParsedIsFine(source);
    StrippedFits(Parse(source).value, true);
    EncodedHead(t);
    EncodeAccepted(t);
    NoCandidatesLeft(source, service, capacity);
    Psi.SectionArrives(a, r, pid, counter);
    Psi.GivenOnlyLast(|Psi.Packets(r, 0, pid, counter)|, r);
  }

  /* ---- the source's pass over the streams ---- */

  /** The section written so far, the pids gathered, the teletext pid, and whether all went well. */
  datatype Pass = Pass(out: seq<Byte>, found: seq<nat>, teletext: nat, ok: bool)

  function Add(found: seq<nat>, pid: nat, capacity: nat): seq<nat> {
    if |found| < capacity then found + [pid] else found
  }

  /** One entry. The room it takes is checked before it is stripped. */
  function Visit(p: Pass, bytes: seq<Byte>, capacity: nat, strip: bool): Pass
    requires |bytes| >= 5 && EntrySize(bytes) <= |bytes|
  {
    var e := EntryOf(bytes);
    EntryOfFine(bytes);
    StreamKeptIsShorter(e.info, strip);
    var teletext := if e.IsTeletext() then e.Pid() else p.teletext;
    var found := Add(p.found, e.Pid(), capacity);
    if |p.out| + EntrySize(bytes) + 4 > CAPACITY then Pass(p.out, found, teletext, false)
    else Pass(p.out + EncodeEntry(StripEntry(e, strip)), found, teletext, true)
  }

  function CopyStreams(p: Pass, bytes: seq<Byte>, capacity: nat, strip: bool): Pass
    decreases |bytes|
  {
    if |bytes| < 5 then p
    else if EntrySize(bytes) > |bytes| then p.(ok := false)
    else
      var q := Visit(p, bytes, capacity, strip);
      if !q.ok then q else CopyStreams(q, bytes[EntrySize(bytes)..], capacity, strip)
  }

  /** The head of a source with the kept part of the program's loop. */
  function Start(source: seq<Byte>, teletext: nat, strip: bool): Pass
    requires Opens(source)
  {
    var kept := Kept(source[12..12 + SectionLength(source[10], source[11])], strip);
    KeptIsShorter(source[12..12 + SectionLength(source[10], source[11])], strip);
    Pass(source[..10] + [LengthHi(source[10], |kept|), Lo(|kept|)] + kept, [], teletext, true)
  }

  /** What a source must be for its streams to be looked at. */
  predicate Opens(source: seq<Byte>) {
    && |source| >= 16 && source[0] == 0x02
    && 12 + SectionLength(source[10], source[11]) <= |source| - 4
    && 12 + SectionLength(source[10], source[11]) <= CAPACITY - 4
  }

  function Streams(source: seq<Byte>): seq<Byte>
    requires Opens(source)
  {
    source[12 + SectionLength(source[10], source[11])..|source| - 4]
  }

  function Rewrite(source: seq<Byte>, teletext: nat, capacity: nat, strip: bool): Pass
    requires Opens(source)
  {
    CopyStreams(Start(source, teletext, strip), Streams(source), capacity, strip)
  }

  /* ---- what the pass comes to ---- */

  function Pids(entries: seq<Entry>): seq<nat> {
    if entries == [] then [] else [entries[0].Pid()] + Pids(entries[1..])
  }

  /** The pid of the last teletext stream, if the table has one. */
  function Teletext(entries: seq<Entry>, before: nat): nat {
    if entries == [] then before
    else Teletext(entries[1..], if entries[0].IsTeletext() then entries[0].Pid() else before)
  }

  /** The next entry in front of the others. */
  lemma EntryInFront(e: Entry, entries: seq<Entry>, strip: bool)
    requires e.Fine() && AllFine(entries)
    ensures StripEntry(e, strip).Fine() && AllFine(StripEntries(entries, strip)) &&
        AllFine(StripEntries([e] + entries, strip))
    ensures EncodeEntries(StripEntries([e] + entries, strip))
         == EncodeEntry(StripEntry(e, strip)) + EncodeEntries(StripEntries(entries, strip))
  {
    hide EncodeEntry, StreamKept;
    StripEntriesFine(entries, strip);
    StripEntriesFine([e] + entries, strip);
    StreamKeptIsShorter(e.info, strip);
    assert ([e] + entries)[1..] == entries;
    var r := StripEntries([e] + entries, strip);
    assert r[0] == StripEntry(e, strip) && r[1..] == StripEntries(entries, strip);
  }

  lemma AddInFront(found: seq<nat>, pid: nat, rest: seq<nat>, capacity: nat)
    requires |found| <= capacity
    ensures |Add(found, pid, capacity)| <= capacity
    ensures AtMost(Add(found, pid, capacity) + rest, capacity) == AtMost(found + ([pid] + rest), capacity)
  {
  }

  lemma VisitMeans(p: Pass, bytes: seq<Byte>, capacity: nat, strip: bool)
    requires |bytes| >= 5 && EntrySize(bytes) <= |bytes|
    ensures var e, q := EntryOf(bytes), Visit(p, bytes, capacity, strip);
            && e.Fine() && StripEntry(e, strip).Fine() && |StripEntry(e, strip).info| == |StreamKept(e.info, strip)|
            && (q.ok <==> |p.out| + 5 + |e.info| + 4 <= CAPACITY)
            && (q.ok ==> q.out == p.out + EncodeEntry(StripEntry(e, strip))
                         && |q.out| == |p.out| + 5 + |StreamKept(e.info, strip)| && |q.out| + 4 <= CAPACITY)
            && q.found == Add(p.found, e.Pid(), capacity)
            && q.teletext == if e.IsTeletext() then e.Pid() else p.teletext
  {
    hide StreamKept;
    EntryOfFine(bytes);
    StreamKeptIsShorter(EntryOf(bytes).info, strip);
  }

  /** The loop over the streams succeeds exactly when all of them are whole and there is room for each,
      and then the stripped entries, their pids and the last teletext pid are what it leaves. */
  lemma {:induction false} CopyMeans(p: Pass, bytes: seq<Byte>, capacity: nat, strip: bool)
    requires p.ok && |p.found| <= capacity
    ensures var q := CopyStreams(p, bytes, capacity, strip);
            && (q.ok <==> ParseEntries(bytes).Some? && Room(|p.out|, ParseEntries(bytes).value, strip))
            && (q.ok ==>
                  var entries := ParseEntries(bytes).value;
                  && AllFine(StripEntries(entries, strip))
                  && q.out == p.out + EncodeEntries(StripEntries(entries, strip))
                  && q.found == AtMost(p.found + Pids(entries), capacity)
                  && q.teletext == Teletext(entries, p.teletext))
    decreases |bytes|
  {
    hide EncodeEntry, EntryOf, StreamKept, StripEntry, Visit, Add, EntrySize, AtMost, StripEntries;
    if |bytes| < 5 {
      NoEntries(p, capacity, strip);
    } else if EntrySize(bytes) <= |bytes| {
      var e, rest := EntryOf(bytes), bytes[EntrySize(bytes)..];
      var q := Visit(p, bytes, capacity, strip);
      VisitMeans(p, bytes, capacity, strip);
      if ParseEntries(rest).Some? {
        var entries := ParseEntries(rest).value;
        assert ParseEntries(bytes).value == [e] + entries && ([e] + entries)[1..] == entries;
        ParsedEntries(rest);
        EntryInFront(e, entries, strip);
        AddInFront(p.found, e.Pid(), Pids(entries), capacity);
        Associative(p.out, EncodeEntry(StripEntry(e, strip)), EncodeEntries(StripEntries(entries, strip)));
      }
      if q.ok {
        AddFits(p.found, e.Pid(), capacity);
        CopyMeans(q, rest, capacity, strip);
      }
    }
  }

  lemma AddFits(found: seq<nat>, pid: nat, capacity: nat)
    requires |found| <= capacity
    ensures |Add(found, pid, capacity)| <= capacity
  {
  }

  lemma NoEntries(p: Pass, capacity: nat, strip: bool)
    requires |p.found| <= capacity
    ensures AtMost(p.found + [], capacity) == p.found && StripEntries([], strip) == []
    ensures p.out + [] == p.out
  {
    assert p.found + [] == p.found;
  }

  lemma {:induction false} CopyFails(p: Pass, bytes: seq<Byte>, capacity: nat, strip: bool)
    requires ParseEntries(bytes).None?
    ensures !CopyStreams(p, bytes, capacity, strip).ok
    decreases |bytes|
  {
    if |bytes| >= 5 && EntrySize(bytes) <= |bytes| {
      CopyFails(Visit(p, bytes, capacity, strip), bytes[EntrySize(bytes)..], capacity, strip);
    }
  }

  /** Seal overwrites the length, so what was there does not matter. */
  lemma SealIgnoresLength(x: seq<Byte>, y: seq<Byte>)
    requires |x| == |y| && 3 <= |x| < 4095
    requires x[0] == y[0] && y[1] == x[1] & 0xf0 && x[3..] == y[3..]
    ensures Seal(x) == Seal(y)
  {
    hide Crc.Crc, Crc.Bytes4, LengthHi;
    var n := |x| + 1;
    HighNibbleIgnored(x[1], n);
    assert x[1 := LengthHi(x[1], n)][2 := Lo(n)] == [x[0], LengthHi(x[1], n), Lo(n)] + x[3..];
    assert y[1 := LengthHi(y[1], n)][2 := Lo(n)] == [y[0], LengthHi(y[1], n), Lo(n)] + y[3..];
  }

  lemma HighNibbleIgnored(b: Byte, n: nat)
    requires n < 4096
    ensures LengthHi(b & 0xf0, n) == LengthHi(b, n)
  {
    HighNibble(b, n);
  }

  /** The pass over a source that has a table ends with the content of the stripped one. */
  lemma OutIsContent(source: seq<Byte>, out: seq<Byte>, strip: bool)
    requires Rewritable(source, strip)
    requires Opens(source) && AllFine(StripEntries(Parse(source).value.entries, strip))
    requires out == Start(source, 0, strip).out + EncodeEntries(StripEntries(Parse(source).value.entries, strip))
    ensures 3 <= |out| <= CAPACITY - 4 && Seal(out) == Rewritten(source, strip)
  {
    hide EncodeEntries, SectionLength, Kept, Seal, LengthHi, StripEntries, ParseEntries, HasRoom;
    var t := Strip(Parse(source).value, strip);
    ParsedIsFine(source);
    StrippedFits(Parse(source).value, strip);
    KeptIsShorter(Parse(source).value.info, strip);
    HighNibbleIgnored(source[10], |t.info|);
    var content := Content(t);
    assert content[3..] == source[3..10] + [LengthHi(source[10], |t.info|), Lo(|t.info|)] + t.info +
        EncodeEntries(t.entries);
    assert out[3..] == content[3..];
    SealIgnoresLength(out, content);
  }

  /** A source of any size is accepted exactly when it has a table and there is room for it; what is
      sealed and sent is then its rewritten section, with the pids and the teletext pid of the table. */
  lemma PassIsRewriting(source: seq<Byte>, teletext: nat, capacity: nat, strip: bool)
    ensures Rewritable(source, strip) <==> Opens(source) && Rewrite(source, teletext, capacity, strip).ok
    ensures Rewritable(source, strip) ==>
              var p, t := Rewrite(source, teletext, capacity, strip), Parse(source).value;
              && 3 <= |p.out| <= CAPACITY - 4 && Seal(p.out) == Rewritten(source, strip)
              && p.found == AtMost(Pids(t.entries), capacity)
              && p.teletext == Teletext(t.entries, teletext)
  {
    hide CopyStreams, ParseEntries, EncodeEntries, SectionLength, Seal, Kept, Room, StripEntries;
    if Opens(source) {
      var info := source[12..12 + SectionLength(source[10], source[11])];
      KeptIsShorter(info, strip);
      CopyMeans(Start(source, teletext, strip), Streams(source), capacity, strip);
      if Rewritable(source, strip) {
        OutIsContent(source, Rewrite(source, teletext, capacity, strip).out, strip);
        var entries := ParseEntries(Streams(source)).value;
        assert [] + Pids(entries) == Pids(entries);
      }
    }
  }

  /** On a section of at most 1024 bytes, which is all the assembler gives out, the buffer never
      overflows: it is accepted exactly when it has a table. */
  lemma SmallIsRewritable(source: seq<Byte>, strip: bool)
    requires |source| <= 1024
    ensures Rewritable(source, strip) <==> Parse(source).Some?
  {
    hide Parse, HasRoom, Content;
    if Parse(source).Some? {
      ParsedIsFine(source);
      SmallHasRoom(Parse(source).value, strip);
    }
  }

  lemma {:induction false} NothingButCa(ds: seq<Descriptor>)
    requires forall k :: 0 <= k < |ds| ==> ds[k].tag == CA
    ensures WithoutCa(ds) == []
  {
    if ds != [] {
      NothingButCa(ds[1..]);
    }
  }

  /** Longer sources are not all refused: one whose loops hold nothing but CA descriptors has room when
      they are stripped, and only then. */
  lemma LongTableFits(head: seq<Byte>, ds: seq<Descriptor>)
    requires |head| == 10 && head[0] == 0x02 && head[1] & 0x0f == 0 && head[2] == 0
    requires (forall k :: 0 <= k < |ds| ==> ds[k].tag == 0x09) && 512 <= |EncodeLoop(ds)| <= 1000
    ensures var loop := EncodeLoop(ds);
            var t := Table(head, 0, loop, [Entry(0x1b, 0xe1, 0x00, 0, loop)]);
            && t.Fine() && Encodable(t) && |Encode(t)| > 1024 && HasRoom(t, true) && !HasRoom(t, false)
  {
    hide LengthHi, Lo, Seal;
    var loop := EncodeLoop(ds);
    var e := Entry(0x1b, 0xe1, 0x00, 0, loop);
    StripTakesOutCa(ds);
    NothingButCa(ds);
    OneEntrySize(Table(head, 0, loop, [e]), e);
    OneEntryRoom(e);
  }

  /** And one that would fit once stripped can be refused: here the only entry, all CA descriptors, is
      found too long before its loop is emptied. */
  lemma StrippableTableRefused(head: seq<Byte>, ds: seq<Descriptor>)
    requires |head| == 10 && head[0] == 0x02 && head[1] & 0x0f == 0 && head[2] == 0
    requires (forall k :: 0 <= k < |ds| ==> ds[k].tag == 0x09) && 1004 <= |EncodeLoop(ds)| < 1024
    ensures var t := Table(head, 0, [], [Entry(0x1b, 0xe1, 0x00, 0, EncodeLoop(ds))]);
            && t.Fine() && Encodable(t) && !HasRoom(t, true)
            && Strip(t, true).Fine() && |Content(Strip(t, true))| + 4 == 21
    ensures var t := Table(head, 0, [], [Entry(0x1b, 0xe1, 0x00, 0, EncodeLoop(ds))]);
            !Rewritable(Encode(t), true)
  {
    hide LengthHi, Lo, Seal, EncodeEntry, Parse;
    var loop := EncodeLoop(ds);
    var e := Entry(0x1b, 0xe1, 0x00, 0, loop);
    var t := Table(head, 0, [], [e]);
    StripTakesOutCa(ds);
    NothingButCa(ds);
    OneEntrySize(t, e);
    StripFine(t, true);
    assert Kept([], true) == [] && [e][1..] == [];
    OneEntrySize(Strip(t, true), StripEntry(e, true));
    ParseOfEncode(t);
  }

  lemma OneEntrySize(t: Table, e: Entry)
    requires t.Fine() && t.entries == [e]
    ensures |Content(t)| == 12 + |t.info| + 5 + |e.info|
  {
    hide EncodeEntry, LengthHi, Lo;
    assert t.entries[0] == e;
    assert [e][1..] == [] && EncodeEntries([e]) == EncodeEntry(e) + EncodeEntries([]);
  }

  lemma OneEntryRoom(e: Entry)
    requires 512 <= |e.info| <= CAPACITY - 24 && Kept(e.info, true) == [] && Kept(e.info, false) == e.info
    ensures Room(12, [e], true) && !Room(12 + |e.info|, [e], false)
  {
    hide Kept;
    assert [e][1..] == [];
    assert Room(12, [e], true) <==> 12 + 5 + |e.info| + 4 <= CAPACITY && Room(12 + 5, [], true);
  }

  lemma {:induction false} CopiedFits(p: Pass, bytes: seq<Byte>, capacity: nat, strip: bool)
    requires |p.out| + 4 <= CAPACITY && |p.found| <= capacity
    ensures var q := CopyStreams(p, bytes, capacity, strip);
            |p.out| <= |q.out| && |q.out| + 4 <= CAPACITY && |q.found| <= capacity
    decreases |bytes|
  {
    hide StreamKept;
    if |bytes| >= 5 && EntrySize(bytes) <= |bytes| {
      EntryOfFine(bytes);
      StreamKeptIsShorter(EntryOf(bytes).info, strip);
      var q := Visit(p, bytes, capacity, strip);
      if q.ok {
        CopiedFits(q, bytes[EntrySize(bytes)..], capacity, strip);
      }
    }
  }

  /* ---- in place ---- */

  /** Copies the descriptors to keep of a loop to `section + at`. What is kept fits where the whole loop does. */
  method CopyLoop(section: array<Byte>, at: nat, info: seq<Byte>, strip: bool) returns (kept: nat)
    requires at + |info| + 4 <= section.Length
    modifies section
    ensures kept <= |info| && section[..at + kept] == old(section[..at]) + Kept(info, strip)
  {
    hide Kept, Splice, Behind, SizeAt;
    kept := 0;
    var descriptor := 0;
    ghost var start, done := section[..at], [];
    assert info[0..] == info;
    NothingBehind(start);
    NothingBefore(Kept(info, strip));
    while descriptor + 2 <= |info|
      invariant kept <= descriptor <= |info|
      invariant section[..at + kept] == Behind(start, done)
      invariant Behind(done, Kept(info[descriptor..], strip)) == Kept(info, strip)
      decreases |info| - descriptor
    {
      var length := SizeAt(info, descriptor);
      if descriptor + length > |info| {
        break;
      }
      var block := info[descriptor..descriptor + length];
      KeptOn(info, descriptor, length, done, strip);
      if !(strip && info[descriptor] == CA) {
        if at + kept + length + 4 > section.Length {
          // The test for an overflow: what is kept never outgrows the loop it came from, and that fits.
          assert false;
        }
        KeepOne(section, at + kept, block, start, done);
        done := Behind(done, block);
        kept := kept + length;
      }
      descriptor := descriptor + length;
    }
    KeptEndsAt(info, descriptor, strip);
    NothingBehind(done);
    BehindIs(start, done);
  }

  /** The whole size of the descriptor at a place. */
  function SizeAt(info: seq<Byte>, d: nat): (n: nat)
    requires d + 2 <= |info|
    ensures n >= 2
  {
    2 + info[d + 1] as nat
  }

  function Behind(done: seq<Byte>, rest: seq<Byte>): seq<Byte> { done + rest }

  lemma BehindIs(done: seq<Byte>, rest: seq<Byte>)
    ensures Behind(done, rest) == done + rest
  {
  }

  lemma NothingBehind(done: seq<Byte>)
    ensures Behind(done, []) == done
  {
  }

  lemma NothingBefore(rest: seq<Byte>)
    ensures Behind([], rest) == rest
  {
  }

  method KeepOne(section: array<Byte>, at: nat, block: seq<Byte>, ghost start: seq<Byte>, ghost done: seq<Byte>)
    requires at + |block| + 4 <= section.Length && section[..at] == Behind(start, done)
    modifies section
    ensures section[..at + |block|] == Behind(start, Behind(done, block))
  {
    WriteBehind(section, at, block);
    Associative(start, done, block);
  }

  /** The next descriptor of a loop, seen from the whole of it. */
  lemma KeptFrom(info: seq<Byte>, d: nat, n: nat, strip: bool)
    requires d + 2 <= |info| && n == 2 + info[d + 1] as nat && d + n <= |info|
    ensures Kept(info[d..], strip) == (if strip && info[d] == CA then [] else info[d..d + n]) +
        Kept(info[d + n..], strip)
  {
    hide Kept;
    var bytes := info[d..];
    KeptStep(bytes, strip);
    assert bytes[..n] == info[d..d + n];
    assert bytes[n..] == info[d + n..];
  }

  lemma KeptOn(info: seq<Byte>, d: nat, n: nat, done: seq<Byte>, strip: bool)
    requires d + 2 <= |info| && n == SizeAt(info, d) && d + n <= |info|
    ensures var x := if strip && info[d] == CA then done else Behind(done, info[d..d + n]);
            Behind(done, Kept(info[d..], strip)) == Behind(x, Kept(info[d + n..], strip))
  {
    hide Kept;
    KeptFrom(info, d, n, strip);
    Associative(done, if strip && info[d] == CA then [] else info[d..d + n], Kept(info[d + n..], strip));
  }

  lemma KeptEndsAt(info: seq<Byte>, d: nat, strip: bool)
    requires d <= |info| && (d + 2 > |info| || d + SizeAt(info, d) > |info|)
    ensures Kept(info[d..], strip) == []
  {
    hide Kept;
    KeptEnds(info[d..], strip);
  }

  lemma KeptEnds(bytes: seq<Byte>, strip: bool)
    requires |bytes| < 2 || 2 + bytes[1] as nat > |bytes|
    ensures Kept(bytes, strip) == [] && ParseLoop(bytes) == []
  {
  }

  /** Looks for a teletext descriptor in a loop. */
  method FindTeletext(info: seq<Byte>) returns (found: bool)
    ensures found <==> HasTeletext(ParseLoop(info))
  {
    hide ParseLoop;
    found := false;
    var d := 0;
    assert info[0..] == info;
    while d + 2 <= |info|
      invariant d <= |info|
      invariant HasTeletext(ParseLoop(info)) <==> found || HasTeletext(ParseLoop(info[d..]))
      decreases |info| - d
    {
      var length := info[d + 1] as nat;
      if d + 2 + length > |info| {
        break;
      }
      TeletextStep(info[d..]);
      assert info[d..][2 + length..] == info[d + 2 + length..];
      if info[d] == 0x56 || info[d] == 0x46 {
        found := true;
      }
      d := d + 2 + length;
    }
    KeptEnds(info[d..], false);
  }

  lemma TeletextFirst(d: Descriptor, rest: seq<Descriptor>)
    ensures HasTeletext([d] + rest) <==> d.tag == 0x56 || d.tag == 0x46 || HasTeletext(rest)
  {
    var ds := [d] + rest;
    assert ds[0] == d && forall k :: 0 <= k < |rest| ==> ds[k + 1] == rest[k];
  }

  lemma TeletextStep(bytes: seq<Byte>)
    requires |bytes| >= 2 && 2 + bytes[1] as nat <= |bytes|
    ensures HasTeletext(ParseLoop(bytes)) <==>
              bytes[0] == 0x56 || bytes[0] == 0x46 || HasTeletext(ParseLoop(bytes[2 + bytes[1] as nat..]))
  {
    hide HasTeletext;
    var n := 2 + bytes[1] as nat;
    ByteBound(bytes[1]);
    TeletextFirst(Descriptor(bytes[0], bytes[2..n]), ParseLoop(bytes[n..]));
  }

  /** Copies one entry, its loop stripped or as it is. */
  method CopyEntry(section: array<Byte>, at: nat, bytes: seq<Byte>, strip: bool) returns (next: nat)
    requires |bytes| >= 5 && EntrySize(bytes) == |bytes| && at + |bytes| + 4 <= section.Length
    modifies section
    ensures StripEntry(EntryOf(bytes), strip).Fine()
    ensures next <= at + |bytes|
    ensures section[..next] == old(section[..at]) + EncodeEntry(StripEntry(EntryOf(bytes), strip))
  {
    hide Kept, LengthHi, Lo, SectionLength;
    ghost var e := EntryOf(bytes);
    EntryOfFine(bytes);
    StreamKeptIsShorter(e.info, strip);
    assert bytes[..|bytes|] == bytes;
    if strip {
      WriteBehind(section, at, bytes[..5]);
      ghost var head := section[..at + 5];
      var kept := CopyLoop(section, at + 5, bytes[5..], true);
      ghost var out := section[..at + 5 + kept];
      assert |Kept(bytes[5..], true)| == kept;
      section[at + 3] := LengthHi(bytes[3], kept);
      section[at + 4] := Lo(kept);
      next := at + 5 + kept;
      HighNibbleIgnored(bytes[3], kept);
      assert section[..next] == out[at + 3 := LengthHi(bytes[3], kept)][at + 4 := Lo(kept)];
    } else {
      WriteBehind(section, at, bytes);
      next := at + |bytes|;
    }
  }

  /** What the caller knows of the service: the pids to forward, and those of its teletext and its clock. */
  class Selection {
    const pids: array<nat>
    var count: nat
    var teletext: nat
    var pcr: nat

    ghost predicate Valid() reads this { count <= pids.Length }

    ghost function List(): seq<nat>
      requires Valid()
      reads this, pids
    {
      pids[..count]
    }

    constructor (capacity: nat)
      ensures Valid() && List() == [] && teletext == pcr == 0x1fff && pids.Length == capacity && fresh(pids)
    {
      pids, count, teletext, pcr := new nat[capacity](_ => 0), 0, 0x1fff, 0x1fff;
    }
  }

  /** The first entry of some bytes. */
  lemma EntryAlone(bytes: seq<Byte>)
    requires |bytes| >= 5 && EntrySize(bytes) <= |bytes|
    ensures var entry := bytes[..EntrySize(bytes)];
            EntrySize(entry) == |entry| && EntryOf(entry) == EntryOf(bytes)
  {
    hide SectionLength;
    var n := EntrySize(bytes);
    assert bytes[..n][5..n] == bytes[5..n];
  }

  method AddPid(found: array<nat>, count: nat, capacity: nat, pid: nat) returns (more: nat)
    requires count <= capacity <= found.Length
    modifies found
    ensures more <= capacity && found[..more] == Add(old(found[..count]), pid, capacity)
  {
    more := count;
    if more < capacity {
      found[more] := pid;
      more := more + 1;
      assert found[..more] == old(found[..count]) + [pid];
    }
  }

  /** One entry of the table. `found` has room for every pid that can be added. */
  method VisitEntry(section: array<Byte>, at: nat, bytes: seq<Byte>, found: array<nat>, count: nat, capacity: nat,
                    before: nat, strip: bool) returns (ok: bool, next: nat, more: nat, teletext: nat)
    requires |bytes| >= 5 && EntrySize(bytes) <= |bytes|
    requires section.Length == CAPACITY && at + 4 <= CAPACITY && count <= capacity <= found.Length
    requires section as object != found
    modifies section, found
    ensures at <= next && next + 4 <= CAPACITY && more <= capacity
    ensures var q := Visit(Pass(old(section[..at]), old(found[..count]), before, true), bytes, capacity, strip);
            && q.ok == ok && q.teletext == teletext && q.found == found[..more]
            && (ok ==> q.out == section[..next])
  {
    hide StripEntry, EncodeEntry, SectionLength, ParseLoop, HasTeletext, StreamKept, Splice;
    EntryAlone(bytes);
    EntryOfFine(bytes);
    var size := EntrySize(bytes);
    var entry := bytes[..size];
    ghost var e := EntryOf(bytes);
    StreamKeptIsShorter(e.info, strip);
    var pid := Word(bytes[1] & 0x1f, bytes[2]);
    next, more, teletext := at, count, before;
    if bytes[0] == 0x06 {
      var carried := FindTeletext(bytes[5..size]);
      if carried {
        teletext := pid;
      }
    }
    more := AddPid(found, count, capacity, pid);
    if at + size + 4 > CAPACITY {
      return false, next, more, teletext;
    }
    next := CopyEntry(section, at, entry, strip);
    ok := true;
  }

  /** The loop over the streams of a table. */
  method CopyAll(section: array<Byte>, start: nat, streams: seq<Byte>, found: array<nat>, capacity: nat, before: nat,
      strip: bool)
    returns (ok: bool, at: nat, count: nat, teletext: nat)
    requires section.Length == CAPACITY && start + 4 <= CAPACITY && capacity <= found.Length
    requires section as object != found
    modifies section, found
    ensures start <= at && at + 4 <= CAPACITY && count <= capacity
    ensures var q := CopyStreams(Pass(old(section[..start]), [], before, true), streams, capacity, strip);
            && q.ok == ok && q.teletext == teletext
            && (ok ==> q.out == section[..at] && q.found == found[..count])
  {
    hide Visit, EntrySize;
    ghost var all := CopyStreams(Pass(section[..start], [], before, true), streams, capacity, strip);
    at, count, teletext := start, 0, before;
    var pos := 0;
    assert streams[0..] == streams && found[..0] == [];
    while pos + 5 <= |streams|
      invariant pos <= |streams| && start <= at && at + 4 <= CAPACITY && count <= capacity
      invariant CopyStreams(Pass(section[..at], found[..count], teletext, true), streams[pos..], capacity, strip) == all
      decreases |streams| - pos
    {
      var rest := streams[pos..];
      var size := EntrySize(rest);
      if size > |rest| {
        return false, at, count, teletext;
      }
      ok, at, count, teletext := VisitEntry(section, at, rest, found, count, capacity, teletext, strip);
      if !ok {
        return;
      }
      assert streams[pos + size..] == rest[size..];
      pos := pos + size;
    }
    ok := true;
  }

  /** Fills in the length and the CRC. */
  method Finish(section: array<Byte>, at: nat) returns (size: nat)
    requires section.Length == CAPACITY && 3 <= at && at + 4 <= CAPACITY
    modifies section
    ensures size == at + 4 && section[..size] == Seal(old(section[..at]))
  {
    hide LengthHi, Lo, Crc.Crc, Crc.Bytes4;
    ghost var content := section[..at];
    var sectionLength := at - 3 + 4;
    section[1] := LengthHi(section[1], sectionLength);
    section[2] := Lo(sectionLength);
    assert section[..at] == content[1 := LengthHi(content[1], at + 1)][2 := Lo(at + 1)];
    var crc := Crc.ComputeCrc(section[..at]);
    WriteBehind(section, at, Crc.Bytes4(crc));
    size := at + 4;
  }

  function Least(a: nat, b: nat): nat { if a > b then b else a }

  /** The fixed part and the program's descriptors. */
  method CopyHead(section: array<Byte>, source: seq<Byte>, start: nat, strip: bool) returns (at: nat)
    requires section.Length == CAPACITY && Opens(source) && start == 12 + SectionLength(source[10], source[11])
    modifies section
    ensures 12 <= at && at + 4 <= CAPACITY
    ensures section[..at] == Start(source, 0, strip).out
  {
    hide Kept, LengthHi, Lo, SectionLength;
    WriteBehind(section, 0, source[..12]);
    var kept := CopyLoop(section, 12, source[12..start], strip);
    at := 12 + kept;
    ghost var out := section[..at];
    section[10] := LengthHi(source[10], kept);
    section[11] := Lo(kept);
    assert section[..at] == out[10 := LengthHi(source[10], kept)][11 := Lo(kept)];
  }

  /** Rebuilds the table in a buffer of its own, and hands the pids over when it is whole. */
  method Rebuild(source: seq<Byte>, streamsStart: nat, sel: Selection, capacity: nat, strip: bool)
    returns (ok: bool, sealed: seq<Byte>)
    requires sel.Valid() && Opens(source) && streamsStart == 12 + SectionLength(source[10], source[11])
    requires capacity == Least(sel.pids.Length, MAX_PIDS)
    modifies sel, sel.pids
    ensures sel.Valid() && sel.pcr == Word(source[8] & 0x1f, source[9])
    ensures var p := Rewrite(source, old(sel.teletext), capacity, strip);
            && 12 <= |p.out| <= CAPACITY - 4 && p.ok == ok && sel.teletext == p.teletext
            && (if ok then sel.List() == p.found && sealed == Seal(p.out) else sel.List() == old(sel.List()))
  {
    hide Kept, CopyStreams, LengthHi, Lo, SectionLength, Seal;
    sealed := [];
    var section, found := new Byte[CAPACITY](_ => 0), new nat[MAX_PIDS](_ => 0);
    var at := CopyHead(section, source, streamsStart, strip);
    CopiedFits(Start(source, sel.teletext, strip), Streams(source), capacity, strip);
    sel.pcr := Word(source[8] & 0x1f, source[9]);
    var end, count, teletext;
    ok, end, count, teletext := CopyAll(section, at, source[streamsStart..|source| - 4], found, capacity,
        sel.teletext, strip);
    sel.teletext := teletext;
    if ok {
      var size := Finish(section, end);
      sealed := section[..size];
      WriteBehind(sel.pids, 0, found[..count]);
      sel.count := count;
    }
  }

  /** Rewrites the table of a service and sends it. */
  method SendSelectedPmt(w: Psi.Writer, source: seq<Byte>, pmtPid: bv16, service: nat, sel: Selection, counter: Byte,
      strip: bool)
    returns (rc: int, next: Byte, ghost sent: nat)
    requires w.Valid() && sel.Valid() && w.datagram as object != sel.pids
    modifies w, w.datagram, sel, sel.pids
    ensures w.Valid() && sel.Valid()
    // A section that is no table of this service changes nothing.
    ensures !Opens(source) || Word(source[3], source[4]) != service ==>
              && rc == -1 && next == counter && w.Stream() == old(w.Stream()) && w.sent == old(w.sent)
              && sel.teletext == old(sel.teletext) && sel.pcr == old(sel.pcr) && sel.List() == old(sel.List())
    // Otherwise the clock's pid is taken at once, and the teletext pid as the streams are read.
    ensures Opens(source) && Word(source[3], source[4]) == service ==>
              var p := Rewrite(source, old(sel.teletext), Least(sel.pids.Length, MAX_PIDS), strip);
              && 12 <= |p.out| <= CAPACITY - 4
              && sel.pcr == Word(source[8] & 0x1f, source[9]) && sel.teletext == p.teletext
              // The list of pids changes only when the whole table was rebuilt, which is then sent.
              && (!p.ok ==>
                rc == -1 && next == counter && w.Stream() == old(w.Stream()) && w.sent == old(w.sent)
                && sel.List() == old(sel.List()))
              // It is sent to its end and 0 returned, unless one of its datagrams fails.
              && (p.ok ==>
                    var packets := Psi.Packets(Seal(p.out), 0, pmtPid, counter);
                    && sel.List() == p.found
                    && sent <= |packets| && next == Psi.CounterAfter(counter, sent)
                    && w.Stream() == old(w.Stream()) + Psi.Flat(packets[..sent])
                    && |w.sent| >= |old(w.sent)|
                    && (rc == 0 <==> forall k :: |old(w.sent)| <= k < |w.sent| ==> !w.fails(k))
                    && (rc == 0 ==> sent == |packets|)
                    && (rc != 0 ==> rc == -1 && sent > 0 && w.size == 0 && |w.sent| > |old(w.sent)|
                                    && forall k :: |old(w.sent)| <= k < |w.sent| - 1 ==> !w.fails(k)))
  {
    hide Kept, Rewrite, Psi.Packets, Psi.CounterAfter, Psi.Flat, CopyStreams, LengthHi, Lo, SectionLength, Seal;
    rc, next, sent := -1, counter, 0;
    if |source| < 16 || source[0] != 0x02 {
      return;
    }
    if Word(source[3], source[4]) != service {
      return;
    }
    var capacity := Least(sel.pids.Length, MAX_PIDS);
    var streamsStart := 12 + SectionLength(source[10], source[11]);
    if streamsStart > |source| - 4 || streamsStart > CAPACITY - 4 {
      return;
    }
    var ok, section := Rebuild(source, streamsStart, sel, capacity, strip);
    if ok {
      rc, next, sent := w.SendSection(pmtPid, counter, section);
    }
  }
}
