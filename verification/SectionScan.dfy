/** Reassembling sections from the payloads of a pid, core/ts_services.c: the scanner's counterpart of
    the section layout of ISO/IEC 13818-1 section 2.4.4. */
module SectionScan {
  import opened Bytes
  import opened Buffers
  import opened Wire
  import opened Wrappers

  const MAX_SECTION := 4096
  const STUFFING: Byte := 0xff

  datatype Payload = Payload(data: seq<Byte>, start: bool)

  /* ---- what the scanner does, on values ---- */

  /** What is kept between calls: an incomplete section, empty while none is being collected. */
  predicate Partial(held: seq<Byte>) {
    |held| >= 3 ==> |held| < Announced(held) <= MAX_SECTION
  }

  /** What one call of append_section leaves collected, takes of its input, and hands on. */
  datatype Appended = Appended(held: seq<Byte>, used: nat, parsed: seq<seq<Byte>>)

  function Append(held: seq<Byte>, data: seq<Byte>): (r: Appended)
    requires Partial(held)
    ensures r.used <= |data| && Partial(r.held) && (data != [] ==> r.used > 0)
  {
    var all := held + data;
    AnnouncedKept(held, data);
    if data == [] then Appended(held, 0, [])
    else if held == [] && data[0] == STUFFING then Appended([], |data|, [])
    else if |all| < 3 then Appended(all, |data|, [])
    else if Announced(all) > MAX_SECTION then Appended([], 3 - |held|, [])
    else if |all| < Announced(all) then Appended(all, |data|, [])
    else Appended([], Announced(all) - |held|, [all[..Announced(all)]])
  }

  lemma AnnouncedKept(held: seq<Byte>, data: seq<Byte>)
    ensures |held| >= 3 ==> Announced(held + data) == Announced(held)
  {
    if |held| >= 3 {
      assert (held + data)[1] == held[1] && (held + data)[2] == held[2];
    }
  }

  /** The rest of a payload, section after section. */
  ghost function Scan(held: seq<Byte>, data: seq<Byte>): (r: (seq<Byte>, seq<seq<Byte>>))
    requires Partial(held)
    ensures Partial(r.0)
    decreases |data|
  {
    if data == [] then (held, [])
    else
      var a := Append(held, data);
      var r := Scan(a.held, data[a.used..]);
      (r.0, a.parsed + r.1)
  }

  /** One payload: in one that starts sections, the pointer field first. */
  ghost function Process(held: seq<Byte>, p: Payload): (r: (seq<Byte>, seq<seq<Byte>>))
    requires Partial(held)
    ensures Partial(r.0)
  {
    if p.data == [] then (held, [])
    else if !p.start then Scan(held, p.data)
    else
      var pointer := p.data[0] as nat;
      if pointer > |p.data| - 1 then ([], [])
      else
        var ended := if held != [] && pointer > 0 then Append(held, p.data[1..1 + pointer]).parsed else [];
        var r := Scan([], p.data[1 + pointer..]);
        (r.0, ended + r.1)
  }

  ghost function ProcessAll(held: seq<Byte>, payloads: seq<Payload>): (r: (seq<Byte>, seq<seq<Byte>>))
    requires Partial(held)
    ensures Partial(r.0)
    decreases |payloads|
  {
    if payloads == [] then (held, [])
    else
      var p := Process(held, payloads[0]);
      var r := ProcessAll(p.0, payloads[1..]);
      (r.0, p.1 + r.1)
  }

  /* ---- the layout ---- */

  predicate IsSection(s: seq<Byte>) {
    3 <= |s| <= 4096 && |s| == Announced(s) && s[0] != 0xff
  }

  predicate AllSections(sections: seq<seq<Byte>>) {
    forall i :: 0 <= i < |sections| ==> IsSection(sections[i])
  }

  predicate AllStuffing(data: seq<Byte>) {
    forall i :: 0 <= i < |data| ==> data[i] == 0xff
  }

  /** What is still to be sent: the end of the section under way, and the sections after it. */
  datatype Rest = Rest(current: seq<Byte>, todo: seq<seq<Byte>>)

  /** Sections laid one behind the other into what is left of a payload, the last of them cut off by its
      end or followed by stuffing: what then remains to be sent, if this is such a layout. */
  function LaidInto(data: seq<Byte>, todo: seq<seq<Byte>>): Option<Rest>
    requires AllSections(todo)
    decreases |todo|
  {
    if AllStuffing(data) then Some(Rest([], todo))
    else if todo == [] then None
    else if |data| < |todo[0]| then
      if todo[0][..|data|] == data then Some(Rest(todo[0][|data|..], todo[1..])) else None
    else if data[..|todo[0]|] == todo[0] then LaidInto(data[|todo[0]|..], todo[1..])
    else None
  }

  /** A payload as the standard lays it out: one in which sections start says by its pointer field
      where the first of them does; in any other the section under way goes on, or ends before stuffing. */
  function LaidOut(rest: Rest, p: Payload): Option<Rest>
    requires AllSections(rest.todo)
  {
    var n := |rest.current|;
    if p.start then
      if 1 + n <= |p.data| && p.data[0] as nat == n && p.data[1..1 + n] == rest.current
        then LaidInto(p.data[1 + n..], rest.todo)
      else None
    else if |p.data| < n then
      if rest.current[..|p.data|] == p.data then Some(Rest(rest.current[|p.data|..], rest.todo)) else None
    else if p.data[..n] == rest.current && AllStuffing(p.data[n..]) then Some(Rest([], rest.todo))
    else None
  }

  lemma {:induction false} LaidIntoSections(data: seq<Byte>, todo: seq<seq<Byte>>)
    requires AllSections(todo)
    ensures LaidInto(data, todo).Some? ==> AllSections(LaidInto(data, todo).value.todo)
    decreases |todo|
  {
    hide IsSection;
    if !AllStuffing(data) && todo != [] && |data| >= |todo[0]| {
      LaidIntoSections(data[|todo[0]|..], todo[1..]);
    }
  }

  /** A run of payloads that carries all of the sections to their end. */
  ghost predicate Carries(payloads: seq<Payload>, rest: Rest)
    requires AllSections(rest.todo)
    decreases |payloads|
  {
    if payloads == [] then rest == Rest([], [])
    else
      LaidIntoSectionsOut(rest, payloads[0]);
      var r := LaidOut(rest, payloads[0]);
      r.Some? && Carries(payloads[1..], r.value)
  }

  lemma LaidIntoSectionsOut(rest: Rest, p: Payload)
    requires AllSections(rest.todo)
    ensures LaidOut(rest, p).Some? ==> AllSections(LaidOut(rest, p).value.todo)
  {
    hide AllSections, AllStuffing;
    var n := |rest.current|;
    if p.start && 1 + n <= |p.data| {
      LaidIntoSections(p.data[1 + n..], rest.todo);
    }
  }

  /* ---- they meet ---- */

  /** The scanner holds exactly the part of the current section that was sent. */
  predicate InStep(held: seq<Byte>, rest: Rest) {
    (held == [] && rest.current == []) || (held != [] && rest.current != [] && IsSection(held + rest.current))
  }

  /** Stuffing is passed over. */
  lemma ScanStuffing(data: seq<Byte>)
    requires AllStuffing(data)
    ensures Scan([], data).0 == [] && Scan([], data).1 == []
  {
    if data != [] {
      assert data[|data|..] == [];
    }
  }

  /** A section started and ended in the bytes given comes out whole. */
  lemma AppendWhole(held: seq<Byte>, tail: seq<Byte>, more: seq<Byte>)
    requires IsSection(held + tail) && tail != []
    ensures Partial(held)
    ensures Append(held, tail + more) == Appended([], |tail|, [held + tail])
  {
    var s := held + tail;
    var all := held + (tail + more);
    assert all == s + more;
    assert all[..|s|] == s;
    assert all[1] == s[1] && all[2] == s[2] && all[0] == s[0];
    if |held| >= 3 {
      assert held[1] == s[1] && held[2] == s[2];
    }
  }

  /** A piece that does not end it is only collected. */
  lemma AppendPiece(held: seq<Byte>, piece: seq<Byte>, tail: seq<Byte>)
    requires IsSection(held + piece + tail) && piece != [] && tail != []
    ensures Partial(held) && Partial(held + piece)
    ensures Append(held, piece) == Appended(held + piece, |piece|, [])
  {
    var s := held + piece + tail;
    var all := held + piece;
    assert s[0] == all[0];
    if |all| >= 3 {
      assert all[1] == s[1] && all[2] == s[2];
    }
    if |held| >= 3 {
      assert held[1] == s[1] && held[2] == s[2];
    }
  }

  /** Everything still to come out of the scanner: the section under way, and those after it. */
  ghost function Due(held: seq<Byte>, rest: Rest): seq<seq<Byte>> {
    (if rest.current == [] then [] else [held + rest.current]) + rest.todo
  }

  lemma InStepIsPartial(held: seq<Byte>, rest: Rest)
    requires InStep(held, rest)
    ensures Partial(held)
  {
    if held != [] {
      AppendWhole(held, rest.current, []);
    }
  }

  lemma ScanStep(held: seq<Byte>, data: seq<Byte>)
    requires Partial(held) && data != []
    ensures var a := Append(held, data);
            var r := Scan(a.held, data[a.used..]);
            Scan(held, data).0 == r.0 && Scan(held, data).1 == a.parsed + r.1
  {
  }

  lemma ScanWhole(s: seq<Byte>, tail: seq<Byte>)
    requires IsSection(s)
    ensures Scan([], s + tail).0 == Scan([], tail).0 && Scan([], s + tail).1 == [s] + Scan([], tail).1
  {
    SectionNonEmpty(s);
    hide IsSection, Append, Scan;
    assert [] + s == s;
    AppendWhole([], s, tail);
    ScanStep([], s + tail);
    assert (s + tail)[|s|..] == tail;
  }

  lemma ScanCut(s: seq<Byte>, n: nat)
    requires IsSection(s) && 0 < n < |s|
    ensures Partial(s[..n]) && Scan([], s[..n]).0 == s[..n] && Scan([], s[..n]).1 == []
  {
    hide IsSection, Append, Scan;
    assert [] + s[..n] + s[n..] == s && [] + s[..n] == s[..n];
    AppendPiece([], s[..n], s[n..]);
    ScanStep([], s[..n]);
    assert s[..n][n..] == [];
    ScanNothing(s[..n]);
  }

  /** The last section, cut off by the end of the payload, is held. */
  lemma ScanLaidCut(data: seq<Byte>, todo: seq<seq<Byte>>)
    requires AllSections(todo) && LaidInto(data, todo).Some?
    requires !AllStuffing(data) && |data| < |todo[0]|
    ensures var rest := LaidInto(data, todo).value;
            var r := Scan([], data);
            InStep(r.0, rest) && r.1 + Due(r.0, rest) == todo
  {
    hide IsSection, Append, Scan, AllStuffing;
    var s := todo[0];
    assert data != [] by { NothingIsStuffing(); }
    assert s[..|data|] + s[|data|..] == s;
    ScanCut(s, |data|);
    assert todo == [s] + todo[1..];
  }

  lemma InFront(s: seq<Byte>, out: seq<seq<Byte>>, due: seq<seq<Byte>>, todo: seq<seq<Byte>>)
    requires todo != [] && todo[0] == s && out + due == todo[1..]
    ensures [s] + out + due == todo
  {
    assert todo == [s] + todo[1..];
  }

  lemma LaidIntoOn(data: seq<Byte>, todo: seq<seq<Byte>>)
    requires AllSections(todo) && LaidInto(data, todo).Some?
    requires !AllStuffing(data) && |data| >= |todo[0]|
    ensures IsSection(todo[0]) && AllSections(todo[1..])
    ensures data == todo[0] + data[|todo[0]|..]
    ensures LaidInto(data, todo) == LaidInto(data[|todo[0]|..], todo[1..])
  {
    hide IsSection, AllStuffing;
  }

  /** Sections laid into a payload come out, in order; the one cut off is held. */
  lemma {:induction false} ScanLaid(data: seq<Byte>, todo: seq<seq<Byte>>)
    requires AllSections(todo) && LaidInto(data, todo).Some?
    ensures var rest := LaidInto(data, todo).value;
            var r := Scan([], data);
            InStep(r.0, rest) && r.1 + Due(r.0, rest) == todo
    decreases |todo|
  {
    hide IsSection, Append, Scan, AllStuffing;
    if AllStuffing(data) {
      ScanStuffing(data);
      assert LaidInto(data, todo) == Some(Rest([], todo));
      assert [] + Due([], Rest([], todo)) == todo;
    } else if |data| < |todo[0]| {
      ScanLaidCut(data, todo);
    } else {
      LaidIntoOn(data, todo);
      hide InStep, LaidInto, AllSections, Due;
      var s, tail := todo[0], data[|todo[0]|..];
      ScanWhole(s, tail);
      ScanLaid(tail, todo[1..]);
      InFront(s, Scan([], tail).1, Due(Scan([], tail).0, LaidInto(tail, todo[1..]).value), todo);
    }
  }

  lemma NothingIsStuffing()
    ensures AllStuffing([])
  {
  }

  lemma SectionNonEmpty(s: seq<Byte>)
    requires IsSection(s)
    ensures s != []
  {
  }

  lemma ScanNothing(held: seq<Byte>)
    requires Partial(held)
    ensures Scan(held, []).0 == held && Scan(held, []).1 == []
  {
  }

  /** One payload keeps the scanner in step, and hands on exactly what fell due. */
  lemma ProcessLaid(held: seq<Byte>, rest: Rest, p: Payload)
    requires AllSections(rest.todo) && InStep(held, rest) && LaidOut(rest, p).Some?
    ensures Partial(held)
    ensures var next := LaidOut(rest, p).value;
            var r := Process(held, p);
            InStep(r.0, next) && r.1 + Due(r.0, next) == Due(held, rest)
  {
    InStepIsPartial(held, rest);
    if p.data != [] {
      if p.start {
        ProcessStart(held, rest, p);
      } else {
        ProcessOther(held, rest, p);
      }
    }
  }

  lemma ProcessStart(held: seq<Byte>, rest: Rest, p: Payload)
    requires AllSections(rest.todo) && InStep(held, rest) && LaidOut(rest, p).Some? && Partial(held)
    requires p.data != [] && p.start
    ensures var next := LaidOut(rest, p).value;
            var r := Process(held, p);
            InStep(r.0, next) && r.1 + Due(r.0, next) == Due(held, rest)
  {
    hide IsSection, Append, Scan, LaidInto, AllStuffing;
    var n := |rest.current|;
    ScanLaid(p.data[1 + n..], rest.todo);
    if n > 0 {
      AppendWhole(held, rest.current, []);
      assert rest.current + [] == rest.current;
    }
  }

  lemma ProcessOther(held: seq<Byte>, rest: Rest, p: Payload)
    requires AllSections(rest.todo) && InStep(held, rest) && LaidOut(rest, p).Some? && Partial(held)
    requires p.data != [] && !p.start
    ensures var next := LaidOut(rest, p).value;
            var r := Process(held, p);
            InStep(r.0, next) && r.1 + Due(r.0, next) == Due(held, rest)
  {
    hide IsSection, Append, Scan, LaidInto;
    var n := |rest.current|;
    ScanStep(held, p.data);
    if n == 0 {
      ScanStuffing(p.data);
    } else if |p.data| < n {
      assert held + p.data + rest.current[|p.data|..] == held + rest.current;
      AppendPiece(held, p.data, rest.current[|p.data|..]);
      assert p.data[|p.data|..] == [];
      ScanNothing(held + p.data);
    } else {
      assert p.data == rest.current + p.data[n..];
      AppendWhole(held, rest.current, p.data[n..]);
      ScanStuffing(p.data[n..]);
    }
  }

  lemma {:induction false} CarriedDue(held: seq<Byte>, rest: Rest, payloads: seq<Payload>)
    requires AllSections(rest.todo) && InStep(held, rest) && Carries(payloads, rest)
    ensures Partial(held)
    ensures ProcessAll(held, payloads).0 == []
    ensures ProcessAll(held, payloads).1 == Due(held, rest)
    decreases |payloads|
  {
    hide AllSections, InStep, Process, LaidOut, Partial, Due;
    InStepIsPartial(held, rest);
    if payloads == [] {
      NothingDue(held, rest);
    } else {
      var p := payloads[0];
      LaidIntoSectionsOut(rest, p);
      ProcessLaid(held, rest, p);
      CarriedDue(Process(held, p).0, LaidOut(rest, p).value, payloads[1..]);
    }
  }

  lemma NothingDue(held: seq<Byte>, rest: Rest)
    requires InStep(held, rest) && rest == Rest([], [])
    ensures held == [] && Due(held, rest) == []
  {
  }

  /** Sections of 3 to 4096 bytes laid into payloads as the standard prescribes, headers split anywhere,
      are handed to the parser exactly once each, in order, whole, and nothing else is. */
  lemma SectionsArrive(sections: seq<seq<Byte>>, payloads: seq<Payload>)
    requires AllSections(sections) && Carries(payloads, Rest([], sections))
    ensures Partial([]) && ProcessAll([], payloads).0 == [] && ProcessAll([], payloads).1 == sections
  {
    CarriedDue([], Rest([], sections), payloads);
  }

  lemma {:induction false} ProcessAllConcat(held: seq<Byte>, x: seq<Payload>, y: seq<Payload>)
    requires Partial(held)
    ensures ProcessAll(held, x + y).0 == ProcessAll(ProcessAll(held, x).0, y).0
    ensures ProcessAll(held, x + y).1 == ProcessAll(held, x).1 + ProcessAll(ProcessAll(held, x).0, y).1
    decreases |x|
  {
    hide Partial, Process;
    if x == [] {
      assert x + y == y;
    } else {
      assert (x + y)[0] == x[0] && (x + y)[1..] == x[1..] + y;
      ProcessAllConcat(Process(held, x[0]).0, x[1..], y);
    }
  }

  /** Whatever came before, noise included, from the first payload that starts a section at once all
      sections arrive again. */
  lemma SectionsArriveAfterNoise(noise: seq<Payload>, sections: seq<seq<Byte>>, payloads: seq<Payload>)
    requires AllSections(sections) && payloads != [] && payloads[0].start
    requires Carries(payloads, Rest([], sections))
    ensures Partial([]) && ProcessAll([], noise + payloads).0 == []
    ensures ProcessAll([], noise + payloads).1 == ProcessAll([], noise).1 + sections
  {
    hide Carries;
    var held := ProcessAll([], noise).0;
    ProcessAllConcat([], noise, payloads);
    SectionsArrive(sections, payloads);
    StartForgets(held, sections, payloads);
  }

  lemma StartForgets(held: seq<Byte>, sections: seq<seq<Byte>>, payloads: seq<Payload>)
    requires Partial(held) && AllSections(sections) && payloads != [] && payloads[0].start
    requires Carries(payloads, Rest([], sections))
    ensures Partial([]) && ProcessAll(held, payloads) == ProcessAll([], payloads)
  {
  }

  /** On any payloads at all, only byte strings of the announced size, at most 4096, are handed on. */
  lemma {:induction false} ScanWellFormed(held: seq<Byte>, data: seq<Byte>)
    requires Partial(held)
    ensures forall i :: 0 <= i < |Scan(held, data).1| ==> HasItsSize(Scan(held, data).1[i])
    decreases |data|
  {
    hide HasItsSize, Append;
    if data != [] {
      var a := Append(held, data);
      AppendWellFormed(held, data);
      ScanWellFormed(a.held, data[a.used..]);
    }
  }

  predicate HasItsSize(s: seq<Byte>) { 3 <= |s| <= 4096 && |s| == Announced(s) }

  lemma AppendWellFormed(held: seq<Byte>, data: seq<Byte>)
    requires Partial(held) && data != []
    ensures forall i :: 0 <= i < |Append(held, data).parsed| ==> HasItsSize(Append(held, data).parsed[i])
  {
    var all := held + data;
    AnnouncedKept(held, data);
    if |all| >= 3 && |all| >= Announced(all) {
      AnnouncedKept(all[..Announced(all)], all[Announced(all)..]);
      assert all[..Announced(all)] + all[Announced(all)..] == all;
    }
  }

  lemma {:induction false} OnlySectionsParsed(held: seq<Byte>, payloads: seq<Payload>)
    requires Partial(held)
    ensures forall i :: 0 <= i < |ProcessAll(held, payloads).1| ==> HasItsSize(ProcessAll(held, payloads).1[i])
    decreases |payloads|
  {
    hide HasItsSize, Append, Scan;
    if payloads != [] {
      var p := payloads[0];
      if p.data != [] {
        if !p.start {
          ScanWellFormed(held, p.data);
        } else if p.data[0] as nat <= |p.data| - 1 {
          var n := p.data[0] as nat;
          if n > 0 { AppendWellFormed(held, p.data[1..1 + n]); }
          ScanWellFormed([], p.data[1 + n..]);
        }
      }
      OnlySectionsParsed(Process(held, p).0, payloads[1..]);
    }
  }

  /* ---- the scanner ---- */

  /** How a call of append_section can end: with all its input collected, with a section complete, or
      giving up on one that would not fit. */
  lemma AppendEnds(held: seq<Byte>, data: seq<Byte>, n: nat)
    requires Partial(held) && 0 < n <= |data| && !(held == [] && data[0] == STUFFING)
    ensures var now := held + data[..n];
            && (Partial(now) && n == |data| ==> Append(held, data) == Appended(now, n, []))
            && (|now| >= 3 && |now| == Announced(now) <= MAX_SECTION ==> Append(held, data) == Appended([], n, [now]))
            && (|now| == 3 && Announced(now) > MAX_SECTION ==> Append(held, data) == Appended([], n, []))
  {
    var now, all := held + data[..n], held + data;
    assert all == now + data[n..];
    AnnouncedKept(held, data);
    AnnouncedKept(now, data[n..]);
    assert data[..|data|] == data;
    assert all[..|now|] == now;
  }

  /** The collecting buffer of one pid; `parsed` records the calls of parse_section. */
  class Context {
    const data: array<Byte>
    var length: nat
    var expected: nat
    var active: bool
    ghost var parsed: seq<seq<Byte>>

    /** What also holds just after a section was begun. */
    ghost predicate Collecting()
      reads this, data
    {
      && data.Length == MAX_SECTION && length <= MAX_SECTION && Partial(data[..length])
      && expected == (if length < 3 then 0 else Announced(data[..length]))
      && (length > 0 ==> active)
    }

    ghost predicate Valid()
      reads this, data
    {
      Collecting() && (active ==> length > 0)
    }

    ghost function Held(): seq<Byte>
      requires length <= data.Length
      reads this, data
    {
      data[..length]
    }

    constructor ()
      ensures Valid() && Held() == [] && parsed == [] && fresh(data)
    {
      data := new Byte[MAX_SECTION](_ => 0);
      length, expected, active, parsed := 0, 0, false, [];
    }

    method Reset()
      requires data.Length == MAX_SECTION
      modifies `length, `expected, `active
      ensures Valid() && Held() == []
    {
      length, expected, active := 0, 0, false;
      assert data[..0] == [];
    }

    /** One turn of the loop: a byte of the header, or as much of the rest as there is. */
    method CollectSome(input: seq<Byte>) returns (n: nat)
      requires Collecting() && input != []
      modifies `length, `expected, data
      ensures 0 < n <= |input| && length <= data.Length
      ensures Held() == old(Held()) + input[..n]
      ensures expected == if length < 3 then 0 else Announced(Held())
      ensures if expected > MAX_SECTION then length == 3 else length < 3 || length <= expected
    {
      hide Announced, Splice;
      ghost var held := Held();
      if length < 3 {
        data[length] := input[0];
        n := 1;
        length := length + 1;
        assert Held() == held + input[..n];
        if length == 3 {
          HeaderIsNoLonger(data[..length]);
          expected := 3 + SectionLength(data[1], data[2]);
        }
      } else {
        var need := expected - length;
        n := if need < |input| then need else |input|;
        SpliceParts(data[..], length, input[..n]);
        Write(data, length, input[..n]);
        AnnouncedKept(held, input[..n]);
        assert data[..][..length + n] == held + input[..n];
        length := length + n;
      }
    }

    /** One turn of the loop of append_section; leaving the loop early is leaving it inactive. */
    method Turn(ghost held: seq<Byte>, input: seq<Byte>, consumed: nat) returns (next: nat)
      requires Collecting() && active && Partial(held) && consumed < |input|
      requires Held() == held + input[..consumed] && !(held == [] && input[0] == STUFFING)
      modifies this, data
      ensures consumed < next <= |input| && Collecting()
      ensures active ==> length > 0 && parsed == old(parsed) && Held() == held + input[..next]
      ensures !active ==> Held() == []
      ensures !active ==> Append(held, input).held == [] && Append(held, input).used == next
      ensures !active ==> parsed == old(parsed) + Append(held, input).parsed
    {
      hide Append, Announced;
      var n := CollectSome(input[consumed..]);
      next := consumed + n;
      TakeMore(input, consumed, n);
      ghost var now := Held();
      assert now == held + input[..next];
      if expected > MAX_SECTION {
        AppendEnds(held, input, next);
        Reset();
      } else if expected != 0 && length == expected {
        AppendEnds(held, input, next);
        parsed := parsed + [data[..expected]];
        Reset();
      }
    }

    method AppendSection(input: seq<Byte>) returns (consumed: nat)
      requires Valid()
      modifies this, data
      ensures Valid()
      ensures Append(old(Held()), input).held == Held() && Append(old(Held()), input).used == consumed
      ensures parsed == old(parsed) + Append(old(Held()), input).parsed
    {
      hide Append, Announced;
      ghost var held := Held();
      consumed := 0;
      AppendNothing(held);
      if !active && |input| != 0 {
        if input[0] == STUFFING {
          AppendStuffing(input);
          consumed := |input|;
          return;
        }
        active := true;
      }
      while consumed < |input| && active
        invariant consumed <= |input| && Collecting()
        invariant active ==> parsed == old(parsed) && Held() == held + input[..consumed]
        invariant active ==> (consumed == 0 && |input| > 0) || length > 0
        invariant !active ==> Held() == []
        invariant !active ==> Append(held, input).held == [] && Append(held, input).used == consumed
        invariant !active ==> parsed == old(parsed) + Append(held, input).parsed
        decreases |input| - consumed
      {
        consumed := Turn(held, input, consumed);
      }
      if |input| != 0 {
        AppendEnds(held, input, |input|);
      }
    }

    /** The bytes before the first section that starts: the end of the one under way, if there is one. */
    method EndSection(input: seq<Byte>)
      requires Valid()
      modifies this, data
      ensures Valid() && Held() == []
      ensures parsed == old(parsed) + if old(Held()) != [] && input != [] then Append(old(Held()), input).parsed else []
    {
      hide Append;
      if active && |input| != 0 {
        var used := AppendSection(input);
      }
      Reset();
    }

    method ProcessPayload(payload: seq<Byte>, start: bool)
      requires Valid()
      modifies this, data
      ensures Valid()
      ensures Held() == Process(old(Held()), Payload(payload, start)).0
      ensures parsed == old(parsed) + Process(old(Held()), Payload(payload, start)).1
    {
      hide Append, Scan, Partial, Process;
      ghost var held := Held();
      ProcessCases(held, Payload(payload, start));
      if |payload| == 0 {
        return;
      }
      var pos := 0;
      if start {
        var pointer := payload[0] as nat;
        pos := 1;
        if pointer > |payload| - pos {
          Reset();
          return;
        }
        EndSection(payload[pos..pos + pointer]);
        pos := pos + pointer;
      }
      ScanRest(payload[pos..]);
      assert payload[0..] == payload;
    }

    /** The loop at the end of process_payload. Every call takes something, so it never breaks off. */
    method ScanRest(rest: seq<Byte>)
      requires Valid()
      modifies this, data
      ensures Valid()
      ensures Held() == Scan(old(Held()), rest).0
      ensures parsed == old(parsed) + Scan(old(Held()), rest).1
    {
      hide Append, Scan;
      ghost var held := Held();
      var pos := 0;
      assert rest[0..] == rest;
      while pos < |rest|
        invariant pos <= |rest| && Valid()
        invariant Scan(held, rest).0 == Scan(Held(), rest[pos..]).0
        invariant old(parsed) + Scan(held, rest).1 == parsed + Scan(Held(), rest[pos..]).1
      {
        ScanStep(Held(), rest[pos..]);
        var used := AppendSection(rest[pos..]);
        assert used != 0;
        assert rest[pos..][used..] == rest[pos + used..];
        pos := pos + used;
      }
      assert rest[pos..] == [];
      ScanNothing(Held());
    }
  }

  lemma ProcessCases(held: seq<Byte>, p: Payload)
    requires Partial(held)
    ensures Partial([])
    ensures p.data == [] ==> Process(held, p).0 == held && Process(held, p).1 == []
    ensures p.data != [] && !p.start ==> Process(held, p) == Scan(held, p.data)
    ensures p.data != [] && p.start ==>
              var n := p.data[0] as nat;
              if n > |p.data| - 1 then Process(held, p).0 == [] && Process(held, p).1 == []
              else
                && Process(held, p).0 == Scan([], p.data[1 + n..]).0
                && Process(held, p).1 == (if held != [] && n > 0 then Append(held, p.data[1..1 + n]).parsed else [])
                                         + Scan([], p.data[1 + n..]).1
  {
  }

  lemma TakeMore(s: seq<Byte>, i: nat, n: nat)
    requires i + n <= |s|
    ensures s[..i] + s[i..][..n] == s[..i + n]
  {
  }

  lemma HeaderIsNoLonger(data: seq<Byte>)
    requires |data| == 3
    ensures Announced(data) == 3 + SectionLength(data[1], data[2]) && Announced(data) >= 3
  {
  }

  lemma AppendNothing(held: seq<Byte>)
    requires Partial(held)
    ensures Append(held, []) == Appended(held, 0, [])
  {
  }

  lemma AppendStuffing(data: seq<Byte>)
    requires data != [] && data[0] == STUFFING
    ensures Append([], data) == Appended([], |data|, [])
  {
  }
}
