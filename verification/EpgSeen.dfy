/** The table of events already sent, engine/usb_dvbs2_engine.c: open addressing with linear
    probing over 8192 slots, cleared when three quarters full. It refines a set. */
module EpgSeen {
  const SLOTS := 8192
  const TWO_64 := 0x1_0000_0000_0000_0000

  /** Service, event and table version; never zero, so that zero can mean an empty slot. */
  function Key(serviceId: nat, eventId: nat, version: int): (key: nat)
    requires serviceId < 0x1_0000 && eventId < 0x1_0000
    ensures key > 0
  {
    serviceId * 0x100_0000 + eventId * 0x100 + version % 32 + 0x100_0000_0000
  }

  /** Two events share a key only if they are the same event with the same version modulo 32. */
  lemma KeyInjective(s1: nat, e1: nat, v1: int, s2: nat, e2: nat, v2: int)
    requires s1 < 0x1_0000 && e1 < 0x1_0000 && s2 < 0x1_0000 && e2 < 0x1_0000
    ensures Key(s1, e1, v1) == Key(s2, e2, v2) <==> s1 == s2 && e1 == e2 && v1 % 32 == v2 % 32
  {
    var low1, low2 := e1 * 0x100 + v1 % 32, e2 * 0x100 + v2 % 32;
    if Key(s1, e1, v1) == Key(s2, e2, v2) {
      assert (s1 - s2) * 0x100_0000 == low2 - low1;
      assert s1 == s2;
      assert (e1 - e2) * 0x100 == v2 % 32 - v1 % 32;
    }
  }

  /** The slot a search for `key` starts at: a product in 64 bits, its high bits, modulo the size. */
  function Home(key: nat): (slot: nat)
    ensures slot < SLOTS
  {
    key * 1099511628211 % TWO_64 / 0x100_0000_0000 % SLOTS
  }

  /* ---- probing ---- */

  /** The slot `d` places after `home`, around the end of the table. */
  function Probe(home: nat, d: nat): (slot: nat)
    requires home < SLOTS && d < SLOTS
    ensures slot < SLOTS
  {
    if home + d < SLOTS then home + d else home + d - SLOTS
  }

  /** How many places after `home` a slot is. */
  function Distance(home: nat, slot: nat): (d: nat)
    requires home < SLOTS && slot < SLOTS
    ensures d < SLOTS && Probe(home, d) == slot
  {
    if home <= slot then slot - home else slot + SLOTS - home
  }

  type Table = t: seq<nat> | |t| == SLOTS witness seq(SLOTS, _ => 0)

  /** No hole lies between a key's home and the key. */
  ghost predicate NoHoles(t: Table) {
    forall j, d :: 0 <= j < SLOTS && t[j] != 0 && 0 <= d < Distance(Home(t[j]), j) ==> t[Probe(Home(t[j]), d)] != 0
  }

  ghost predicate NoDuplicates(t: Table) {
    forall i, j :: 0 <= i < j < SLOTS && t[i] != 0 ==> t[i] != t[j]
  }

  ghost function Occupied(t: Table): set<nat> {
    set i | 0 <= i < SLOTS && t[i] != 0
  }

  ghost function Keys(t: Table): set<nat> {
    set i | 0 <= i < SLOTS && t[i] != 0 :: t[i]
  }

  ghost predicate Good(t: Table) {
    NoHoles(t) && NoDuplicates(t)
  }

  /* ---- counting ---- */

  ghost function Below(n: nat): (s: set<nat>)
    ensures |s| == n && forall i: nat :: i in s <==> i < n
  {
    if n == 0 then {} else Below(n - 1) + {n - 1}
  }

  /** A table not full has an empty slot. */
  lemma EmptySlotExists(t: Table)
    requires |Occupied(t)| < SLOTS
    ensures exists i :: 0 <= i < SLOTS && t[i] == 0
  {
    var all := Below(SLOTS);
    assert Occupied(t) <= all && Occupied(t) != all;
    var i :| i in all && i !in Occupied(t);
    assert t[i] == 0;
  }

  lemma OccupiedAfter(t: Table, slot: nat, key: nat)
    requires slot < SLOTS && t[slot] == 0 && key != 0
    ensures Occupied(t[slot := key]) == Occupied(t) + {slot}
    ensures Keys(t[slot := key]) == Keys(t) + {key}
  {
    var u := t[slot := key];
    forall k | k in Keys(t) + {key}
      ensures k in Keys(u)
    {
      if k == key {
        assert u[slot] == k;
      } else {
        var i :| 0 <= i < SLOTS && t[i] != 0 && t[i] == k;
        assert u[i] == k;
      }
    }
  }

  /** As many keys as occupied slots. */
  lemma KeysCounted(t: Table)
    requires NoDuplicates(t)
    ensures |Keys(t)| == |Occupied(t)|
  {
    KeysOf(t, Occupied(t));
  }

  ghost function Image(t: Table, slots: set<nat>): set<nat>
    requires forall i :: i in slots ==> i < SLOTS
  {
    set i | i in slots :: t[i]
  }

  lemma {:induction false} KeysOf(t: Table, slots: set<nat>)
    requires NoDuplicates(t) && slots <= Occupied(t)
    ensures |Image(t, slots)| == |slots|
    ensures slots == Occupied(t) ==> Image(t, slots) == Keys(t)
    decreases slots
  {
    if slots != {} {
      var i :| i in slots;
      KeysOf(t, slots - {i});
      OneMoreImage(t, slots, i);
    }
  }

  lemma OneMoreImage(t: Table, slots: set<nat>, i: nat)
    requires NoDuplicates(t) && slots <= Occupied(t) && i in slots
    ensures Image(t, slots) == Image(t, slots - {i}) + {t[i]} && t[i] !in Image(t, slots - {i})
  {
  }

  /* ---- searching and inserting ---- */

  /** Nothing but other keys along the first `d` probes. */
  ghost predicate Passed(t: Table, key: nat, d: nat)
    requires d <= SLOTS
  {
    forall e :: 0 <= e < d ==> t[Probe(Home(key), e)] != 0 && t[Probe(Home(key), e)] != key
  }

  /** An empty slot on a key's path means the key is nowhere in the table. */
  lemma EmptyMeansAbsent(t: Table, key: nat, d: nat)
    requires Good(t) && d < SLOTS && key != 0 && Passed(t, key, d) && t[Probe(Home(key), d)] == 0
    ensures key !in Keys(t)
  {
    hide Home;
    var home := Home(key);
    forall j | 0 <= j < SLOTS
      ensures t[j] != key
    {
      var e := Distance(home, j);
      assert t[Probe(home, e)] == t[j];
    }
  }

  /** Taking that slot keeps the table good. */
  lemma InsertKeepsGood(t: Table, key: nat, d: nat)
    requires Good(t) && d < SLOTS && key != 0 && Passed(t, key, d) && t[Probe(Home(key), d)] == 0
    ensures Good(t[Probe(Home(key), d) := key])
  {
    hide Home;
    EmptyMeansAbsent(t, key, d);
    var slot := Probe(Home(key), d);
    var u := t[slot := key];
    assert Distance(Home(key), slot) == d;
    forall j, e | 0 <= j < SLOTS && u[j] != 0 && 0 <= e < Distance(Home(u[j]), j)
      ensures u[Probe(Home(u[j]), e)] != 0
    {
      if j != slot {
        assert t[Probe(Home(t[j]), e)] != 0;
      }
    }
    forall i, j | 0 <= i < j < SLOTS && u[i] != 0
      ensures u[i] != u[j]
    {
      assert t[i] != 0 ==> t[i] in Keys(t);
      assert t[j] != 0 ==> t[j] in Keys(t);
    }
  }

  /** All slots passed: there would be no empty one. */
  lemma PassedAllMeansFull(t: Table, key: nat, i: nat)
    requires Passed(t, key, SLOTS) && i < SLOTS
    ensures t[i] != 0
  {
    hide Home;
    var d := Distance(Home(key), i);
    assert t[Probe(Home(key), d)] != 0;
  }

  class Seen {
    const table: array<nat>
    var count: nat

    /** Probe chains without holes, no key twice, a count that is the number of occupied slots and
        never passes three quarters of the slots. */
    ghost predicate Valid()
      reads this, table
    {
      && table.Length == SLOTS && Good(table[..])
      && count == |Occupied(table[..])| == |Keys(table[..])| && count * 4 <= SLOTS * 3
    }

    ghost function Sent(): set<nat>
      reads this, table
      requires table.Length == SLOTS
    {
      Keys(table[..])
    }

    constructor ()
      ensures Valid() && Sent() == {} && fresh(table)
    {
      table := new nat[SLOTS](_ => 0);
      count := 0;
      new;
      assert Occupied(table[..]) == {} && Keys(table[..]) == {};
    }

    /** As a channel change does. */
    method Clear()
      requires table.Length == SLOTS
      modifies this, table
      ensures Valid() && Sent() == Next(old(Sent()), ChannelChange) == {}
    {
      for i := 0 to SLOTS
        invariant forall j :: 0 <= j < i ==> table[j] == 0
      {
        table[i] := 0;
      }
      count := 0;
      assert Occupied(table[..]) == {} && Keys(table[..]) == {};
    }

    /** Whether the event was sent since the table was last cleared; it is from now on. */
    method AlreadySent(serviceId: nat, eventId: nat, version: int) returns (sent: bool)
      requires Valid() && serviceId < 0x1_0000 && eventId < 0x1_0000
      modifies this, table
      ensures Valid()
      ensures var key := Key(serviceId, eventId, version);
              sent == (key in Kept(old(Sent()))) && Sent() == Next(old(Sent()), Call(key))
    {
      hide Key, Home, Good, Keys, Occupied;
      assert Sent() == Keys(table[..]);
      var key := Key(serviceId, eventId, version);
      var home := Home(key);
      var slot := home;
      if count * 4 >= SLOTS * 3 {
        Clear();
      }
      assert Sent() == Kept(old(Sent()));
      ghost var t := table[..];
      ghost var before := Sent();
      EmptySlotExists(t);
      var tries := 0;
      while tries < SLOTS
        invariant tries <= SLOTS && Valid() && table[..] == t && Sent() == before && count * 4 < SLOTS * 3
        invariant slot == if tries < SLOTS then Probe(home, tries) else home
        invariant Passed(t, key, tries)
      {
        if table[slot] == key {
          FoundKey(t, slot, key);
          assert before + {key} == before;
          return true;
        }
        if table[slot] == 0 {
          EmptyMeansAbsent(t, key, tries);
          InsertKeepsGood(t, key, tries);
          OccupiedAfter(t, slot, key);
          NotOccupied(t, slot);
          table[slot] := key;
          count := count + 1;
          assert table[..] == t[slot := key];
          return false;
        }
        slot := (slot + 1) % SLOTS;
        tries := tries + 1;
      }
      ghost var i :| 0 <= i < SLOTS && t[i] == 0;
      PassedAllMeansFull(t, key, i);
      assert false;
    }
  }

  lemma FoundKey(t: Table, slot: nat, key: nat)
    requires slot < SLOTS && t[slot] == key && key != 0
    ensures key in Keys(t)
  {
  }

  lemma NotOccupied(t: Table, slot: nat)
    requires slot < SLOTS && t[slot] == 0
    ensures slot !in Occupied(t)
  {
  }

  /* ---- whole runs ---- */

  /** A section's event looked up and remembered, or a channel change. */
  datatype Step = Call(key: nat) | ChannelChange

  /** What is remembered after a step, and after a run from an empty table. */
  ghost function Next(sent: set<nat>, step: Step): set<nat> {
    match step
    case Call(key) => Kept(sent) + {key}
    case ChannelChange => {}
  }

  ghost function After(run: seq<Step>): set<nat> {
    if run == [] then {} else Next(After(run[..|run| - 1]), run[|run| - 1])
  }

  ghost function Kept(sent: set<nat>): set<nat> {
    if Full(sent) then {} else sent
  }

  /** Three quarters of the slots are taken. */
  ghost predicate Full(sent: set<nat>) { |sent| * 4 >= SLOTS * 3 }

  /** Where the latest clearing happened, by a channel change or because the table was full: the steps from
      there on are the ones remembered. */
  ghost function LastCleared(run: seq<Step>): (k: nat)
    ensures k <= |run|
  {
    if run == [] then 0
    else
      var earlier := run[..|run| - 1];
      if run[|run| - 1].ChannelChange? then |run|
      else if Full(After(earlier)) then |run| - 1
      else LastCleared(earlier)
  }

  /** A key is remembered exactly when a call since the last clearing was for it. */
  lemma {:induction false} RemembersSinceCleared(run: seq<Step>, key: nat)
    ensures key in After(run) <==> Call(key) in run[LastCleared(run)..]
    decreases |run|
  {
    if run != [] {
      var earlier, last := run[..|run| - 1], run[|run| - 1];
      RemembersSinceCleared(earlier, key);
      var k := LastCleared(run);
      if last.Call? {
        assert run[k..] == run[k..|run| - 1] + [last];
        assert run[k..|run| - 1] == earlier[k..];
      }
    }
  }

  /** No channel change comes from there on, and the table never was full there. */
  lemma {:induction false} NotClearedSince(run: seq<Step>)
    ensures ChannelChange !in run[LastCleared(run)..]
    ensures forall i :: LastCleared(run) < i < |run| ==> !Full(After(run[..i]))
    decreases |run|
  {
    hide After;
    if run != [] {
      var earlier, last, k := run[..|run| - 1], run[|run| - 1], LastCleared(run);
      NotClearedSince(earlier);
      assert last.Call? ==> run[k..] == earlier[k..] + [last];
      forall i | k < i < |run|
        ensures !Full(After(run[..i]))
      {
        assert run[..i] == earlier[..i];
        if i == |earlier| { assert earlier[..i] == earlier; }
      }
    }
  }

  /** Without a channel change, and while fewer than three quarters of the slots' worth of distinct events
      have been seen, nothing is ever forgotten. */
  lemma {:induction false} NothingForgotten(run: seq<Step>)
    requires ChannelChange !in run && forall i :: 0 <= i <= |run| ==> !Full(After(run[..i]))
    ensures LastCleared(run) == 0
    decreases |run|
  {
    if run != [] {
      var earlier := run[..|run| - 1];
      forall i | 0 <= i <= |earlier|
        ensures !Full(After(earlier[..i]))
      {
        assert earlier[..i] == run[..i];
      }
      assert earlier[..|earlier|] == earlier;
      NothingForgotten(earlier);
    }
  }

  /** The distinct events called for since the last channel change. */
  ghost function Called(run: seq<Step>): set<nat> {
    if run == [] || run[|run| - 1].ChannelChange? then {}
    else Called(run[..|run| - 1]) + {run[|run| - 1].key}
  }

  /** Up to 6144 distinct events of a channel are all remembered, however often each is repeated. */
  lemma {:induction false} AllOfChannelRemembered(run: seq<Step>)
    requires forall i :: 0 <= i < |run| ==> |Called(run[..i])| < 6144
    ensures After(run) == Called(run)
    decreases |run|
  {
    if run != [] {
      var earlier := run[..|run| - 1];
      forall i | 0 <= i < |earlier|
        ensures |Called(earlier[..i])| < 6144
      {
        assert earlier[..i] == run[..i];
      }
      AllOfChannelRemembered(earlier);
    }
  }

  /** With the 6144th they are forgotten: the next call finds the table empty, whatever it is for. */
  lemma ForgottenWhenFull(run: seq<Step>, key: nat)
    requires forall i :: 0 <= i < |run| ==> |Called(run[..i])| < 6144
    requires |Called(run)| >= 6144
    ensures After(run + [Call(key)]) == {key}
  {
    AllOfChannelRemembered(run);
    assert (run + [Call(key)])[..|run|] == run;
  }
}
