/** The key and ECM store of the CAM client, core/dtv_camd.c. Every operation holds the lock from its
    first access to its last, so a run of the program is a sequence of these steps, whichever of the
    three threads takes each: the stream thread submits ECMs and reads keys, the command thread selects
    services, the worker takes ECMs, publishes control words and rotates candidates. */
module CamStore {
  import opened Bytes
  import opened Buffers

  const MAX_ECM := 512
  const MAX_CANDIDATES := 8
  const WRAP := 0x1_0000_0000

  datatype Candidate = Candidate(caSystem: nat, provider: nat, ecmPid: nat)

  type HalfWord = k: seq<Byte> | |k| == 8 witness [0, 0, 0, 0, 0, 0, 0, 0]
  const ZERO: HalfWord := [0, 0, 0, 0, 0, 0, 0, 0]

  /** What the lock guards. An empty ECM is none. */
  datatype Store = Store(
    service: nat, candidates: seq<Candidate>, index: nat,
    pending: seq<Byte>, last: seq<Byte>,
    even: HalfWord, odd: HalfWord, evenValid: bool, oddValid: bool, generation: nat)

  const CREATED := Store(0, [], 0, [], [], ZERO, ZERO, false, false, 0)

  datatype Step =
    | Submit(section: seq<Byte>)
    | Take
    | Publish(even: HalfWord, odd: HalfWord)
    | Rotate
    | SetService(id: nat, candidates: seq<Candidate>)
    | GetKeys

  /** An ECM: 3 to 512 bytes of one of its two table ids. */
  predicate IsEcm(section: seq<Byte>) {
    3 <= |section| <= MAX_ECM && (section[0] == 0x80 || section[0] == 0x81)
  }

  function Next(s: Store, step: Step): Store {
    match step
    case Submit(section) =>
      if IsEcm(section) && s.last != section then s.(pending := section) else s
    case Take =>
      if s.pending != [] then s.(last := s.pending, pending := []) else s
    case Publish(even, odd) =>
      s.(even := if even != ZERO then even else s.even, evenValid := even != ZERO || s.evenValid,
         odd := if odd != ZERO then odd else s.odd, oddValid := odd != ZERO || s.oddValid,
         generation := (s.generation + 1) % WRAP)
    case Rotate =>
      s.(index := if |s.candidates| > 1 then (s.index + 1) % |s.candidates| else s.index, pending := [], last := [])
    case SetService(id, candidates) =>
      s.(service := id, candidates := AtMost(candidates, MAX_CANDIDATES), index := 0,
         evenValid := false, oddValid := false, generation := (s.generation + 1) % WRAP, pending := [], last := [])
    case GetKeys => s
  }

  function After(s: Store, run: seq<Step>): Store {
    if run == [] then s else Next(After(s, run[..|run| - 1]), run[|run| - 1])
  }

  lemma {:induction false} AfterConcat(s: Store, x: seq<Step>, y: seq<Step>)
    ensures After(s, x + y) == After(After(s, x), y)
    decreases |y|
  {
    if y == [] {
      assert x + y == x;
    } else {
      assert (x + y)[..|x + y| - 1] == x + y[..|y| - 1];
      AfterConcat(s, x, y[..|y| - 1]);
    }
  }

  /* ---- what holds in every reachable store ---- */

  predicate Sound(s: Store) {
    && |s.candidates| <= MAX_CANDIDATES
    && (if s.candidates == [] then s.index == 0 else s.index < |s.candidates|)
    && s.generation < WRAP
    && (s.pending != [] ==> IsEcm(s.pending) && s.pending != s.last)
    && (s.last != [] ==> IsEcm(s.last))
    && (s.pending == [] || s.last == [] || s.pending != s.last)
  }

  lemma {:induction false} EveryRunIsSound(s: Store, run: seq<Step>)
    requires Sound(s)
    ensures Sound(After(s, run))
    decreases |run|
  {
    if run != [] {
      EveryRunIsSound(s, run[..|run| - 1]);
    }
  }

  /** The candidate the worker asks for always exists. */
  lemma IndexInRange(run: seq<Step>)
    ensures var s := After(CREATED, run);
            |s.candidates| <= MAX_CANDIDATES && s.index < (if s.candidates == [] then 1 else |s.candidates|)
  {
    EveryRunIsSound(CREATED, run);
  }

  /* ---- keys and generations ---- */

  /** What get_keys hands out besides the generation. */
  function Keys(s: Store): (HalfWord, HalfWord, bool) { (s.even, s.odd, s.evenValid || s.oddValid) }

  predicate Updates(step: Step) { step.Publish? || step.SetService? }

  function CountUpdates(run: seq<Step>): (n: nat)
    ensures n <= |run|
  {
    if run == [] then 0
    else CountUpdates(run[..|run| - 1]) + if Updates(run[|run| - 1]) then 1 else 0
  }

  lemma {:induction false} GenerationCounts(s: Store, run: seq<Step>)
    requires s.generation < WRAP
    ensures After(s, run).generation == (s.generation + CountUpdates(run)) % 0x1_0000_0000
    decreases |run|
  {
    if run != [] {
      GenerationCounts(s, run[..|run| - 1]);
    }
  }

  lemma {:induction false} NoUpdateKeepsKeys(s: Store, run: seq<Step>)
    requires CountUpdates(run) == 0
    ensures Keys(After(s, run)) == Keys(s)
    decreases |run|
  {
    if run != [] {
      NoUpdateKeepsKeys(s, run[..|run| - 1]);
    }
  }

  /** Two readings of the same generation agree, whatever ran between them, as long as that was fewer
      than 2^32 updates; and the generations then differ whenever there was any update. */
  lemma SameGenerationSameKeys(before: seq<Step>, between: seq<Step>)
    requires CountUpdates(between) < 0x1_0000_0000
    ensures var a, b := After(CREATED, before), After(CREATED, before + between);
            && (a.generation == b.generation <==> CountUpdates(between) == 0)
            && (a.generation == b.generation ==> Keys(a) == Keys(b))
  {
    hide After, CountUpdates, Keys;
    var a := After(CREATED, before);
    EveryRunIsSound(CREATED, before);
    AfterConcat(CREATED, before, between);
    GenerationCounts(a, between);
    if CountUpdates(between) == 0 {
      NoUpdateKeepsKeys(a, between);
    }
  }

  function Repeat(step: Step, n: nat): (run: seq<Step>)
    ensures |run| == n
  {
    seq(n, _ => step)
  }

  lemma {:induction false} Republished(s: Store, even: HalfWord, n: nat)
    requires even != ZERO
    ensures CountUpdates(Repeat(Publish(even, ZERO), n)) == n
    ensures n > 0 ==> After(s, Repeat(Publish(even, ZERO), n)).even == even
  {
    if n > 0 {
      var run := Repeat(Publish(even, ZERO), n);
      assert run[..n - 1] == Repeat(Publish(even, ZERO), n - 1);
      Republished(s, even, n - 1);
    }
  }

  /** The bound is exact: the counter is 32 bits wide, and 2^32 updates bring it round to a generation
      seen before with other keys. */
  lemma GenerationWraps(x: HalfWord, y: HalfWord)
    requires x != ZERO && y != ZERO && x != y
    ensures var before, between := [Publish(x, ZERO)], Repeat(Publish(y, ZERO), 0x1_0000_0000);
            var a, b := After(CREATED, before), After(CREATED, before + between);
            && CountUpdates(between) == 0x1_0000_0000
            && a.generation == b.generation && Keys(a) != Keys(b)
  {
    var before, between := [Publish(x, ZERO)], Repeat(Publish(y, ZERO), WRAP);
    var a := After(CREATED, before);
    assert before[..0] == [];
    assert After(CREATED, before[..0]) == CREATED;
    assert a == Next(CREATED, Publish(x, ZERO));
    Republished(a, y, WRAP);
    AfterConcat(CREATED, before, between);
    GenerationCounts(a, between);
  }

  /** The newest half published for a parity that was not all zeros; zeros before the first. */
  function NewestHalf(run: seq<Step>, odd: bool): HalfWord {
    if run == [] then ZERO
    else
      var step := run[|run| - 1];
      var half := if !step.Publish? then ZERO else if odd then step.odd else step.even;
      if half != ZERO then half else NewestHalf(run[..|run| - 1], odd)
  }

  /** What happened since the last service change. */
  function Service(run: seq<Step>): seq<Step> {
    if run == [] || run[|run| - 1].SetService? then []
    else Service(run[..|run| - 1]) + [run[|run| - 1]]
  }

  /** A parity's key is always the newest one a server gave for it, even across services. */
  lemma {:induction false} KeysAreNewest(run: seq<Step>)
    ensures var s := After(CREATED, run);
            s.even == NewestHalf(run, false) && s.odd == NewestHalf(run, true)
    decreases |run|
  {
    if run != [] {
      KeysAreNewest(run[..|run| - 1]);
    }
  }

  lemma NewestHalfMore(run: seq<Step>, step: Step, odd: bool)
    ensures NewestHalf(run + [step], odd) ==
            if step.Publish? && (if odd then step.odd else step.even) != ZERO
            then if odd then step.odd else step.even else NewestHalf(run, odd)
  {
    assert (run + [step])[..|run|] == run;
  }

  /** And it is valid exactly when one was given since the service was selected. */
  lemma {:induction false} ValidSinceService(run: seq<Step>)
    ensures var s := After(CREATED, run);
            && (s.evenValid <==> NewestHalf(Service(run), false) != ZERO)
            && (s.oddValid <==> NewestHalf(Service(run), true) != ZERO)
    decreases |run|
  {
    hide NewestHalf;
    if run != [] {
      var n := |run| - 1;
      ValidSinceService(run[..n]);
      NewestHalfMore(Service(run[..n]), run[n], false);
      NewestHalfMore(Service(run[..n]), run[n], true);
    }
    NoHalf(false);
    NoHalf(true);
  }

  lemma NoHalf(odd: bool)
    ensures NewestHalf([], odd) == ZERO
  {
  }

  /** So what a reader is handed are, parity by parity, the newest halves published, and that they count
      as keys exactly when one came since the service was selected. */
  lemma KeysRead(run: seq<Step>)
    ensures Keys(After(CREATED, run)) ==
            (NewestHalf(run, false), NewestHalf(run, true),
             NewestHalf(Service(run), false) != ZERO || NewestHalf(Service(run), true) != ZERO)
  {
    hide NewestHalf, After, Service;
    KeysAreNewest(run);
    ValidSinceService(run);
  }

  /* ---- candidates ---- */

  /** The service selected last, with all the candidates given for it. */
  function Selected(run: seq<Step>): (nat, seq<Candidate>) {
    if run == [] then (0, [])
    else
      match run[|run| - 1]
      case SetService(id, candidates) => (id, candidates)
      case _ => Selected(run[..|run| - 1])
  }

  /** How often the worker has moved on since. */
  function Rotations(run: seq<Step>): nat {
    if run == [] || run[|run| - 1].SetService? then 0
    else Rotations(run[..|run| - 1]) + if run[|run| - 1].Rotate? then 1 else 0
  }

  /** Where `r` steps from the first of `n` lead, around the end. */
  function InTurn(r: nat, n: nat): nat
    requires n > 0
  {
    r % n
  }

  lemma FirstInTurn(n: nat)
    requires n > 0
    ensures InTurn(0, n) == 0
  {
  }

  /** Of the candidates given, the first eight are kept, in their order; and they are tried in turn: the
      one in use is the one that as many rotations come to, around the end. */
  lemma {:induction false} TriedInTurn(run: seq<Step>)
    ensures var s, given := After(CREATED, run), Selected(run).1;
            && s.service == Selected(run).0
            && s.candidates == (if |given| > 8 then given[..8] else given)
            && s.index == if given == [] then 0 else InTurn(Rotations(run), |s.candidates|)
    decreases |run|
  {
    hide InTurn, Next;
    if run != [] {
      var n := |run| - 1;
      TriedInTurn(run[..n]);
      TriedNext(After(CREATED, run[..n]), run[n], Rotations(run[..n]));
    }
  }

  lemma TriedNext(s: Store, step: Step, r: nat)
    requires s.index == if s.candidates == [] then 0 else InTurn(r, |s.candidates|)
    ensures var t := Next(s, step);
            t.index == if t.candidates == [] || step.SetService? then 0
                       else InTurn(if step.Rotate? then r + 1 else r, |t.candidates|)
    ensures if !step.SetService? then Next(s, step).candidates == s.candidates && Next(s, step).service == s.service
            else Next(s, step).candidates == (if |step.candidates| > 8 then step.candidates[..8] else step.candidates)
                 && Next(s, step).service == step.id && Next(s, step).index == 0
    ensures step.SetService? && step.candidates != [] ==> InTurn(0, |Next(s, step).candidates|) == 0
  {
    if step.SetService? && step.candidates != [] { FirstInTurn(|Next(s, step).candidates|); }
    if step.Rotate? && s.candidates != [] {
      NextAround(r, |s.candidates|);
    }
  }

  lemma NextAround(r: nat, n: nat)
    requires n > 0
    ensures (r + 1) % n == if n > 1 then (r % n + 1) % n else 0
  {
    var q, m := r / n, r % n;
    assert r == n * q + m;
    if n > 1 {
      if m + 1 < n {
        Remainder(n, q, m + 1);
        Remainder(n, 0, m + 1);
      } else {
        Distribute(n, q, 1);
        Remainder(n, q + 1, 0);
        Remainder(n, 1, 0);
      }
    }
  }

  lemma Remainder(n: nat, q: nat, m: nat)
    requires m < n
    ensures (n * q + m) % n == m
  {
    var a := n * q + m;
    var x, y := a / n, a % n;
    assert a == n * x + y;
    if x > q {
      Grows(n, q, x);
    } else if x < q {
      Grows(n, x, q);
    }
  }

  lemma Grows(n: nat, a: nat, b: nat)
    requires a < b
    ensures n * a + n <= n * b
  {
    Distribute(n, a, 1);
    Distribute(n, a + 1, b - a - 1);
  }

  lemma Distribute(n: nat, a: int, b: nat)
    ensures n * (a + b) == n * a + n * b >= n * a
  {
  }

  /* ---- ECMs ---- */

  predicate Resets(step: Step) { step.Rotate? || step.SetService? }

  /** The ECMs the worker has taken since the last rotation or service change. */
  function Taken(s: Store, run: seq<Step>): seq<seq<Byte>>
    decreases |run|
  {
    if run == [] then []
    else
      var n := |run| - 1;
      var sofar := Taken(s, run[..n]);
      if Resets(run[n]) then []
      else if run[n].Take? && After(s, run[..n]).pending != [] then sofar + [After(s, run[..n]).pending]
      else sofar
  }

  /** Since the worker last looked, or the last reset. */
  function Tail(run: seq<Step>): seq<Step> {
    if run == [] || Resets(run[|run| - 1]) || run[|run| - 1].Take? then []
    else Tail(run[..|run| - 1]) + [run[|run| - 1]]
  }

  /** The ECMs among some steps that are not the one given. */
  function News(steps: seq<Step>, last: seq<Byte>): seq<seq<Byte>> {
    if steps == [] then []
    else
      var n := |steps| - 1;
      if steps[n].Submit? && IsEcm(steps[n].section) && steps[n].section != last
        then News(steps[..n], last) + [steps[n].section]
      else News(steps[..n], last)
  }

  lemma NewsMore(steps: seq<Step>, step: Step, last: seq<Byte>)
    ensures News([], last) == []
    ensures News(steps + [step], last) == News(steps, last)
              + if step.Submit? && IsEcm(step.section) && step.section != last then [step.section] else []
  {
    assert (steps + [step])[..|steps|] == steps;
  }

  /** What waits for the worker is the newest ECM submitted since it last looked that is not the one it
      took last; it finds nothing only if there was none. */
  lemma {:induction false} PendingIsNewest(run: seq<Step>)
    ensures var s := After(CREATED, run);
            var news := News(Tail(run), s.last);
            s.pending == if news == [] then [] else news[|news| - 1]
    decreases |run|
  {
    hide News, IsEcm;
    if run == [] {
      NewsMore([], Take, []);
    } else {
      var n := |run| - 1;
      PendingIsNewest(run[..n]);
      NewsMore(Tail(run[..n]), run[n], After(CREATED, run).last);
    }
  }

  /** The worker never takes the same ECM twice running unless a rotation or a service change came
      between, and what it takes is always an ECM. */
  lemma {:induction false} NeverTwiceRunning(run: seq<Step>)
    ensures var t := Taken(CREATED, run);
            && (forall i :: 0 <= i < |t| - 1 ==> t[i] != t[i + 1])
            && (forall i :: 0 <= i < |t| ==> IsEcm(t[i]))
            && After(CREATED, run).last == if t == [] then [] else t[|t| - 1]
    decreases |run|
  {
    if run != [] {
      NeverTwiceRunning(run[..|run| - 1]);
      EveryRunIsSound(CREATED, run[..|run| - 1]);
    }
  }

  /** What a carrier broadcasts and the worker keeps up with: each ECM submitted, then the worker looking. */
  function Followed(ecms: seq<seq<Byte>>): seq<Step> {
    if ecms == [] then []
    else Followed(ecms[..|ecms| - 1]) + [Submit(ecms[|ecms| - 1]), Take]
  }

  /** The ECMs, each only where it is not the one before it again. */
  function Changes(ecms: seq<seq<Byte>>): seq<seq<Byte>> {
    if ecms == [] then []
    else
      var n := |ecms| - 1;
      Changes(ecms[..n]) + if n > 0 && ecms[n - 1] == ecms[n] then [] else [ecms[n]]
  }

  /** Both table ids of ECMs, and the sizes a section of them can have. */
  predicate LooksLikeEcm(section: seq<Byte>) {
    3 <= |section| <= 512 && section[0] in [0x80, 0x81]
  }

  /** Whatever a carrier repeats, the worker asks for every change of the ECM, once. */
  lemma {:induction false} EveryChangeTaken(ecms: seq<seq<Byte>>)
    requires forall i :: 0 <= i < |ecms| ==> LooksLikeEcm(ecms[i])
    ensures Taken(CREATED, Followed(ecms)) == Changes(ecms)
    ensures var s := After(CREATED, Followed(ecms));
            s.pending == [] && s.last == if ecms == [] then [] else ecms[|ecms| - 1]
    decreases |ecms|
  {
    hide After, Taken, LooksLikeEcm;
    if ecms == [] {
      NothingHappened();
    } else {
      var n := |ecms| - 1;
      EveryChangeTaken(ecms[..n]);
      LookedAt(Followed(ecms[..n]), ecms[n]);
    }
  }

  lemma NothingHappened()
    ensures After(CREATED, []) == CREATED && Taken(CREATED, []) == []
  {
  }

  lemma LookedAt(run: seq<Step>, ecm: seq<Byte>)
    requires LooksLikeEcm(ecm) && After(CREATED, run).pending == []
    ensures var s, t := After(CREATED, run), After(CREATED, run + [Submit(ecm), Take]);
            ecm != [] && t.pending == [] && t.last == ecm
            && Taken(CREATED, run + [Submit(ecm), Take]) ==
               Taken(CREATED, run) + if s.last == ecm then [] else [ecm]
  {
    var one, two := run + [Submit(ecm)], run + [Submit(ecm), Take];
    assert two[..|two| - 1] == one && one[..|one| - 1] == run;
  }

  /** And nothing else is ever taken. */
  lemma OnlyEcmsTaken(run: seq<Step>, i: nat)
    requires i < |Taken(CREATED, run)|
    ensures LooksLikeEcm(Taken(CREATED, run)[i])
  {
    hide Taken;
    NeverTwiceRunning(run);
  }

  function Era(run: seq<Step>): seq<Step> {
    if run == [] || Resets(run[|run| - 1]) then []
    else Era(run[..|run| - 1]) + [run[|run| - 1]]
  }

  predicate Offers(steps: seq<Step>, ecm: seq<Byte>) { Submit(ecm) in steps }

  predicate AllOffered(steps: seq<Step>, ecms: seq<seq<Byte>>) {
    forall i :: 0 <= i < |ecms| ==> Offers(steps, ecms[i])
  }

  /** Everything it takes, and what waits for it, was submitted since the last rotation or service change. */
  lemma {:induction false} TakenWasSubmitted(run: seq<Step>)
    ensures AllOffered(Era(run), Taken(CREATED, run))
    ensures After(CREATED, run).pending != [] ==> Offers(Era(run), After(CREATED, run).pending)
    decreases |run|
  {
    if run != [] {
      var n := |run| - 1;
      TakenWasSubmitted(run[..n]);
      if !Resets(run[n]) {
        assert Era(run)[|Era(run)| - 1] == run[n];
        assert forall e :: Offers(Era(run[..n]), e) ==> Offers(Era(run), e);
        assert AllOffered(Era(run), Taken(CREATED, run[..n]));
        assert run[n].Submit? ==> Offers(Era(run), run[n].section);
      }
    }
  }

  /* ---- the store itself ---- */

  /** memcpy to the start of a buffer. */
  method Copy<T>(data: array<T>, block: seq<T>)
    requires |block| <= data.Length
    modifies data
    ensures data[..|block|] == block
    ensures |block| == data.Length ==> data[..] == block
  {
    Write(data, 0, block);
    SpliceParts(old(data[..]), 0, block);
    assert data[..|block|] == data[..][..|block|];
  }

  class Camd {
    const candidates: array<Candidate>
    var candidateCount: nat
    var candidateIndex: nat
    var serviceId: nat
    const pendingEcm: array<Byte>
    var pendingSize: nat
    const lastEcm: array<Byte>
    var lastSize: nat
    const even: array<Byte>
    const odd: array<Byte>
    var evenValid: bool
    var oddValid: bool
    var generation: nat

    ghost predicate Valid()
      reads this
    {
      && candidates.Length == MAX_CANDIDATES && candidateCount <= MAX_CANDIDATES
      && pendingEcm.Length == MAX_ECM && pendingSize <= MAX_ECM
      && lastEcm.Length == MAX_ECM && lastSize <= MAX_ECM
      && even.Length == 8 && odd.Length == 8
      && pendingEcm != lastEcm && pendingEcm != even && pendingEcm != odd
      && lastEcm != even && lastEcm != odd && even != odd
      && candidates as object != pendingEcm && candidates as object != lastEcm
      && candidates as object != even && candidates as object != odd
      && generation < WRAP
    }

    ghost function State(): Store
      requires Valid()
      reads this, candidates, pendingEcm, lastEcm, even, odd
    {
      Store(serviceId, candidates[..candidateCount], candidateIndex,
            pendingEcm[..pendingSize], lastEcm[..lastSize],
            even[..], odd[..], evenValid, oddValid, generation)
    }

    constructor ()
      ensures Valid() && State() == CREATED
      ensures fresh(candidates) && fresh(pendingEcm) && fresh(lastEcm) && fresh(even) && fresh(odd)
    {
      candidates := new Candidate[MAX_CANDIDATES](_ => Candidate(0, 0, 0));
      candidateCount, candidateIndex, serviceId := 0, 0, 0;
      pendingEcm := new Byte[MAX_ECM](_ => 0);
      lastEcm := new Byte[MAX_ECM](_ => 0);
      pendingSize, lastSize := 0, 0;
      even := new Byte[8](_ => 0);
      odd := new Byte[8](_ => 0);
      evenValid, oddValid, generation := false, false, 0;
    }

    method SubmitEcm(section: seq<Byte>)
      requires Valid()
      modifies `pendingSize, pendingEcm
      ensures Valid() && State() == Next(old(State()), Submit(section))
    {
      if |section| < 3 || |section| > MAX_ECM {
        return;
      }
      if section[0] != 0x80 && section[0] != 0x81 {
        return;
      }
      if lastSize != |section| || lastEcm[..lastSize] != section {
        Copy(pendingEcm, section);
        pendingSize := |section|;
      }
    }

    method TakePendingEcm(out: array<Byte>) returns (size: nat)
      requires Valid() && out.Length == MAX_ECM
      requires out !in {candidates as object, pendingEcm, lastEcm, even, odd}
      modifies `pendingSize, `lastSize, lastEcm, out
      ensures Valid() && State() == Next(old(State()), Take)
      ensures size <= MAX_ECM && out[..size] == old(State()).pending
    {
      size := pendingSize;
      if size != 0 {
        Copy(out, pendingEcm[..size]);
        Copy(lastEcm, pendingEcm[..size]);
        lastSize := size;
        pendingSize := 0;
      }
    }

    method PublishControlWords(words: seq<Byte>)
      requires Valid() && |words| == 16
      modifies `evenValid, `oddValid, `generation, even, odd
      ensures Valid() && State() == Next(old(State()), Publish(words[..8], words[8..]))
    {
      if words[..8] != ZERO {
        Copy(even, words[..8]);
        evenValid := true;
      }
      if words[8..] != ZERO {
        Copy(odd, words[8..]);
        oddValid := true;
      }
      generation := (generation + 1) % WRAP;
      assert candidates[..candidateCount] == old(candidates[..candidateCount]);
      assert pendingEcm[..pendingSize] == old(pendingEcm[..pendingSize]);
      assert lastEcm[..lastSize] == old(lastEcm[..lastSize]);
    }

    method RotateCandidate() returns (rotated: bool)
      requires Valid()
      modifies `candidateIndex, `pendingSize, `lastSize
      ensures Valid() && State() == Next(old(State()), Rotate)
      ensures rotated <==> |State().candidates| > 1
    {
      rotated := false;
      if candidateCount > 1 {
        candidateIndex := (candidateIndex + 1) % candidateCount;
        rotated := true;
      }
      pendingSize := 0;
      lastSize := 0;
    }

    method SelectService(id: nat, list: seq<Candidate>)
      requires Valid()
      modifies `serviceId, `candidateCount, `candidateIndex, `evenValid, `oddValid, `generation, `pendingSize, `lastSize
      modifies candidates
      ensures Valid() && State() == Next(old(State()), SetService(id, list))
    {
      hide AtMost;
      ghost var evenKey, oddKey := even[..], odd[..];
      var count := |list|;
      if count > MAX_CANDIDATES {
        count := MAX_CANDIDATES;
      }
      AtMostSize(list, MAX_CANDIDATES);
      TakeCandidates(list, count);
      assert even[..] == evenKey && odd[..] == oddKey;
      serviceId := id;
      candidateCount := count;
      candidateIndex := 0;
      evenValid, oddValid := false, false;
      generation := (generation + 1) % WRAP;
      pendingSize, lastSize := 0, 0;
      assert pendingEcm[..0] == [] && lastEcm[..0] == [];
    }

    method TakeCandidates(list: seq<Candidate>, count: nat)
      requires candidates.Length == MAX_CANDIDATES && count == |AtMost(list, MAX_CANDIDATES)|
      modifies candidates
      ensures candidates[..count] == AtMost(list, MAX_CANDIDATES)
    {
      if count != 0 {
        Copy(candidates, list[..count]);
      }
    }

    method ReadKeys(evenOut: array<Byte>, oddOut: array<Byte>) returns (valid: bool, seen: nat)
      requires Valid() && evenOut.Length == 8 && oddOut.Length == 8 && evenOut != oddOut
      requires {evenOut as object, oddOut} !! {candidates as object, pendingEcm, lastEcm, even, odd}
      modifies evenOut, oddOut
      ensures Valid() && State() == Next(old(State()), GetKeys)
      ensures (evenOut[..], oddOut[..], valid) == Keys(State()) && seen == State().generation
    {
      Copy(evenOut, even[..]);
      Copy(oddOut, odd[..]);
      valid := evenValid || oddValid;
      seen := generation;
    }
  }
}
