/** The patch language of the AVL62x1 demodulator as a language: a script of guarded commands over
    32 variables and the memory of the chip. Module PatchLoader runs its encoding. */
module PatchScript {
  type U8 = x: int | 0 <= x < 256
  type U32 = x: int | 0 <= x < 0x1_0000_0000

  const ADDRESS_SPACE := 0x100_0000
  const VARIABLES := 32

  /* ---- the chip ---- */

  type Memory = map<int, U8>

  /** What the bus can see of the chip, whatever else it remembers, and how many transfers were made. */
  datatype Device = Device(mem: Memory, hidden: int, transfers: nat)

  /** How the chip and the bus to it react: to a firmware command (error code of the whole exchange,
      state after), to being polled until it is ready, and to a transfer: the error code of each, zero
      if it works, and what a write that failed leaves behind. */
  datatype Chip = Chip(
    execute: (Device, int) -> (int, Device),
    wait: (Device, seq<U32>) -> (int, Device),
    fault: nat -> int,
    torn: (Device, nat, seq<U8>) -> Device)

  /** Consecutive bytes stored from address `a` on; addresses have 24 bits. */
  function Poke(mem: Memory, a: nat, data: seq<U8>): Memory
    decreases |data|
  {
    if data == [] then mem else Poke(mem[a % ADDRESS_SPACE := data[0]], a + 1, data[1..])
  }

  function PeekByte(mem: Memory, a: nat): U8 {
    if a % ADDRESS_SPACE in mem then mem[a % ADDRESS_SPACE] else 0
  }

  function Peek(mem: Memory, a: nat, count: nat): (data: seq<U8>)
    ensures |data| == count
  {
    seq<U8>(count, i requires 0 <= i < count => PeekByte(mem, a + i))
  }

  /** Any way of cutting a write in two comes to the same. */
  lemma {:induction false} PokeConcat(mem: Memory, a: nat, x: seq<U8>, y: seq<U8>)
    ensures Poke(mem, a, x + y) == Poke(Poke(mem, a, x), a + |x|, y)
    decreases |x|
  {
    if x == [] {
      assert x + y == y;
    } else {
      assert (x + y)[1..] == x[1..] + y;
      PokeConcat(mem[a % ADDRESS_SPACE := x[0]], a + 1, x[1..], y);
    }
  }

  /** Only the low 24 bits of an address matter. */
  lemma {:induction false} PokeModulo(mem: Memory, a: nat, b: nat, data: seq<U8>)
    requires a % ADDRESS_SPACE == b % ADDRESS_SPACE
    ensures Poke(mem, a, data) == Poke(mem, b, data)
    decreases |data|
  {
    if data != [] {
      assert (a + 1) % ADDRESS_SPACE == (b + 1) % ADDRESS_SPACE;
      PokeModulo(mem[a % ADDRESS_SPACE := data[0]], a + 1, b + 1, data[1..]);
    }
  }

  /* ---- the bus ---- */

  const WRITE_MAX := 32

  /** One transfer of at most 32 bytes. */
  function Transfer(chip: Chip, d: Device, a: nat, data: seq<U8>): (int, Device) {
    var rc, e := chip.fault(d.transfers), d.(transfers := d.transfers + 1);
    if rc == 0 then (0, e.(mem := Poke(d.mem, a, data))) else (rc, chip.torn(e, a % ADDRESS_SPACE, data))
  }

  /** How many transfers carry some bytes. */
  function Transfers(size: nat): nat { (size + WRITE_MAX - 1) / WRITE_MAX }

  /** How many of the next `n` transfers work before the first that does not. */
  function Working(chip: Chip, next: nat, n: nat): (k: nat)
    ensures k <= n
    decreases n
  {
    if n == 0 || chip.fault(next) != 0 then 0 else 1 + Working(chip, next + 1, n - 1)
  }

  /** A write of any size: all of it at once, or, if one of its transfers fails, all the bytes before
      those that one carried, and its error. */
  function Sent(chip: Chip, d: Device, a: nat, data: seq<U8>): (int, Device) {
    var n := Transfers(|data|);
    var k := Working(chip, d.transfers, n);
    if k == n then (0, d.(mem := Poke(d.mem, a, data), transfers := d.transfers + n))
    else
      var done := WRITE_MAX * k;
      var end := if |data| - done > WRITE_MAX then done + WRITE_MAX else |data|;
      Transfer(chip, d.(mem := Poke(d.mem, a, data[..done]), transfers := d.transfers + k), a + done, data[done..end])
  }

  /** Writing is transferring the first burst, and then, if that worked, writing the rest. */
  lemma SentStep(chip: Chip, d: Device, a: nat, data: seq<U8>)
    requires data != []
    ensures var chunk := if |data| > WRITE_MAX then WRITE_MAX else |data|;
            var (rc, e) := Transfer(chip, d, a, data[..chunk]);
            Sent(chip, d, a, data) == if rc != 0 then (rc, e) else Sent(chip, e, a + chunk, data[chunk..])
  {
    hide Poke;
    var chunk := if |data| > WRITE_MAX then WRITE_MAX else |data|;
    var (rc, e) := Transfer(chip, d, a, data[..chunk]);
    PokeNone(d.mem, a);
    TransfersStep(|data|);
    if rc == 0 {
      var rest := data[chunk..];
      var n := Transfers(|rest|);
      var k := Working(chip, e.transfers, n);
      assert data[..chunk] + rest == data;
      PokeConcat(d.mem, a, data[..chunk], rest);
      if k < n {
        TransfersWithin(|rest|, k);
        var done := WRITE_MAX * k;
        assert data[..chunk] + rest[..done] == data[..chunk + done];
        PokeConcat(d.mem, a, data[..chunk], rest[..done]);
        var end := if |rest| - done > WRITE_MAX then done + WRITE_MAX else |rest|;
        assert rest[done..end] == data[chunk + done..chunk + end];
      }
    }
  }

  /** Only the low 24 bits of an address matter to a write, failed or not. */
  lemma SentModulo(chip: Chip, d: Device, a: nat, b: nat, data: seq<U8>)
    requires a % ADDRESS_SPACE == b % ADDRESS_SPACE
    ensures Sent(chip, d, a, data) == Sent(chip, d, b, data)
  {
    hide Poke;
    PokeModulo(d.mem, a, b, data);
    var n := Transfers(|data|);
    var k := Working(chip, d.transfers, n);
    if k < n {
      TransfersWithin(|data|, k);
      var done := WRITE_MAX * k;
      var end := if |data| - done > WRITE_MAX then done + WRITE_MAX else |data|;
      PokeModulo(d.mem, a, b, data[..done]);
      assert (a + done) % ADDRESS_SPACE == (b + done) % ADDRESS_SPACE;
      PokeModulo(Poke(d.mem, a, data[..done]), a + done, b + done, data[done..end]);
    }
  }

  lemma TransfersStep(size: nat)
    requires size > 0
    ensures Transfers(size) == 1 + Transfers(if size > WRITE_MAX then size - WRITE_MAX else 0)
  {
  }

  lemma TransfersWithin(size: nat, k: nat)
    requires k < Transfers(size)
    ensures WRITE_MAX * k < size
  {
  }

  lemma PokeNone(mem: Memory, a: nat)
    ensures Poke(mem, a, []) == mem
  {
  }

  /* ---- words ---- */

  function Be32(v: U32): (b: seq<U8>)
    ensures |b| == 4
  {
    [v / 0x100_0000, v / 0x1_0000 % 256, v / 256 % 256, v % 256]
  }

  function Be16(v: int): (b: seq<U8>)
    requires 0 <= v < 0x1_0000
    ensures |b| == 2
  {
    [v / 256, v % 256]
  }

  /** One, two or four bytes, most significant first. */
  function Value(b: seq<U8>): U32
    requires |b| <= 4
  {
    if |b| == 4 then (b[0] as int) * 0x100_0000 + (b[1] as int) * 0x1_0000 + (b[2] as int) * 256 + (b[3] as int)
    else if |b| == 2 then (b[0] as int) * 256 + (b[1] as int)
    else if |b| == 1 then b[0]
    else 0
  }

  lemma ValueOfBe16(v: int)
    requires 0 <= v < 0x1_0000
    ensures Value(Be16(v)) == v
  {
  }

  lemma Be32OfValue(b: seq<U8>)
    requires |b| == 4
    ensures Be32(Value(b)) == b
  {
    var low3, low2 := (b[1] as int) * 0x1_0000 + (b[2] as int) * 256 + (b[3] as int),
        (b[2] as int) * 256 + (b[3] as int);
    var v := Value(b);
    DivMod(v, b[0], low3, 0x100_0000);
    DivMod(v, (b[0] as int) * 256 + (b[1] as int), low2, 0x1_0000);
    DivMod(v, ((b[0] as int) * 256 + (b[1] as int)) * 256 + (b[2] as int), b[3], 256);
    DivMod((b[0] as int) * 256 + (b[1] as int), b[0], b[1], 256);
    DivMod(((b[0] as int) * 256 + (b[1] as int)) * 256 + (b[2] as int), (b[0] as int) * 256 + (b[1] as int), b[2], 256);
    assert Be32(v) == [b[0], b[1], b[2], b[3]];
  }

  lemma DivMod(v: int, q: int, r: int, d: int)
    requires d == 256 || d == 0x1_0000 || d == 0x100_0000
    requires 0 <= r < d && v == q * d + r
    ensures v / d == q && v % d == r
  {
    if d == 256 {} else if d == 0x1_0000 {} else {}
  }

  /** Words as bytes. */
  function Flat(words: seq<U32>): (b: seq<U8>)
    ensures |b| == 4 * |words|
  {
    if words == [] then [] else Be32(words[0]) + Flat(words[1..])
  }

  /** Thirty-two bit arithmetic. */
  function Wrapped(n: int): U32 { n % 0x1_0000_0000 }

  function BitAnd(a: U32, b: U32): U32 { ((a as bv32) & (b as bv32)) as int }

  function BitOr(a: U32, b: U32): U32 { ((a as bv32) | (b as bv32)) as int }

  /* ---- conditions ---- */

  datatype Operand = Constant(value: U32) | Variable(index: nat) {
    predicate Valid() { Variable? ==> index < VARIABLES }
  }

  datatype Unary = Plain | LogicalNot | Complement {
    function Apply(v: U32): U32 {
      match this
      case Plain => v
      case LogicalNot => if v == 0 then 1 else 0
      case Complement => 0xffff_ffff - v
    }

    function Code(): nat { match this case Plain => 0 case LogicalNot => 1 case Complement => 2 }
  }

  datatype Binary = Replace | And | Or | MaskAnd | MaskOr | Equals | Differs {
    function Apply(acc: U32, v: U32): U32 {
      match this
      case Replace => v
      case And => if acc != 0 && v != 0 then 1 else 0
      case Or => if acc != 0 || v != 0 then 1 else 0
      case MaskAnd => BitAnd(acc, v)
      case MaskOr => BitOr(acc, v)
      case Equals => if acc == v then 1 else 0
      case Differs => if acc != v then 1 else 0
    }

    function Code(): nat {
      match this
      case Replace => 0 case And => 1 case Or => 2 case MaskAnd => 3 case MaskOr => 4 case Equals => 5 case Differs => 7
    }
  }

  /** One step of a condition: combine the accumulator with an operand, or store it. */
  datatype Term = Combine(binary: Binary, unary: Unary, operand: Operand) | Store(variable: nat) {
    predicate Valid() { if Combine? then operand.Valid() else variable < VARIABLES }

    /** Operation word, operand word. Operand mode 0 reads a variable, mode 1 is immediate. */
    function Encode(): (w: seq<U32>)
      requires Valid()
      ensures |w| == 2
    {
      match this
      case Combine(binary, unary, Variable(i)) => [binary.Code() + 256 * unary.Code(), i]
      case Combine(binary, unary, Constant(v)) => [binary.Code() + 256 * unary.Code() + 0x1_0000, v]
      case Store(i) => [6 + 0x1_0000, i]
    }
  }

  type Variables = v: seq<U32> | |v| == VARIABLES witness seq(VARIABLES, _ => 0)

  /** The accumulator and the variables after one term. */
  function Step(t: Term, acc: U32, vars: Variables): (r: (U32, Variables))
    requires t.Valid()
  {
    match t
    case Store(i) => (acc, vars[i := acc])
    case Combine(binary, unary, operand) =>
      var v: U32 := if operand.Variable? then vars[operand.index] else operand.value;
      (binary.Apply(acc, unary.Apply(v)), vars)
  }

  ghost predicate ValidTerms(terms: seq<Term>) {
    forall i :: 0 <= i < |terms| ==> terms[i].Valid()
  }

  function Terms(terms: seq<Term>, acc: U32, vars: Variables): (r: (U32, Variables))
    requires ValidTerms(terms)
    decreases |terms|
  {
    if terms == [] then (acc, vars)
    else
      var (acc', vars') := Step(terms[0], acc, vars);
      Terms(terms[1..], acc', vars')
  }

  function EncodeTerms(terms: seq<Term>): (w: seq<U32>)
    requires ValidTerms(terms)
    ensures |w| == 2 * |terms|
  {
    if terms == [] then [] else terms[0].Encode() + EncodeTerms(terms[1..])
  }

  /* ---- commands ---- */

  datatype Command =
    | ValidateCrc(crc: U32, start: U32, length: U32, into: nat)
    | Ping(into: nat)
    | Load(count: U32, destination: U32, source: U32)
    | Dma(address: U32, descriptors: seq<U32>)
    | Extract(kind: U32, from: U32, to: U32)
    | HoldReset
    | ReleaseReset
    | LoadImmediate(width: U32, destination: U32, value: U32)
    | Read(width: U32, address: U32, into: nat)
    | DmaHardware(address: U32, descriptors: seq<U32>)
    | SetVariable(value: U32, into: nat)
    | Exit
    | Poll(width: U32, address: U32, match_: U32, polls: U32)
    | LoadPacked(length: U32, source: U32)
  {
    predicate Valid() {
      && (ValidateCrc? || Ping? || Read? || SetVariable? ==> into < VARIABLES)
      && (Dma? || DmaHardware? ==> |descriptors| % 3 == 0 && |descriptors| / 3 < 0x1_0000_0000)
    }

    function Code(): U32 {
      match this
      case ValidateCrc(_, _, _, _) => 0
      case Ping(_) => 1
      case Load(_, _, _) => 2
      case Dma(_, _) => 3
      case Extract(_, _, _) => 4
      case HoldReset => 5
      case ReleaseReset => 6
      case LoadImmediate(_, _, _) => 7
      case Read(_, _, _) => 8
      case DmaHardware(_, _) => 9
      case SetVariable(_, _) => 10
      case Exit => 11
      case Poll(_, _, _, _) => 12
      case LoadPacked(_, _) => 13
    }

    /** What precedes the count of trailing words. */
    function Head(): seq<U32>
      requires Valid()
    {
      match this
      case ValidateCrc(crc, start, length, _) => [crc, start, length]
      case Load(count, destination, source) => [count, destination, source]
      case Dma(address, descriptors) => [address, |descriptors| / 3] + descriptors
      case DmaHardware(address, descriptors) => [address, |descriptors| / 3] + descriptors
      case Extract(kind, from, to) => [kind, from, to]
      case LoadImmediate(width, destination, value) => [width, destination, value]
      case Read(width, address, _) => [width, address]
      case SetVariable(value, _) => [value]
      case Poll(width, address, m, polls) => [width, address, m, polls]
      case LoadPacked(length, source) => [length, source]
      case _ => []
    }

    /** The trailing words: a count of what follows it, starting with the result variable if the
        command has one, then anything. */
    function Tail(pad: seq<U32>): seq<U32>
      requires Valid() && |pad| < 0xffff_ffff
    {
      if ValidateCrc? || Ping? || Read? || SetVariable? then [|pad| + 1, into] + pad
      else [|pad|] + pad
    }
  }

  const REG_ARGS_ADDR: U32 := 0x258
  const REG_CPU_RESET: U32 := 0x110840
  const REG_DMA_COMMAND: U32 := 0x110050

  datatype Machine = Machine(device: Device, vars: Variables) {
    function Write(chip: Chip, a: nat, data: seq<U8>): Outcome {
      var (rc, d) := Sent(chip, device, a, data);
      Outcome(rc, this.(device := d))
    }

    /** The words a firmware command takes as arguments, after telling it where they are. */
    function Arguments(chip: Chip, at: U32, x: U32, y: U32): Outcome {
      var o := Write(chip, REG_ARGS_ADDR, Be32(at));
      if o.rc != 0 then o
      else
        var p := o.machine.Write(chip, at, Be32(x));
        if p.rc != 0 then p else p.machine.Write(chip, at + 4, Be32(y))
    }

    function Set(i: nat, v: U32): Machine
      requires i < VARIABLES
    {
      this.(vars := vars[i := v])
    }

    /** A firmware command: the error code and the machine after it. */
    function Command(chip: Chip, code: int): Outcome {
      var (rc, d) := chip.execute(device, code);
      Outcome(rc, this.(device := d))
    }

    function Wait(chip: Chip, what: seq<U32>): Outcome {
      var (rc, d) := chip.wait(device, what);
      Outcome(rc, this.(device := d))
    }
  }

  /** The end of a command: 0 to go on, an error to stop with. */
  datatype Outcome = Outcome(rc: int, machine: Machine)

  /** The patch as a whole, for the commands that copy from it. */
  datatype Image = Image(data: seq<U8>, dataOffset: nat, argsAddr: U32)

  /** A read of one, two or four bytes; the value is zero if it fails. */
  function ReadWidth(chip: Chip, d: Device, width: U32, address: nat): (int, U32, Device) {
    if width == 4 || width == 2 || width == 1 then
      var rc := chip.fault(d.transfers);
      (rc, if rc == 0 then Value(Peek(d.mem, address, width)) else 0, d.(transfers := d.transfers + 1))
    else (-2, 0, d)
  }

  /** The records of a packed block, each an offset, a length and the bytes. */
  function Packed(chip: Chip, device: Device, data: seq<U8>, pos: nat, destination: U32, records: nat): (int, Device)
    decreases records
  {
    if records == 0 then (0, device)
    else if pos + 4 > |data| then (-2, device)
    else
      var offset, length := Value(data[pos..pos + 2]), Value(data[pos + 2..pos + 4]);
      if pos + 4 + length > |data| then (-2, device)
      else
        var (rc, d) := Sent(chip, device, Wrapped(destination + offset), data[pos + 4..pos + 4 + length]);
        if rc != 0 then (rc, d) else Packed(chip, d, data, pos + 4 + length, destination, records - 1)
  }

  function PackedAt(chip: Chip, device: Device, image: Image, source: U32): (int, Device) {
    var pos := (image.dataOffset + source) * 4;
    if pos + 8 > |image.data| then (-2, device)
    else Packed(chip, device, image.data, pos + 8, Value(image.data[pos + 4..pos + 8]),
        Value(image.data[pos + 2..pos + 4]))
  }

  /** What a command does. It ends at the first transfer that fails, with its error. The trailing words
      of its encoding have no effect. */
  function Exec(c: Command, m: Machine, chip: Chip, image: Image): Outcome
    requires c.Valid()
  {
    match c
    case ValidateCrc(crc, start, length, into) =>
      var o := m.Arguments(chip, image.argsAddr, start, length);
      if o.rc != 0 then o
      else
        var p := o.machine.Command(chip, 22);
        if p.rc != 0 then p
        else
          var (rc, value, d) := ReadWidth(chip, p.machine.device, 4, image.argsAddr + 8);
          var q := p.machine.(device := d);
          if rc != 0 then Outcome(rc, q) else Outcome(0, q.Set(into, if value == crc then 1 else 0))
    case Ping(into) => Outcome(0, m.Command(chip, 23).machine.Set(into, 1))
    case Load(count, destination, source) =>
      var at := (image.dataOffset + source) * 4;
      if at + 4 * count > |image.data| then Outcome(-2, m)
      else m.Write(chip, destination, image.data[at..at + 4 * count])
    case Dma(address, descriptors) =>
      var o := m.Write(chip, address, Flat(descriptors));
      if o.rc != 0 then o
      else
        var p := o.machine.Write(chip, REG_ARGS_ADDR, Be32(address));
        if p.rc != 0 then p else p.machine.Command(chip, 21)
    case Extract(kind, from, to) =>
      var o := m.Arguments(chip, image.argsAddr, kind, from);
      if o.rc != 0 then o
      else
        var p := o.machine.Write(chip, image.argsAddr + 8, Be32(to));
        if p.rc != 0 then p else p.machine.Command(chip, 24)
    case HoldReset => m.Write(chip, REG_CPU_RESET, Be32(1))
    case ReleaseReset => m.Write(chip, REG_CPU_RESET, Be32(0))
    case LoadImmediate(width, destination, value) =>
      if width == 4 then m.Write(chip, destination, Be32(value))
      else if width == 2 then m.Write(chip, destination, Be16(value % 0x1_0000))
      else if width == 1 then m.Write(chip, destination, [value % 256])
      else Outcome(-2, m)
    case Read(width, address, into) =>
      var (rc, value, d) := ReadWidth(chip, m.device, width, address);
      var p := m.(device := d);
      // A failed read of one or two bytes clears the variable, one of four leaves it.
      if rc == 0 || width == 1 || width == 2 then Outcome(rc, p.Set(into, value)) else Outcome(rc, p)
    case DmaHardware(address, descriptors) =>
      var o := m.Write(chip, address, Flat(descriptors));
      if o.rc != 0 then o
      else
        var p := o.machine.Wait(chip, []);
        if p.rc != 0 then p
        else
          var q := p.machine.Write(chip, REG_DMA_COMMAND, Be32(address));
          if q.rc != 0 then q else q.machine.Wait(chip, [])
    case SetVariable(value, into) => Outcome(0, m.Set(into, value))
    case Exit => Outcome(0, m)
    case Poll(width, address, match_, polls) => m.Wait(chip, [width, address, match_, polls])
    case LoadPacked(_, source) =>
      var (rc, d) := PackedAt(chip, m.device, image, source);
      Outcome(rc, m.(device := d))
  }

  /* ---- scripts ---- */

  datatype Record = Record(terms: seq<Term>, command: Command, pad: seq<U32>) {
    ghost predicate Valid() {
      && ValidTerms(terms) && command.Valid() && |pad| < 0xffff_ffff
      && 3 + 2 * |terms| + |command.Head()| + |command.Tail(pad)| < 0x1_0000_0000
    }

    /** Size, number of terms, the terms, the command. */
    ghost function Encode(): (w: seq<U32>)
      requires Valid()
      ensures |w| == 3 + 2 * |terms| + |command.Head()| + |command.Tail(pad)|
    {
      [3 + 2 * |terms| + |command.Head()| + |command.Tail(pad)|, |terms|] + EncodeTerms(terms) +
      [command.Code()] + command.Head() + command.Tail(pad)
    }
  }

  ghost predicate ValidScript(script: seq<Record>) {
    forall i :: 0 <= i < |script| ==> script[i].Valid()
  }

  ghost function Encode(script: seq<Record>): seq<U32>
    requires ValidScript(script)
  {
    if script == [] then [] else script[0].Encode() + Encode(script[1..])
  }

  /** Each record's condition decides whether its command is carried out; a script ends at its
      last record, at an Exit that is carried out, or at the first error. */
  ghost function Run(script: seq<Record>, m: Machine, chip: Chip, image: Image): Outcome
    requires ValidScript(script)
    decreases |script|
  {
    if script == [] then Outcome(0, m)
    else
      var r := script[0];
      var (guard, vars) := Guard(r.terms, m.vars);
      var m1 := m.(vars := vars);
      if guard == 0 then Run(script[1..], m1, chip, image)
      else
        var o := Exec(r.command, m1, chip, image);
        if o.rc != 0 || r.command.Exit? then o else Run(script[1..], o.machine, chip, image)
  }

  /** No terms at all means always. */
  ghost function Guard(terms: seq<Term>, vars: Variables): (U32, Variables)
    requires ValidTerms(terms)
  {
    if terms == [] then (1, vars) else Terms(terms, 0, vars)
  }

  /* ---- packed blocks ---- */

  datatype Chunk = Chunk(offset: nat, data: seq<U8>) {
    ghost predicate Valid() { offset < 0x1_0000 && |data| < 0x1_0000 }
  }

  ghost predicate ValidChunks(chunks: seq<Chunk>) {
    forall i :: 0 <= i < |chunks| ==> chunks[i].Valid()
  }

  ghost function EncodeChunks(chunks: seq<Chunk>): seq<U8>
    requires ValidChunks(chunks)
  {
    if chunks == [] then []
    else Be16(chunks[0].offset) + Be16(|chunks[0].data|) + chunks[0].data + EncodeChunks(chunks[1..])
  }

  ghost function WriteChunks(chip: Chip, d: Device, destination: U32, chunks: seq<Chunk>): (int, Device)
    decreases |chunks|
  {
    if chunks == [] then (0, d)
    else
      var (rc, e) := Sent(chip, d, Wrapped(destination + chunks[0].offset), chunks[0].data);
      if rc != 0 then (rc, e) else WriteChunks(chip, e, destination, chunks[1..])
  }

  /** Unpacking the encoding of a list of chunks writes exactly those chunks, in order, up to the first
      that fails. */
  lemma {:induction false} PackedWritesChunks(chip: Chip, device: Device, data: seq<U8>, pos: nat,
      chunks: seq<Chunk>, destination: U32)
    requires ValidChunks(chunks)
    requires pos + |EncodeChunks(chunks)| <= |data| && data[pos..pos + |EncodeChunks(chunks)|] == EncodeChunks(chunks)
    ensures Packed(chip, device, data, pos, destination, |chunks|) == WriteChunks(chip, device, destination, chunks)
    decreases |chunks|
  {
    hide Be16, Sent, Wrapped, Value;
    if chunks != [] {
      var c, rest := chunks[0], EncodeChunks(chunks[1..]);
      ChunkParts(data, pos, c, rest);
      ValueOfBe16(c.offset);
      ValueOfBe16(|c.data|);
      var d := Sent(chip, device, Wrapped(destination + c.offset), c.data).1;
      PackedWritesChunks(chip, d, data, pos + 4 + |c.data|, chunks[1..], destination);
    }
  }

  lemma ChunkParts(data: seq<U8>, pos: nat, c: Chunk, rest: seq<U8>)
    requires c.Valid()
    requires var enc := Be16(c.offset) + Be16(|c.data|) + c.data + rest;
             pos + |enc| <= |data| && data[pos..pos + |enc|] == enc
    ensures pos + 4 + |c.data| + |rest| <= |data|
    ensures data[pos..pos + 2] == Be16(c.offset) && data[pos + 2..pos + 4] == Be16(|c.data|)
    ensures data[pos + 4..pos + 4 + |c.data|] == c.data
    ensures data[pos + 4 + |c.data|..pos + 4 + |c.data| + |rest|] == rest
  {
    hide Be16;
    var enc := Be16(c.offset) + Be16(|c.data|) + c.data + rest;
    var part := data[pos..pos + |enc|];
    assert data[pos] == part[0] && data[pos + 1] == part[1] && data[pos + 2] == part[2] && data[pos + 3] == part[3];
    assert part[..2] == Be16(c.offset) && part[2..4] == Be16(|c.data|);
    assert data[pos + 4..pos + 4 + |c.data|] == part[4..4 + |c.data|];
    assert data[pos + 4 + |c.data|..pos + 4 + |c.data| + |rest|] == part[4 + |c.data|..];
  }
}
