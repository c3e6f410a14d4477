/** The patch language against the bytes of a file and the memory of the chip: what a record of each kind looks like
    word by word, and what each command leaves in memory behind a bus that works. */
module PatchFormat {
  import opened PatchScript

  /* ---- the words of a record ---- */

  /** A record: its size, the number of its terms and the terms, then the words of its command and a count of what
      trails them. */
  lemma RecordWords(r: Record)
    requires r.Valid()
    ensures r.Encode() == [|r.Encode()|, |r.terms|] + EncodeTerms(r.terms) + CommandWords(r.command, r.pad)
  {
    CommandIs(r.command, r.pad);
    var e := r.command;
    var all := [3 + 2 * |r.terms| + |e.Head()| + |e.Tail(r.pad)|, |r.terms|] + EncodeTerms(r.terms);
    assert all + [e.Code()] + e.Head() + e.Tail(r.pad) == all + ([e.Code()] + e.Head() + e.Tail(r.pad));
  }

  /** The words of each command, those trailing it included. */
  function CommandWords(c: Command, pad: seq<U32>): seq<U32>
    requires c.Valid() && |pad| < 0xffff_ffff
  {
    match c
    case ValidateCrc(crc, start, length, into) => [0, crc, start, length, |pad| + 1, into] + pad
    case Ping(into) => [1, |pad| + 1, into] + pad
    case Load(count, destination, source) => [2, count, destination, source, |pad|] + pad
    case Dma(address, descriptors) => [3, address, |descriptors| / 3] + descriptors + [|pad|] + pad
    case Extract(kind, from, to) => [4, kind, from, to, |pad|] + pad
    case HoldReset => [5, |pad|] + pad
    case ReleaseReset => [6, |pad|] + pad
    case LoadImmediate(width, destination, value) => [7, width, destination, value, |pad|] + pad
    case Read(width, address, into) => [8, width, address, |pad| + 1, into] + pad
    case DmaHardware(address, descriptors) => [9, address, |descriptors| / 3] + descriptors + [|pad|] + pad
    case SetVariable(value, into) => [10, value, |pad| + 1, into] + pad
    case Exit => [11, |pad|] + pad
    case Poll(width, address, value, polls) => [12, width, address, value, polls, |pad|] + pad
    case LoadPacked(length, source) => [13, length, source, |pad|] + pad
  }

  lemma CommandIs(c: Command, pad: seq<U32>)
    requires c.Valid() && |pad| < 0xffff_ffff
    ensures [c.Code()] + c.Head() + c.Tail(pad) == CommandWords(c, pad)
  {
  }

  /** A term by its two words: the low byte of the first says what to do, the next byte what to do to the operand
      first, and the bit above whether the second word is the operand or the number of a variable. */
  function Meaning(operation: U32, word: U32, acc: U32, vars: Variables): (U32, Variables) {
    var fetched: U32 := if operation / 0x1_0000 == 1 || word >= 32 then word else vars[word];
    var v: U32 :=
      match operation / 256 % 256
      case 0 => fetched
      case 1 => if fetched == 0 then 1 else 0
      case _ => 0xffff_ffff - fetched;
    match operation % 256
    case 0 => (v, vars)
    case 1 => (if acc != 0 && v != 0 then 1 else 0, vars)
    case 2 => (if acc != 0 || v != 0 then 1 else 0, vars)
    case 3 => (BitAnd(acc, v), vars)
    case 4 => (BitOr(acc, v), vars)
    case 5 => (if acc == v then 1 else 0, vars)
    case 6 => (acc, if word < 32 then vars[word := acc] else vars)
    case _ => (if acc != v then 1 else 0, vars)
  }

  lemma TermMeans(t: Term, acc: U32, vars: Variables)
    requires t.Valid()
    ensures Step(t, acc, vars) == Meaning(t.Encode()[0], t.Encode()[1], acc, vars)
  {
    hide BitAnd, BitOr;
    if t.Combine? {
      var b, u, m := t.binary.Code(), t.unary.Code(), if t.operand.Variable? then 0 else 1;
      assert t.Encode()[0] == b + 256 * u + 0x1_0000 * m;
      DivMod(b + 256 * u + 0x1_0000 * m, u + 256 * m, b, 256);
      DivMod(b + 256 * u + 0x1_0000 * m, m, b + 256 * u, 0x1_0000);
    }
  }

  /* ---- memory ---- */

  /** A write shows where it went and nowhere else, as long as it does not run into itself. */
  lemma {:induction false} PokeShows(mem: Memory, a: nat, data: seq<U8>, at: nat)
    requires |data| <= 0x100_0000
    ensures PeekByte(Poke(mem, a, data), at) ==
            var i := (at - a) % 0x100_0000; if i < |data| then data[i] else PeekByte(mem, at)
    decreases |data|
  {
    hide PeekByte;
    if data != [] {
      var now := mem[a % ADDRESS_SPACE := data[0]];
      PokeShows(now, a + 1, data[1..], at);
      OneLess(at - a);
      OneByteShows(mem, a, data[0], at);
    }
  }

  lemma OneByteShows(mem: Memory, a: nat, b: U8, at: nat)
    ensures PeekByte(mem[a % ADDRESS_SPACE := b], at) == if (at - a) % 0x100_0000 == 0 then b else PeekByte(mem, at)
  {
    assert at % 0x100_0000 == a % 0x100_0000 <==> (at - a) % 0x100_0000 == 0;
  }

  lemma OneLess(k: int)
    ensures (k - 1) % 0x100_0000 == if k % 0x100_0000 == 0 then 0xff_ffff else k % 0x100_0000 - 1
  {
  }

  /* ---- the commands behind a bus that works ---- */

  ghost predicate Works(chip: Chip) { forall n :: chip.fault(n) == 0 }

  /** Bytes stored from an address on, at most 32 to a transfer. */
  function Stored(m: Machine, a: nat, data: seq<U8>): (r: Machine)
    ensures r.vars == m.vars
  {
    m.(device := m.device.(mem := Poke(m.device.mem, a, data), transfers := m.device.transfers + (|data| + 31) / 32))
  }

  lemma {:induction false} AllWork(chip: Chip, next: nat, n: nat)
    requires Works(chip)
    ensures Working(chip, next, n) == n
    decreases n
  {
    if n > 0 {
      AllWork(chip, next + 1, n - 1);
    }
  }

  lemma WriteStores(m: Machine, chip: Chip, a: nat, data: seq<U8>)
    requires Works(chip)
    ensures m.Write(chip, a, data) == Outcome(0, Stored(m, a, data))
  {
    hide Poke;
    AllWork(chip, m.device.transfers, Transfers(|data|));
  }

  /** The arguments of a firmware command: the register 0x258 tells where they are. */
  function Argued(m: Machine, at: U32, x: U32, y: U32): (r: Machine)
    ensures r.vars == m.vars
  {
    Stored(Stored(Stored(m, 0x258, Be32(at)), at, Be32(x)), at + 4, Be32(y))
  }

  lemma ArgumentsStore(m: Machine, chip: Chip, at: U32, x: U32, y: U32)
    requires Works(chip)
    ensures m.Arguments(chip, at, x, y) == Outcome(0, Argued(m, at, x, y))
  {
    hide Stored, Be32, Machine.Write;
    var m1 := Stored(m, 0x258, Be32(at));
    WriteStores(m, chip, 0x258, Be32(at));
    WriteStores(m1, chip, at, Be32(x));
    WriteStores(Stored(m1, at, Be32(x)), chip, at + 4, Be32(y));
  }

  /** A firmware command, by its number. */
  function Called(m: Machine, chip: Chip, number: int): Outcome {
    var r := chip.execute(m.device, number);
    Outcome(r.0, m.(device := r.1))
  }

  /** The processor is held by a one in the register 0x110840 and let go by a zero, and a part of the file is copied
      as it is. */
  lemma StoresOnWorkingBus(c: Command, m: Machine, chip: Chip, image: Image)
    requires Works(chip) && c.Valid()
    ensures c.HoldReset? ==> Exec(c, m, chip, image) == Outcome(0, Stored(m, 0x110840, [0, 0, 0, 1]))
    ensures c.ReleaseReset? ==> Exec(c, m, chip, image) == Outcome(0, Stored(m, 0x110840, [0, 0, 0, 0]))
    ensures c.Load? ==>
            var at := 4 * (image.dataOffset + c.source);
            Exec(c, m, chip, image) ==
            if at + 4 * c.count > |image.data| then Outcome(-2, m)
            else Outcome(0, Stored(m, c.destination, image.data[at..at + 4 * c.count]))
  {
    hide Stored, Machine.Write;
    match c
    case HoldReset => WriteStores(m, chip, 0x110840, [0, 0, 0, 1]);
    case ReleaseReset => WriteStores(m, chip, 0x110840, [0, 0, 0, 0]);
    case Load(count, destination, source) =>
      var at := 4 * (image.dataOffset + source);
      if at + 4 * count <= |image.data| {
        WriteStores(m, chip, destination, image.data[at..at + 4 * count]);
      }
    case _ =>
  }

  /** A value goes to memory with its most significant byte first, and only as many of its bytes as are asked for. */
  lemma ImmediateOnWorkingBus(c: Command, m: Machine, chip: Chip, image: Image)
    requires Works(chip) && c.Valid() && c.LoadImmediate?
    ensures c.width == 4 ==>
            && Exec(c, m, chip, image) == Outcome(0, Stored(m, c.destination, Be32(c.value)))
            && Value(Be32(c.value)) == c.value
    ensures c.width == 2 ==>
            var low := c.value % 0x1_0000;
            Exec(c, m, chip, image) == Outcome(0, Stored(m, c.destination, Be16(low))) && Value(Be16(low)) == low
    ensures c.width == 1 ==> Exec(c, m, chip, image) == Outcome(0, Stored(m, c.destination, [c.value % 256]))
    ensures c.width !in [1, 2, 4] ==> Exec(c, m, chip, image) == Outcome(-2, m)
  {
    hide Stored, Machine.Write, Be16, Be32, Value;
    if c.width == 4 {
      WriteStores(m, chip, c.destination, Be32(c.value));
      ValueOfBe32(c.value);
    } else if c.width == 2 {
      WriteStores(m, chip, c.destination, Be16(c.value % 0x1_0000));
      ValueOfBe16(c.value % 0x1_0000);
    } else if c.width == 1 {
      WriteStores(m, chip, c.destination, [c.value % 256]);
    }
  }

  lemma ValueOfBe32(v: U32)
    ensures Value(Be32(v)) == v
  {
    assert v == 256 * (v / 256) + v % 256;
    assert v / 256 == 256 * (v / 256 / 256) + v / 256 % 256;
    assert v / 256 / 256 == 256 * (v / 256 / 256 / 256) + v / 256 / 256 % 256;
    assert v / 0x1_0000 == v / 256 / 256 && v / 0x100_0000 == v / 256 / 256 / 256;
  }

  /** What the commands ask of the firmware: its command 22 checks what the arguments name, against the word it leaves
      behind them; 24 extracts; 21 starts a transfer of the descriptors; 23 is a ping, whose answer plays no part. */
  lemma CallsOnWorkingBus(c: Command, m: Machine, chip: Chip, image: Image)
    requires Works(chip) && c.Valid()
    ensures c.ValidateCrc? ==>
            var o, p := Exec(c, m, chip, image), Called(Argued(m, image.argsAddr, c.start, c.length), chip, 22);
            o.rc == p.rc &&
            (if p.rc != 0 then o == p
             else o.machine.device == p.machine.device.(transfers := p.machine.device.transfers + 1) &&
                  o.machine.vars == m.vars[c.into :=
                    if Value(Peek(p.machine.device.mem, image.argsAddr + 8, 4)) == c.crc then 1 else 0])
    ensures c.Extract? ==>
            Exec(c, m, chip, image) ==
            Called(Stored(Argued(m, image.argsAddr, c.kind, c.from), image.argsAddr + 8, Be32(c.to)), chip, 24)
    ensures c.Dma? ==>
            Exec(c, m, chip, image) ==
            Called(Stored(Stored(m, c.address, Flat(c.descriptors)), 0x258, Be32(c.address)), chip, 21)
    ensures c.Ping? ==>
            Exec(c, m, chip, image) == Outcome(0, Called(m, chip, 23).machine.(vars := m.vars[c.into := 1]))
  {
    hide Stored, Argued, Be32, Flat, Machine.Write, Machine.Arguments, Peek, Value;
    match c
    case ValidateCrc(crc, start, length, into) =>
      ArgumentsStore(m, chip, image.argsAddr, start, length);
    case Extract(kind, from, to) =>
      ArgumentsStore(m, chip, image.argsAddr, kind, from);
      WriteStores(Argued(m, image.argsAddr, kind, from), chip, image.argsAddr + 8, Be32(to));
    case Dma(address, descriptors) =>
      WriteStores(m, chip, address, Flat(descriptors));
      WriteStores(Stored(m, address, Flat(descriptors)), chip, 0x258, Be32(address));
    case _ =>
  }

  /** The commands that poll and read: a hardware transfer is told where its descriptors are by the register 0x110050,
      before and after which the chip must be idle. */
  lemma ReadsOnWorkingBus(c: Command, m: Machine, chip: Chip, image: Image)
    requires Works(chip) && c.Valid()
    ensures c.Read? && c.width in [1, 2, 4] ==>
            var o := Exec(c, m, chip, image);
            o.rc == 0 && o.machine.device == m.device.(transfers := m.device.transfers + 1) &&
            o.machine.vars == m.vars[c.into := Value(Peek(m.device.mem, c.address, c.width))]
    ensures c.Read? && c.width !in [1, 2, 4] ==> Exec(c, m, chip, image) == Outcome(-2, m)
    ensures c.DmaHardware? ==>
            var (rc, d) := chip.wait(Stored(m, c.address, Flat(c.descriptors)).device, []);
            Exec(c, m, chip, image) ==
            if rc != 0 then Outcome(rc, m.(device := d))
            else m.(device := Stored(m.(device := d), 0x110050, Be32(c.address)).device).Wait(chip, [])
    ensures c.Poll? ==>
            Exec(c, m, chip, image) == m.Wait(chip, [c.width, c.address, c.match_, c.polls])
  {
    hide Be32, Flat, Machine.Write, Peek, Value, Poke;
    match c
    case DmaHardware(address, descriptors) =>
      var s := Stored(m, address, Flat(descriptors));
      WriteStores(m, chip, address, Flat(descriptors));
      var (rc, d) := chip.wait(s.device, []);
      WriteStores(s.(device := d), chip, 0x110050, Be32(address));
    case _ =>
  }
}
