/** The interpreter of core/avl62x1.c: a reader walking the words of a patch file, 32 variables,
    and the chip behind a bus that carries at most 32 data bytes per write. Each method takes, as
    ghost arguments, what its input is supposed to encode, and its contract says what happens when
    the words at the reader do encode that. Without that it still stays inside the file. */
module PatchLoader {
  import opened PatchScript

  const CHIP_ID: U32 := 0x62615ca8

  /** A byte string as words; trailing bytes that fill no word are ignored. */
  function WordsOf(data: seq<U8>): (w: seq<U32>)
    ensures |w| == |data| / 4
    ensures forall i :: 0 <= i < |w| ==> w[i] == Value(data[4 * i..4 * i + 4])
  {
    seq<U32>(|data| / 4, i requires 0 <= i < |data| / 4 => Value(data[4 * i..4 * i + 4]))
  }

  /** Whole words of the file, put back into bytes, are the bytes they came from. */
  lemma {:induction false} FlatOfWords(data: seq<U8>, k: nat, n: nat)
    requires 4 * (k + n) <= |data|
    ensures Flat(WordsOf(data)[k..k + n]) == data[4 * k..4 * (k + n)]
    decreases n
  {
    hide Be32, Value;
    if n > 0 {
      var w := WordsOf(data)[k..k + n];
      FlatOfWords(data, k + 1, n - 1);
      assert w[1..] == WordsOf(data)[k + 1..k + 1 + (n - 1)];
      Be32OfValue(data[4 * k..4 * k + 4]);
      assert data[4 * k..4 * (k + n)] == data[4 * k..4 * k + 4] + data[4 * (k + 1)..4 * (k + n)];
    }
  }

  /** The sizes in the header are those of a file this long. */
  predicate SizesFit(patch: seq<U8>) {
    |patch| >= 40 && var w := WordsOf(patch); w[1] * 4 <= |patch| && w[4] < w[1]
  }

  /** And it is for this chip, in the format this loader knows. */
  predicate HeaderFits(patch: seq<U8>) {
    SizesFit(patch) && var w := WordsOf(patch); w[7] == CHIP_ID && w[6] / 0x1_0000 % 256 == 8
  }

  class Loader {
    const patch: seq<U8>
    const chip: Chip
    const variables: array<U32>
    var device: Device
    /** The reader: how much of the patch it may use, and where it stands. */
    var size: nat
    var pos: nat

    ghost predicate Valid()
      reads `size
    {
      variables.Length == VARIABLES && size <= |patch|
    }

    ghost function State(): Machine
      reads this, variables
      requires Valid()
    {
      Machine(device, variables[..])
    }

    /** The reader has just the words `w` before it. */
    ghost predicate Before(w: seq<U32>)
      reads `pos, `size
      requires Valid()
    {
      pos % 4 == 0 && pos / 4 + |w| == size / 4 && WordsOf(patch[..size])[pos / 4..pos / 4 + |w|] == w
    }

    /** The words from byte `at` on are `w`. */
    ghost predicate Found(at: nat, w: seq<U32>)
      reads `size
      requires Valid()
    {
      at % 4 == 0 && at / 4 + |w| == size / 4 && WordsOf(patch[..size])[at / 4..at / 4 + |w|] == w
    }

    lemma FoundAhead(w: seq<U32>, n: nat)
      requires Valid() && n <= |w| && Before(w)
      ensures Found(pos + 4 * n, w[n..])
    {
      var k := pos / 4;
      assert w[..n] + w[n..] == w;
      SplitHere(WordsOf(patch[..size]), k, w[..n], w[n..]);
      assert (pos + 4 * n) / 4 == k + n;
    }

    lemma Arrived(w: seq<U32>)
      requires Valid() && Found(pos, w)
      ensures Before(w)
    {
    }

    constructor (patch: seq<U8>, chip: Chip, device: Device)
      ensures Valid() && this.patch == patch && this.chip == chip && fresh(variables)
      ensures State() == Machine(device, seq(VARIABLES, _ => 0)) && pos == 0 && size == |patch|
    {
      this.patch, this.chip, this.device := patch, chip, device;
      size, pos := |patch|, 0;
      variables := new U32[VARIABLES](_ => 0);
    }

    /* ---- reading ---- */

    method ReadWord(ghost w: seq<U32>) returns (ok: bool, value: U32)
      requires Valid()
      modifies this`pos
      ensures Valid()
      ensures ok == (old(pos) + 4 <= size) && pos == if ok then old(pos) + 4 else old(pos)
      ensures old(Before(w)) && w != [] ==> ok && value == w[0] && Before(w[1..])
    {
      if pos > size || size - pos < 4 {
        return false, 0;
      }
      value := Value(patch[pos..pos + 4]);
      ghost var k := pos / 4;
      if Before(w) && w != [] {
        assert w[0] == WordsOf(patch[..size])[k];
        assert patch[..size][4 * k..4 * k + 4] == patch[pos..pos + 4];
        assert WordsOf(patch[..size])[k + 1..k + 1 + |w[1..]|] == w[1..];
      }
      pos := pos + 4;
      ok := true;
    }

    method SkipWords(words: U32, ghost w: seq<U32>) returns (ok: bool)
      requires Valid()
      modifies this`pos
      ensures Valid()
      ensures ok == (old(pos) + 4 * words <= size) && pos == if ok then old(pos) + 4 * words else old(pos)
      ensures old(Before(w)) && words <= |w| ==> ok && Before(w[words..])
    {
      var bytes := words * 4;
      if pos > size || bytes > size - pos {
        return false;
      }
      if Before(w) && words <= |w| {
        assert WordsOf(patch[..size])[pos / 4 + words..pos / 4 + |w|] == w[words..];
      }
      pos := pos + bytes;
      ok := true;
    }

    /* ---- the bus ---- */

    /** One bus write: three address bytes, then data for consecutive addresses. */
    method BusWrite(packet: seq<U8>) returns (rc: int)
      requires 3 <= |packet| <= 3 + WRITE_MAX
      modifies this`device
      ensures (rc, device) == Transfer(chip, old(device),
                (packet[0] as int) * 0x1_0000 + (packet[1] as int) * 256 + (packet[2] as int), packet[3..])
    {
      var address: int := (packet[0] as int) * 0x1_0000 + (packet[1] as int) * 256 + (packet[2] as int);
      var r := Transfer(chip, device, address, packet[3..]);
      rc, device := r.0, r.1;
    }

    /** A write of any size, cut into bursts the bus can carry, is one write, which stops before the
        first burst that fails. */
    method Write(address: U32, data: seq<U8>) returns (rc: int)
      modifies this`device
      ensures (rc, device) == Sent(chip, old(device), address, data)
    {
      hide Poke, Sent, Transfer;
      var reg: U32, rest: seq<U8> := address, data;
      while rest != []
        invariant Sent(chip, device, reg, rest) == Sent(chip, old(device), address, data)
        decreases |rest|
      {
        var chunk := if |rest| > WRITE_MAX then WRITE_MAX else |rest|;
        var packet: seq<U8> := [reg / 0x1_0000 % 256, reg / 256 % 256, reg % 256] + rest[..chunk];
        assert packet[3..] == rest[..chunk];
        LowBytes(reg);
        TransferModulo(chip, device, reg % ADDRESS_SPACE, reg, rest[..chunk]);
        SentStep(chip, device, reg, rest);
        rc := BusWrite(packet);
        if rc != 0 {
          return;
        }
        WrappedAddress(reg + chunk);
        SentModulo(chip, device, Wrapped(reg + chunk), reg + chunk, rest[chunk..]);
        reg := Wrapped(reg + chunk);
        rest := rest[chunk..];
      }
      SentNothing(chip, device, reg);
      rc := 0;
    }

    method Write32(address: U32, value: U32) returns (rc: int)
      modifies this`device
      ensures (rc, device) == Sent(chip, old(device), address, Be32(value))
    {
      rc := Write(address, Be32(value));
    }

    /** Thirty-two bits at an offset from a 32-bit address that may wrap around. */
    method WriteWrapped(address: U32, offset: U32, value: U32) returns (rc: int)
      modifies this`device
      ensures (rc, device) == Sent(chip, old(device), address + offset, Be32(value))
    {
      hide Sent;
      WrappedAddress(address + offset);
      SentModulo(chip, device, Wrapped(address + offset), address + offset, Be32(value));
      rc := Write(Wrapped(address + offset), Be32(value));
    }

    /** Where the arguments of a firmware command are, and its first two. */
    method WriteArguments(address: U32, x: U32, y: U32) returns (rc: int)
      requires Valid()
      modifies this`device
      ensures Outcome(rc, State()) == old(State()).Arguments(chip, address, x, y)
    {
      hide Sent, Be32;
      rc := Write32(REG_ARGS_ADDR, address);
      if rc != 0 { return; }
      rc := Write32(address, x);
      if rc != 0 { return; }
      rc := WriteWrapped(address, 4, y);
    }

    method ReadWrapped(address: U32, offset: U32) returns (rc: int, value: U32)
      modifies this`device
      ensures (rc, value, device) == ReadWidth(chip, old(device), 4, address + offset)
    {
      WrappedAddress(address + offset);
      PeekModulo(device.mem, Wrapped(address + offset), address + offset);
      rc, value := ReadBus(Wrapped(address + offset), 4);
    }

    method SendCommand(code: int) returns (rc: int)
      modifies this`device
      ensures (rc, device) == chip.execute(old(device), code)
    {
      var r := chip.execute(device, code);
      rc, device := r.0, r.1;
    }

    method WaitFor(what: seq<U32>) returns (rc: int)
      modifies this`device
      ensures (rc, device) == chip.wait(old(device), what)
    {
      var r := chip.wait(device, what);
      rc, device := r.0, r.1;
    }

    method ReadBus(address: U32, width: U32) returns (rc: int, value: U32)
      modifies this`device
      ensures (rc, value, device) == ReadWidth(chip, old(device), width, address)
    {
      if width != 4 && width != 2 && width != 1 {
        return -2, 0;
      }
      rc := chip.fault(device.transfers);
      value := if rc == 0 then Value(Peek(device.mem, address, width)) else 0;
      device := device.(transfers := device.transfers + 1);
    }

    /* ---- the trailing words of a command ---- */

    /** A count, then that many words nobody looks at. */
    method SkipTail(ghost pad: seq<U32>, ghost rest: seq<U32>) returns (rc: int)
      requires Valid() && |pad| < 0xffff_ffff
      modifies this`pos
      ensures Valid() && pos >= old(pos)
      ensures old(Before([|pad|] + pad + rest)) ==> rc == 0 && Before(rest)
    {
      hide Before;
      ghost var w := [|pad|] + pad + rest;
      assert w[1..] == pad + rest && (pad + rest)[|pad|..] == rest;
      var ok, count := ReadWord(w);
      if !ok { return -2; }
      ok := SkipWords(count, pad + rest);
      return if ok then 0 else -2;
    }

    /** A count of at least one, then the index of the variable that takes the result. */
    method ReadTarget(ghost into: nat, ghost pad: seq<U32>, ghost rest: seq<U32>)
        returns (rc: int, count: U32, index: U32)
      requires Valid() && |pad| < 0xffff_ffff && into < VARIABLES
      modifies this`pos
      ensures Valid() && pos >= old(pos)
      ensures rc == 0 ==> index < VARIABLES && count > 0
      ensures old(Before([|pad| + 1, into] + pad + rest)) ==>
          rc == 0 && index == into && count == |pad| + 1 && Before(pad + rest)
    {
      hide Before;
      ghost var w := [|pad| + 1, into] + pad + rest;
      assert w[1..][1..] == pad + rest;
      var ok;
      ok, count := ReadWord(w);
      if !ok { return -2, 0, 0; }
      ok, index := ReadWord(w[1..]);
      if !ok { return -2, 0, 0; }
      if index >= VARIABLES || count == 0 { return -2, count, index; }
      rc := 0;
    }

    /** Stores a result and passes over the rest of the trailing words. */
    method StoreResult(index: U32, value: U32, count: U32, ghost pad: seq<U32>, ghost rest: seq<U32>) returns (rc: int)
      requires Valid() && index < VARIABLES && count > 0
      modifies this`pos, variables
      ensures Valid() && pos >= old(pos)
      ensures variables[..] == old(variables[..])[index := value]
      ensures old(Before(pad + rest)) && count == |pad| + 1 ==> rc == 0 && Before(rest)
    {
      hide Before;
      variables[index] := value;
      assert (pad + rest)[|pad|..] == rest;
      var ok := SkipWords(count - 1, pad + rest);
      return if ok then 0 else -2;
    }

    /** Three words in a row. */
    method ReadThree(ghost x: U32, ghost y: U32, ghost z: U32, ghost tail: seq<U32>)
        returns (ok: bool, a: U32, b: U32, c: U32)
      requires Valid()
      modifies this`pos
      ensures Valid() && pos >= old(pos)
      ensures old(Before([x, y, z] + tail)) ==> ok && a == x && b == y && c == z && Before(tail)
    {
      hide Before;
      ghost var w := [x, y, z] + tail;
      assert w[1..][1..][1..] == tail;
      b, c := 0, 0;
      ok, a := ReadWord(w);
      if !ok { return; }
      ok, b := ReadWord(w[1..]);
      if !ok { return; }
      ok, c := ReadWord(w[1..][1..]);
    }

    method ReadTwo(ghost x: U32, ghost y: U32, ghost tail: seq<U32>) returns (ok: bool, a: U32, b: U32)
      requires Valid()
      modifies this`pos
      ensures Valid() && pos >= old(pos)
      ensures ok ==> pos == old(pos) + 8 && pos <= size
      ensures old(Before([x, y] + tail)) ==> ok && a == x && b == y && Before(tail)
    {
      hide Before;
      ghost var w := [x, y] + tail;
      assert w[1..][1..] == tail;
      b := 0;
      ok, a := ReadWord(w);
      if !ok { return; }
      ok, b := ReadWord(w[1..]);
    }

    /** The reader stands before what follows the code of command `c`. */
    ghost predicate Expects(c: Command, pad: seq<U32>, rest: seq<U32>)
      reads `pos, `size
      requires Valid() && c.Valid() && |pad| < 0xffff_ffff
    {
      Before(c.Head() + (c.Tail(pad) + rest))
    }

    /** The file as the commands that copy from it see it. */
    ghost predicate IsImage(image: Image)
      reads `pos, `size
      requires Valid()
    {
      image.data == patch[..size]
    }

    /* ---- the commands ---- */

    method RunValidateCrc(argsAddr: U32, ghost c: Command, ghost pad: seq<U32>, ghost rest: seq<U32>,
        ghost image: Image) returns (rc: int)
      requires Valid() && image.argsAddr == argsAddr && |pad| < 0xffff_ffff && c.ValidateCrc? && c.Valid()
      modifies this`pos, this`device, variables
      ensures Valid() && pos >= old(pos)
      ensures old(Expects(c, pad, rest)) ==>
        Outcome(rc, State()) == Exec(c, old(State()), chip, image) && (rc == 0 ==> Before(rest))
    {
      hide Before, Sent, Peek, Be32, Value;
      assert c.Tail(pad) + rest == [|pad| + 1, c.into] + pad + rest;
      var ok, expected, start, length := ReadThree(c.crc, c.start, c.length, c.Tail(pad) + rest);
      if !ok { return -2; }
      rc := WriteArguments(argsAddr, start, length);
      if rc != 0 { return; }
      rc := SendCommand(22);
      if rc != 0 { return; }
      var value;
      rc, value := ReadWrapped(argsAddr, 8);
      if rc != 0 { return; }
      var count, index;
      rc, count, index := ReadTarget(c.into, pad, rest);
      if rc != 0 { return; }
      rc := StoreResult(index, if value == expected then 1 else 0, count, pad, rest);
    }

    /** The answer to the ping is overwritten by the reads that follow it, so the result is always
        that the ping worked. */
    method RunPing(ghost c: Command, ghost pad: seq<U32>, ghost rest: seq<U32>, ghost image: Image) returns (rc: int)
      requires Valid() && |pad| < 0xffff_ffff && c.Ping? && c.Valid()
      modifies this`pos, this`device, variables
      ensures Valid() && pos >= old(pos)
      ensures old(Expects(c, pad, rest)) ==>
        Outcome(rc, State()) == Exec(c, old(State()), chip, image) && (rc == 0 ==> Before(rest))
    {
      hide Before, Sent, Peek, Be32, Value;
      assert c.Head() + (c.Tail(pad) + rest) == [|pad| + 1, c.into] + pad + rest;
      rc := SendCommand(23);
      var count, index;
      rc, count, index := ReadTarget(c.into, pad, rest);
      if rc != 0 { return; }
      rc := StoreResult(index, if rc == 0 then 1 else 0, count, pad, rest);
    }

    method RunLoad(dataOffset: U32, ghost c: Command, ghost pad: seq<U32>, ghost rest: seq<U32>, ghost image: Image)
        returns (rc: int)
      requires Valid() && image.dataOffset == dataOffset && IsImage(image) && |pad| < 0xffff_ffff && c.Load? &&
          c.Valid()
      modifies this`pos, this`device, variables
      ensures Valid() && pos >= old(pos)
      ensures old(Expects(c, pad, rest)) ==>
        Outcome(rc, State()) == Exec(c, old(State()), chip, image) && (rc == 0 ==> Before(rest))
    {
      hide Before, Sent, Peek, Be32, Value;
      assert c.Tail(pad) + rest == [|pad|] + pad + rest;
      var ok, count, destination, offset := ReadThree(c.count, c.destination, c.source, c.Tail(pad) + rest);
      if !ok { return -2; }
      var source, bytes := ((dataOffset as int) + (offset as int)) * 4, (count as int) * 4;
      if source > size || bytes > size - source { return -2; }
      assert patch[source..source + bytes] == patch[..size][source..source + bytes];
      rc := Write(destination, patch[source..source + bytes]);
      if rc != 0 { return; }
      rc := SkipTail(pad, rest);
    }

    /** Descriptors follow the two fixed words directly. */
    method TakeDescriptors(address: U32, count: U32, ghost descriptors: seq<U32>, ghost tail: seq<U32>)
        returns (rc: int)
      requires Valid()
      modifies this`pos, this`device
      ensures Valid() && pos >= old(pos)
      ensures old(Before(descriptors + tail)) && |descriptors| == 3 * count ==>
        && (rc, device) == Sent(chip, old(device), address, Flat(descriptors))
        && (rc == 0 ==> Before(tail))
    {
      hide Sent, Flat, Value;
      var bytes := (count as int) * 12;
      if pos > size || bytes > size - pos {
        return -2;
      }
      if Before(descriptors + tail) && |descriptors| == 3 * count {
        ghost var k, n := pos / 4, |descriptors|;
        WordsHere(patch[..size], k, descriptors, tail);
        Inside(pos, bytes);
        assert 4 * k == pos && 4 * (k + n) == pos + bytes && (pos + bytes) / 4 == k + n;
      }
      rc := Write(address, patch[pos..pos + bytes]);
      if rc != 0 { return; }
      pos := pos + bytes;
    }

    method RunDma(ghost c: Command, ghost pad: seq<U32>, ghost rest: seq<U32>, ghost image: Image) returns (rc: int)
      requires Valid() && |pad| < 0xffff_ffff && c.Dma? && c.Valid()
      modifies this`pos, this`device, variables
      ensures Valid() && pos >= old(pos)
      ensures old(Expects(c, pad, rest)) ==>
        Outcome(rc, State()) == Exec(c, old(State()), chip, image) && (rc == 0 ==> Before(rest))
    {
      hide Before, Sent, Peek, Be32, Value, Flat;
      ghost var tail := c.Tail(pad) + rest;
      assert tail == [|pad|] + pad + rest;
      assert c.Head() + tail == [c.address, |c.descriptors| / 3] + (c.descriptors + tail);
      var ok, address, count := ReadTwo(c.address, |c.descriptors| / 3, c.descriptors + tail);
      if !ok { return -2; }
      rc := TakeDescriptors(address, count, c.descriptors, tail);
      if rc != 0 { return; }
      rc := Write32(REG_ARGS_ADDR, address);
      if rc != 0 { return; }
      rc := SendCommand(21);
      if rc != 0 { return; }
      rc := SkipTail(pad, rest);
    }

    method RunExtract(argsAddr: U32, ghost c: Command, ghost pad: seq<U32>, ghost rest: seq<U32>, ghost image: Image)
        returns (rc: int)
      requires Valid() && image.argsAddr == argsAddr && |pad| < 0xffff_ffff && c.Extract? && c.Valid()
      modifies this`pos, this`device, variables
      ensures Valid() && pos >= old(pos)
      ensures old(Expects(c, pad, rest)) ==>
        Outcome(rc, State()) == Exec(c, old(State()), chip, image) && (rc == 0 ==> Before(rest))
    {
      hide Before, Sent, Peek, Be32, Value;
      assert c.Tail(pad) + rest == [|pad|] + pad + rest;
      var ok, kind, from, to := ReadThree(c.kind, c.from, c.to, c.Tail(pad) + rest);
      if !ok { return -2; }
      rc := WriteArguments(argsAddr, kind, from);
      if rc != 0 { return; }
      rc := WriteWrapped(argsAddr, 8, to);
      if rc != 0 { return; }
      rc := SendCommand(24);
      if rc != 0 { return; }
      rc := SkipTail(pad, rest);
    }

    method RunReset(hold: bool, ghost c: Command, ghost pad: seq<U32>, ghost rest: seq<U32>, ghost image: Image)
        returns (rc: int)
      requires Valid() && |pad| < 0xffff_ffff && c == if hold then HoldReset else ReleaseReset
      modifies this`pos, this`device, variables
      ensures Valid() && pos >= old(pos)
      ensures old(Expects(c, pad, rest)) ==>
        Outcome(rc, State()) == Exec(c, old(State()), chip, image) && (rc == 0 ==> Before(rest))
    {
      hide Before, Sent, Peek, Be32, Value;
      assert c.Head() + (c.Tail(pad) + rest) == [|pad|] + pad + rest;
      rc := Write32(REG_CPU_RESET, if hold then 1 else 0);
      if rc != 0 { return; }
      rc := SkipTail(pad, rest);
    }

    method RunLoadImmediate(ghost c: Command, ghost pad: seq<U32>, ghost rest: seq<U32>, ghost image: Image)
        returns (rc: int)
      requires Valid() && |pad| < 0xffff_ffff && c.LoadImmediate? && c.Valid()
      modifies this`pos, this`device, variables
      ensures Valid() && pos >= old(pos)
      ensures old(Expects(c, pad, rest)) ==>
        Outcome(rc, State()) == Exec(c, old(State()), chip, image) && (rc == 0 ==> Before(rest))
    {
      hide Before, Sent, Peek, Be32, Be16, Value;
      assert c.Tail(pad) + rest == [|pad|] + pad + rest;
      var ok, width, destination, value := ReadThree(c.width, c.destination, c.value, c.Tail(pad) + rest);
      if !ok { return -2; }
      if width == 4 {
        rc := Write32(destination, value);
      } else if width == 2 {
        rc := Write(destination, Be16(value % 0x1_0000));
      } else if width == 1 {
        rc := Write(destination, [value % 256]);
      } else {
        return -2;
      }
      if rc != 0 { return; }
      rc := SkipTail(pad, rest);
    }

    method RunLoadPacked(dataOffset: U32, ghost c: Command, ghost pad: seq<U32>, ghost rest: seq<U32>,
        ghost image: Image) returns (rc: int)
      requires Valid() && image.dataOffset == dataOffset && IsImage(image) && |pad| < 0xffff_ffff && c.LoadPacked? &&
          c.Valid()
      modifies this`pos, this`device, variables
      ensures Valid() && pos >= old(pos)
      ensures old(Expects(c, pad, rest)) ==>
        Outcome(rc, State()) == Exec(c, old(State()), chip, image) && (rc == 0 ==> Before(rest))
    {
      hide Before, PackedAt;
      assert c.Head() + (c.Tail(pad) + rest) == [c.length, c.source] + ([|pad|] + pad + rest);
      var ok, length, source := ReadTwo(c.length, c.source, [|pad|] + pad + rest);
      if !ok { return -2; }
      rc := Unpack(dataOffset, source, image);
      if rc != 0 { return; }
      rc := SkipTail(pad, rest);
    }

    /** The source's load_packed: destination, then records of offset, length and bytes. */
    method Unpack(dataOffset: U32, source: U32, ghost image: Image) returns (rc: int)
      requires Valid() && image.dataOffset == dataOffset && IsImage(image)
      modifies this`device
      ensures (rc, device) == PackedAt(chip, old(device), image, source)
    {
      hide Sent, Value, Wrapped;
      var at: int := ((dataOffset as int) + (source as int)) * 4;
      if at > size || size - at < 8 { return -2; }
      Inside(at + 2, 2);
      Inside(at + 4, 4);
      var records := Value(patch[at + 2..at + 4]);
      var destination := Value(patch[at + 4..at + 8]);
      at := at + 8;
      var left: int := records;
      while left > 0
        invariant left >= 0 && at >= 0
        invariant Packed(chip, device, image.data, at, destination, left) == PackedAt(chip, old(device), image, source)
      {
        if at > size || size - at < 4 { return -2; }
        Inside(at, 2);
        Inside(at + 2, 2);
        var offset, length := Value(patch[at..at + 2]), Value(patch[at + 2..at + 4]);
        at := at + 4;
        if at > size || length > size - at { return -2; }
        Inside(at, length);
        rc := Write(Wrapped((destination as int) + (offset as int)), patch[at..at + length]);
        if rc != 0 { return; }
        at := at + length;
        left := left - 1;
      }
      rc := 0;
    }

    lemma Inside(at: nat, n: nat)
      requires Valid() && at + n <= size
      ensures patch[at..at + n] == patch[..size][at..at + n]
    {
    }

    method RunRead(ghost c: Command, ghost pad: seq<U32>, ghost rest: seq<U32>, ghost image: Image) returns (rc: int)
      requires Valid() && |pad| < 0xffff_ffff && c.Read? && c.Valid()
      modifies this`pos, this`device, variables
      ensures Valid() && pos >= old(pos)
      ensures old(Expects(c, pad, rest)) ==>
        Outcome(rc, State()) == Exec(c, old(State()), chip, image) && (rc == 0 ==> Before(rest))
    {
      hide Before, ReadWidth;
      ghost var tail := [|pad| + 1, c.into] + pad + rest;
      assert c.Head() + (c.Tail(pad) + rest) == [c.width, c.address] + tail;
      var ok, width, address := ReadTwo(c.width, c.address, tail);
      if !ok { return -2; }
      var count, index, value;
      rc, count, index := ReadTarget(c.into, pad, rest);
      if rc != 0 { return; }
      rc, value := ReadBus(address, width);
      if rc != 0 {
        if width == 1 || width == 2 {
          variables[index] := value;
        }
        return;
      }
      rc := StoreResult(index, value, count, pad, rest);
    }

    method RunDmaHardware(ghost c: Command, ghost pad: seq<U32>, ghost rest: seq<U32>, ghost image: Image)
        returns (rc: int)
      requires Valid() && |pad| < 0xffff_ffff && c.DmaHardware? && c.Valid()
      modifies this`pos, this`device, variables
      ensures Valid() && pos >= old(pos)
      ensures old(Expects(c, pad, rest)) ==>
        Outcome(rc, State()) == Exec(c, old(State()), chip, image) && (rc == 0 ==> Before(rest))
    {
      hide Before, Sent, Peek, Be32, Value, Flat;
      ghost var tail := c.Tail(pad) + rest;
      assert tail == [|pad|] + pad + rest;
      assert c.Head() + tail == [c.address, |c.descriptors| / 3] + (c.descriptors + tail);
      var ok, address, count := ReadTwo(c.address, |c.descriptors| / 3, c.descriptors + tail);
      if !ok { return -2; }
      rc := TakeDescriptors(address, count, c.descriptors, tail);
      if rc != 0 { return; }
      rc := WaitFor([]);
      if rc != 0 { return; }
      rc := Write32(REG_DMA_COMMAND, address);
      if rc != 0 { return; }
      rc := WaitFor([]);
      if rc != 0 { return; }
      rc := SkipTail(pad, rest);
    }

    method RunSetVariable(ghost c: Command, ghost pad: seq<U32>, ghost rest: seq<U32>, ghost image: Image)
        returns (rc: int)
      requires Valid() && |pad| < 0xffff_ffff && c.SetVariable? && c.Valid()
      modifies this`pos, this`device, variables
      ensures Valid() && pos >= old(pos)
      ensures old(Expects(c, pad, rest)) ==>
        Outcome(rc, State()) == Exec(c, old(State()), chip, image) && (rc == 0 ==> Before(rest))
    {
      hide Before;
      ghost var tail := [|pad| + 1, c.into] + pad + rest;
      ghost var w := [c.value] + tail;
      assert c.Head() + (c.Tail(pad) + rest) == w && w[1..] == tail;
      var ok, value := ReadWord(w);
      if !ok { return -2; }
      var count, index;
      rc, count, index := ReadTarget(c.into, pad, rest);
      if rc != 0 { return; }
      rc := StoreResult(index, value, count, pad, rest);
    }

    method RunPoll(ghost c: Command, ghost pad: seq<U32>, ghost rest: seq<U32>, ghost image: Image) returns (rc: int)
      requires Valid() && |pad| < 0xffff_ffff && c.Poll? && c.Valid()
      modifies this`pos, this`device, variables
      ensures Valid() && pos >= old(pos)
      ensures old(Expects(c, pad, rest)) ==>
        Outcome(rc, State()) == Exec(c, old(State()), chip, image) && (rc == 0 ==> Before(rest))
    {
      hide Before;
      ghost var tail := [|pad|] + pad + rest;
      assert c.Head() + (c.Tail(pad) + rest) == [c.width, c.address] + ([c.match_, c.polls] + tail);
      var ok, width, address := ReadTwo(c.width, c.address, [c.match_, c.polls] + tail);
      if !ok { return -2; }
      var match_, polls;
      ok, match_, polls := ReadTwo(c.match_, c.polls, tail);
      if !ok { return -2; }
      rc := WaitFor([width, address, match_, polls]);
      if rc != 0 { return; }
      rc := SkipTail(pad, rest);
    }

    /** One command. `c` is what the code and the words after it are supposed to encode. */
    method RunCommand(command: U32, scriptEnd: nat, dataOffset: U32, argsAddr: U32,
                      ghost c: Command, ghost pad: seq<U32>, ghost rest: seq<U32>, ghost image: Image)
      returns (rc: int, exit: bool)
      requires Valid() && c.Valid() && |pad| < 0xffff_ffff
      requires IsImage(image) && image.dataOffset == dataOffset && image.argsAddr == argsAddr
      modifies this`pos, this`device, variables
      ensures Valid() && if exit then rc == 0 && pos == scriptEnd else pos >= old(pos)
      ensures command > 13 ==> rc == -2 && State() == old(State())
      ensures command == c.Code() && old(Expects(c, pad, rest)) ==>
        && Outcome(rc, State()) == Exec(c, old(State()), chip, image)
        && exit == c.Exit?
        && (rc == 0 && !exit ==> Before(rest))
    {
      hide Before, Exec, Expects;
      exit := false;
      match command {
        case 0 =>
          ghost var v := if c.ValidateCrc? then c else Command.ValidateCrc(0, 0, 0, 0);
          rc := RunValidateCrc(argsAddr, v, pad, rest, image);
        case 1 => rc := RunPing(if c.Ping? then c else Command.Ping(0), pad, rest, image);
        case 2 => rc := RunLoad(dataOffset, if c.Load? then c else Command.Load(0, 0, 0), pad, rest, image);
        case 3 => rc := RunDma(if c.Dma? then c else Command.Dma(0, []), pad, rest, image);
        case 4 => rc := RunExtract(argsAddr, if c.Extract? then c else Command.Extract(0, 0, 0), pad, rest, image);
        case 5 => rc := RunReset(true, HoldReset, pad, rest, image);
        case 6 => rc := RunReset(false, ReleaseReset, pad, rest, image);
        case 7 =>
          rc := RunLoadImmediate(if c.LoadImmediate? then c else Command.LoadImmediate(0, 0, 0), pad, rest, image);
        case 8 => rc := RunRead(if c.Read? then c else Command.Read(0, 0, 0), pad, rest, image);
        case 9 => rc := RunDmaHardware(if c.DmaHardware? then c else Command.DmaHardware(0, []), pad, rest, image);
        case 10 => rc := RunSetVariable(if c.SetVariable? then c else Command.SetVariable(0, 0), pad, rest, image);
        case 11 => rc, exit := RunExit(scriptEnd, pad, rest, image);
        case 12 => rc := RunPoll(if c.Poll? then c else Command.Poll(0, 0, 0, 0), pad, rest, image);
        case 13 =>
          rc := RunLoadPacked(dataOffset, if c.LoadPacked? then c else Command.LoadPacked(0, 0), pad, rest, image);
        case _ => rc := -2;
      }
    }

    method RunExit(scriptEnd: nat, ghost pad: seq<U32>, ghost rest: seq<U32>, ghost image: Image)
        returns (rc: int, exit: bool)
      requires Valid() && |pad| < 0xffff_ffff
      modifies this`pos
      ensures Valid() && if exit then rc == 0 && pos == scriptEnd else pos >= old(pos)
      ensures old(Expects(Exit, pad, rest)) ==> exit && Outcome(rc, State()) == Exec(Exit, old(State()), chip, image)
    {
      hide Before;
      ghost var w := Exit.Head() + (Exit.Tail(pad) + rest);
      assert w == [|pad|] + pad + rest;
      var ok, _ := ReadWord(w);
      if !ok { return -2, false; }
      pos := scriptEnd;
      return 0, true;
    }

    /* ---- conditions ---- */

    /** Whether an operation word and its operand mean anything: a known operation and modifier, and an
        index within the variables where there is one. The modifier applies to the index of a store too. */
    predicate IsTerm(operation: U32, operand: U32) {
      var unary, binary, mode := operation / 256 % 256, operation % 256, operation / 0x1_0000 % 4;
      && unary <= 2 && binary <= 7
      && (mode == 0 && binary != 6 ==> operand < VARIABLES)
      && (binary == 6 ==>
            (if unary == 1 then if operand == 0 then 1 else 0
             else if unary == 2 then 0xffff_ffff - operand
             else operand) < VARIABLES)
    }

    /** One operation of a condition on the accumulator. */
    method EvalTerm(operation: U32, operand: U32, acc: U32, ghost t: Term) returns (rc: int, result: U32)
      requires Valid() && t.Valid()
      modifies variables
      ensures rc == if IsTerm(operation, operand) then 0 else -2
      ensures rc != 0 ==> variables[..] == old(variables[..])
      ensures [operation, operand] == t.Encode() ==>
        rc == 0 && (result, variables[..]) == Step(t, acc, old(variables[..]))
    {
      hide BitAnd, BitOr;
      OperationParts(t);
      result := acc;
      var unary, binary, mode := operation / 256 % 256, operation % 256, operation / 0x1_0000 % 4;
      var value := operand;
      if mode == 0 && binary != 6 {
        if value >= VARIABLES { return -2, acc; }
        value := variables[value];
      }
      if unary == 1 {
        value := if value == 0 then 1 else 0;
      } else if unary == 2 {
        value := 0xffff_ffff - value;
      } else if unary != 0 {
        return -2, acc;
      }
      match binary {
        case 0 => result := value;
        case 6 =>
          if value >= VARIABLES { return -2, acc; }
          variables[value] := acc;
        case 1 => result := if acc != 0 && value != 0 then 1 else 0;
        case 2 => result := if acc != 0 || value != 0 then 1 else 0;
        case 3 => result := BitAnd(acc, value);
        case 4 => result := BitOr(acc, value);
        case 5 => result := if acc == value then 1 else 0;
        case 7 => result := if acc != value then 1 else 0;
        case _ => return -2, acc;
      }
      rc := 0;
    }

    /** A whole condition; none at all is true. */
    method EvalCondition(count: U32, ghost terms: seq<Term>, ghost rest: seq<U32>) returns (rc: int, condition: U32)
      requires Valid() && ValidTerms(terms)
      modifies this`pos, variables
      ensures Valid() && pos >= old(pos)
      ensures |terms| == count && old(Before(EncodeTerms(terms) + rest)) ==>
        rc == 0 && (condition, variables[..]) == Guard(terms, old(variables[..])) && Before(rest)
    {
      hide Before, Step;
      if count == 0 {
        assert terms == [] ==> EncodeTerms(terms) + rest == rest;
        return 0, 1;
      }
      condition := 0;
      ghost var left := terms;
      ghost var good := |terms| == count && Before(EncodeTerms(terms) + rest);
      ghost var vars := variables[..];
      for i := 0 to count
        invariant Valid() && pos >= old(pos) && ValidTerms(left)
        invariant good ==> |left| == count - i && Before(EncodeTerms(left) + rest)
        invariant good ==> Terms(left, condition, variables[..]) == Terms(terms, 0, vars)
      {
        ghost var t := if left != [] then left[0] else Store(0);
        ghost var more := if left != [] then left[1..] else [];
        ghost var e := t.Encode();
        assert good ==> EncodeTerms(left) + rest == [e[0], e[1]] + (EncodeTerms(more) + rest);
        var ok, operation, operand := ReadTwo(e[0], e[1], EncodeTerms(more) + rest);
        if !ok { return -2, 0; }
        rc, condition := EvalTerm(operation, operand, condition, t);
        if rc != 0 { return; }
        left := more;
      }
      assert good ==> left == [] && EncodeTerms(left) + rest == rest;
      rc := 0;
    }

    /* ---- records ---- */

    /** One record: its condition, then its command or a jump to its end. Either way, when the
        words encode a record and no Exit or error ends the run, the reader ends up right before
        whatever follows the record. */
    method RunRecord(scriptEnd: nat, dataOffset: U32, argsAddr: U32, ghost r: Record, ghost rest: seq<U32>,
        ghost image: Image)
      returns (rc: int, exit: bool)
      requires Valid() && r.Valid() && pos < scriptEnd <= size
      requires IsImage(image) && image.dataOffset == dataOffset && image.argsAddr == argsAddr
      modifies this`pos, this`device, variables
      ensures Valid()
      ensures if exit then rc == 0 && pos == scriptEnd else rc == 0 ==> pos > old(pos)
      ensures old(Before(r.Encode() + rest)) && old(pos) + 4 * |r.Encode()| <= scriptEnd ==>
        var (guard, vars) := Guard(r.terms, old(variables[..]));
        var m := old(State()).(vars := vars);
        && (guard == 0 ==> rc == 0 && !exit && State() == m && Before(rest))
        && (guard != 0 ==> Outcome(rc, State()) == Exec(r.command, m, chip, image) && exit == r.command.Exit?)
        && (guard != 0 && rc == 0 && !exit ==> Before(rest))
    {
      hide Before, Found, Exec, Guard, EncodeTerms, Command.Head, Command.Tail, Command.Code;
      exit := false;
      var start := pos;
      ghost var code, after := r.command.Code(), r.command.Head() + (r.command.Tail(r.pad) + rest);
      ghost var n := |r.Encode()|;
      ghost var w := EncodeTerms(r.terms) + ([code] + after);
      ghost var whole := r.Encode() + rest;
      assert whole == [n, |r.terms|] + w;
      assert whole[n..] == rest;
      if Before(whole) { FoundAhead(whole, n); }
      var ok, recordWords, conditionWords := ReadTwo(n, |r.terms|, w);
      if !ok || recordWords == 0 { return -2, false; }
      var nextRecord := start + 4 * (recordWords as int);
      if nextRecord > scriptEnd { return -2, false; }
      var condition;
      rc, condition := EvalCondition(conditionWords, r.terms, [code] + after);
      if rc != 0 { return; }
      if condition == 0 {
        pos := nextRecord;
        if Found(pos, rest) { Arrived(rest); }
        return 0, false;
      }
      assert ([code] + after)[1..] == after;
      var command;
      ok, command := ReadWord([code] + after);
      if !ok { return -2, false; }
      rc, exit := RunCommand(command, scriptEnd, dataOffset, argsAddr, r.command, r.pad, rest, image);
    }

    /* ---- the whole file ---- */

    /** Header fields of the file. A file too short for a header and one whose sizes do not fit have
        codes of their own. */
    method ParseHeader() returns (rc: int, words: U32, argsAddr: U32, dataOffset: U32, minor: U8, chipId: U32)
      requires Valid()
      ensures rc == if |patch| < 40 then -1 else if SizesFit(patch) then 0 else -2
      ensures rc == 0 ==> words == WordsOf(patch)[1] && argsAddr == WordsOf(patch)[3] && dataOffset == WordsOf(patch)[4]
      ensures rc == 0 ==> minor == WordsOf(patch)[6] / 0x1_0000 % 256 && chipId == WordsOf(patch)[7]
    {
      hide Value;
      if |patch| < 40 { return -1, 0, 0, 0, 0, 0; }
      words, argsAddr, dataOffset := Value(patch[4..8]), Value(patch[12..16]), Value(patch[16..20]);
      minor, chipId := patch[25], Value(patch[28..32]);
      Be32OfValue(patch[24..28]);
      assert minor == Be32(Value(patch[24..28]))[1];
      rc := if (words as int) * 4 > |patch| || dataOffset >= words then -2 else 0;
    }

    /** Whatever is wrong with the header, loading refuses the file with one code. */
    method CheckHeader() returns (rc: int, words: U32, argsAddr: U32, dataOffset: U32)
      requires Valid()
      ensures rc == if HeaderFits(patch) then 0 else -2
      ensures rc == 0 ==> words == WordsOf(patch)[1] && argsAddr == WordsOf(patch)[3] && dataOffset == WordsOf(patch)[4]
                          && 4 * words <= |patch|
    {
      var minor, chipId;
      rc, words, argsAddr, dataOffset, minor, chipId := ParseHeader();
      if rc != 0 || chipId != CHIP_ID || minor != 8 {
        rc := -2;
      }
    }

    /** The patch begins with the words of `file`. */
    ghost predicate Holds(file: PatchFile)
      requires file.Valid()
    {
      |file.Words()| <= |patch| / 4 && WordsOf(patch)[..|file.Words()|] == file.Words()
    }

    ghost function ImageOf(file: PatchFile): Image
      requires file.Valid() && Holds(file)
    {
      Image(patch[..4 * |file.Words()|], file.DataOffset(), file.argsAddr)
    }

    /** Loads the patch. If the file encodes a script, the chip, the variables and the error code
        are those of running the script. A file whose header does not fit touches nothing. */
    method Load(ghost file: PatchFile) returns (rc: int)
      requires Valid() && pos == 0 && size == |patch| && file.Valid()
      modifies this, variables
      ensures Valid()
      ensures Holds(file) ==> Outcome(rc, State()) == Run(file.script, old(State()), chip, ImageOf(file))
      ensures !HeaderFits(patch) ==> rc == -2 && State() == old(State())
    {
      hide Before, Found, Run, Encode, WordsOf, PatchFile.Words, PatchFile.DataOffset, Holds, ImageOf, HeaderFits,
          SizesFit;
      if Holds(file) { HeaderOfFile(file); }
      var words, argsAddr, dataOffset;
      rc, words, argsAddr, dataOffset := CheckHeader();
      if rc != 0 { return; }
      size, pos := 4 * (words as int), 20;
      rc := LoadScript(dataOffset, argsAddr, file);
    }

    lemma HeaderOfFile(file: PatchFile)
      requires file.Valid() && Holds(file)
      ensures HeaderFits(patch)
      ensures WordsOf(patch)[1] == |file.Words()| && WordsOf(patch)[3] == file.argsAddr &&
          WordsOf(patch)[4] == file.DataOffset()
    {
      hide WordsOf, PatchFile.Words, Encode;
      Sizes(file);
      HeaderFields(file, WordsOf(patch));
    }

    method LoadScript(dataOffset: U32, argsAddr: U32, ghost file: PatchFile) returns (rc: int)
      requires Valid() && pos == 20 && size % 4 == 0 && file.Valid()
      requires Holds(file) ==>
        size == 4 * |file.Words()| && argsAddr == file.argsAddr && dataOffset == file.DataOffset()
      modifies this`pos, this`device, variables
      ensures Valid()
      ensures Holds(file) ==> Outcome(rc, State()) == Run(file.script, old(State()), chip, ImageOf(file))
    {
      hide Before, Found, Run, Encode, WordsOf, PatchFile.Words, PatchFile.DataOffset;
      Sizes(file);
      ghost var w := file.Words();
      if Holds(file) {
        HeaderFields(file, WordsOf(patch));
        WordsOfPrefix(patch, |w|);
        StartsAt(w, 5);
      }
      ghost var script := Encode(file.script) + file.data;
      var scriptEnd;
      rc, scriptEnd := ParseReserved(dataOffset, file.reserved, |Encode(file.script)|, script);
      if rc != 0 { return; }
      rc := RunScript(scriptEnd, dataOffset, argsAddr, file.script, file.data,
          Image(patch[..size], dataOffset, argsAddr));
    }

    /** The reserved words and the size of the script, up to its first record. */
    method ParseReserved(dataOffset: U32, ghost reserved: seq<U32>, ghost scriptWords: U32, ghost script: seq<U32>)
      returns (rc: int, scriptEnd: nat)
      requires Valid() && |reserved| < 0x1_0000_0000 && size % 4 == 0
      modifies this`pos
      ensures Valid()
      ensures rc == 0 ==> pos <= scriptEnd <= size && scriptEnd == 4 * dataOffset
      ensures old(Before([|reserved|] + reserved + [scriptWords] + script)) && scriptWords <= |script| &&
              4 * dataOffset + 4 * (|script| - scriptWords) == size ==>
        rc == 0 && Before(script)
    {
      hide Before, Found;
      ghost var w := [|reserved|] + reserved + [scriptWords] + script;
      assert w[1..] == reserved + [scriptWords] + script && w[1..][|reserved|..] == [scriptWords] + script;
      assert ([scriptWords] + script)[1..] == script;
      var ok, reservedWords := ReadWord(w);
      if !ok { return -2, 0; }
      ok := SkipWords(reservedWords, w[1..]);
      if !ok { return -2, 0; }
      var n;
      ok, n := ReadWord([scriptWords] + script);
      if !ok { return -2, 0; }
      scriptEnd := pos + 4 * (n as int);
      if Before(script) { Remaining(script); }
      if scriptEnd > size || scriptEnd != 4 * (dataOffset as int) { return -2, scriptEnd; }
      rc := 0;
    }

    /** How far the end of the file is, given what is left to read. */
    lemma Remaining(w: seq<U32>)
      requires Valid() && Before(w) && size % 4 == 0
      ensures pos + 4 * |w| == size
    {
    }

    lemma StartsAt(w: seq<U32>, k: nat)
      requires Valid() && k <= |w| && size == 4 * |w| && WordsOf(patch[..size]) == w && pos == 4 * k
      ensures Before(w[k..])
    {
    }

    method RunScript(scriptEnd: nat, dataOffset: U32, argsAddr: U32, ghost script: seq<Record>, ghost data: seq<U32>,
        ghost image: Image)
      returns (rc: int)
      requires Valid() && ValidScript(script) && pos <= scriptEnd <= size && size % 4 == 0
      requires IsImage(image) && image.dataOffset == dataOffset && image.argsAddr == argsAddr
      modifies this`pos, this`device, variables
      ensures Valid()
      ensures old(Before(Encode(script) + data)) && scriptEnd + 4 * |data| == size ==>
        Outcome(rc, State()) == Run(script, old(State()), chip, image)
      ensures rc == 0 ==> pos == scriptEnd
    {
      hide Before, Found, Exec, Guard, Run, Encode;
      ghost var left := script;
      ghost var want := Run(script, State(), chip, image);
      ghost var good := Before(Encode(script) + data) && scriptEnd + 4 * |data| == size;
      var exit := false;
      while pos < scriptEnd && !exit
        invariant Valid() && IsImage(image) && ValidScript(left)
        invariant exit ==> pos == scriptEnd
        invariant good && !exit ==> Before(Encode(left) + data) && Run(left, State(), chip, image) == want
        invariant good && exit ==> Outcome(0, State()) == want
        decreases !exit, scriptEnd - pos
      {
        ghost var r := if left != [] then left[0] else Record([], HoldReset, []);
        ghost var more := if left != [] then left[1..] else [];
        ghost var rest := Encode(more) + data;
        if good {
          Remaining(Encode(left) + data);
          FirstWords(left, data);
          FirstStep(left, State(), chip, image);
        }
        rc, exit := RunRecord(scriptEnd, dataOffset, argsAddr, r, rest, image);
        if rc != 0 { return; }
        left := more;
      }
      if good && !exit {
        Remaining(Encode(left) + data);
        FirstWords(left, data);
        FirstStep(left, State(), chip, image);
      }
      rc := if pos == scriptEnd then 0 else -2;
    }
  }

  /** A patch file: header, reserved words that begin with the version and the chip, the script,
      and the data the script copies from. */
  datatype PatchFile = PatchFile(id: U32, standard: U32, argsAddr: U32, reserved: seq<U32>, script: seq<Record>,
      data: seq<U32>) {
    ghost predicate Valid() {
      && ValidScript(script) && |reserved| >= 2 && reserved[0] / 0x1_0000 % 256 == 8 && reserved[1] == CHIP_ID
      && |data| > 0 && DataOffset() + |data| < 0x1_0000_0000
    }

    ghost function DataOffset(): nat
      requires ValidScript(script)
    {
      7 + |reserved| + |Encode(script)|
    }

    ghost function Words(): (w: seq<U32>)
      requires Valid()
      ensures |w| == DataOffset() + |data|
    {
      [id, DataOffset() + |data|, standard, argsAddr, DataOffset(), |reserved|] + reserved + [|Encode(script)|] +
          (Encode(script) + data)
    }
  }

  /** How the words of a script begin. */
  lemma FirstWords(script: seq<Record>, data: seq<U32>)
    requires ValidScript(script)
    ensures script == [] ==> Encode(script) == []
    ensures script != [] ==> |Encode(script)| > 0
    ensures script != [] ==> Encode(script) + data == script[0].Encode() + (Encode(script[1..]) + data)
  {
    hide Record.Encode, Record.Valid;
    if script != [] {
      var first, others := script[0].Encode(), Encode(script[1..]);
      assert Encode(script) == first + others;
      Associates(first, others, data);
    }
  }

  lemma Associates(a: seq<U32>, b: seq<U32>, c: seq<U32>)
    ensures (a + b) + c == a + (b + c)
  {
  }

  /** How the run of a script begins. */
  lemma FirstStep(script: seq<Record>, m: Machine, chip: Chip, image: Image)
    requires ValidScript(script)
    ensures script == [] ==> Run(script, m, chip, image) == Outcome(0, m)
    ensures script != [] ==>
      var (guard, vars) := Guard(script[0].terms, m.vars);
      var m1 := m.(vars := vars);
      Run(script, m, chip, image) ==
        if guard == 0 then Run(script[1..], m1, chip, image)
        else
          var o := Exec(script[0].command, m1, chip, image);
          if o.rc != 0 || script[0].command.Exit? then o else Run(script[1..], o.machine, chip, image)
  {
    hide Exec, Guard;
  }

  lemma Sizes(file: PatchFile)
    requires file.Valid()
    ensures |file.reserved| < 0x1_0000_0000 && |Encode(file.script)| < 0x1_0000_0000
    ensures file.DataOffset() == 7 + |file.reserved| + |Encode(file.script)|
    ensures 10 <= |file.Words()| == file.DataOffset() + |file.data|
  {
    hide Encode;
  }

  lemma HeaderFields(file: PatchFile, words: seq<U32>)
    requires file.Valid() && |file.Words()| <= |words| && words[..|file.Words()|] == file.Words()
    ensures |words| >= 10 && words[1] == |file.Words()| && words[3] == file.argsAddr && words[4] == file.DataOffset()
    ensures words[6] == file.reserved[0] && words[7] == file.reserved[1]
    ensures file.Words()[5..] == [|file.reserved|] + file.reserved + [|Encode(file.script)|] +
        (Encode(file.script) + file.data)
  {
    hide Encode;
    var w := file.Words();
    assert w[1] == words[1] && w[3] == words[3] && w[4] == words[4] && w[6] == words[6] && w[7] == words[7];
  }

  lemma WordsOfPrefix(data: seq<U8>, n: nat)
    requires 4 * n <= |data|
    ensures WordsOf(data[..4 * n]) == WordsOf(data)[..n]
  {
    hide Value;
    forall i | 0 <= i < n
      ensures WordsOf(data[..4 * n])[i] == WordsOf(data)[i]
    {
      assert data[..4 * n][4 * i..4 * i + 4] == data[4 * i..4 * i + 4];
    }
  }

  /** The fields of an encoded operation word. */
  lemma OperationParts(t: Term)
    requires t.Valid()
    ensures var op := t.Encode()[0];
            && (t.Combine? ==> op / 256 % 256 == t.unary.Code() && op % 256 == t.binary.Code()
                               && op / 0x1_0000 % 4 == if t.operand.Variable? then 0 else 1)
            && (t.Store? ==> op / 256 % 256 == 0 && op % 256 == 6)
  {
    if t.Combine? {
      var b, u, m := t.binary.Code(), t.unary.Code(), if t.operand.Variable? then 0 else 1;
      assert t.Encode()[0] == b + 256 * u + 0x1_0000 * m;
      DivMod(b + 256 * u + 0x1_0000 * m, u + 256 * m, b, 256);
      DivMod(b + 256 * u + 0x1_0000 * m, m, b + 256 * u, 0x1_0000);
    }
  }

  lemma SplitHere(w: seq<U32>, k: nat, x: seq<U32>, y: seq<U32>)
    requires k + |x + y| <= |w| && w[k..k + |x + y|] == x + y
    ensures w[k..k + |x|] == x && w[k + |x|..k + |x| + |y|] == y
  {
    assert (x + y)[..|x|] == x && (x + y)[|x|..] == y;
    assert w[k..k + |x|] == w[k..k + |x + y|][..|x|];
    assert w[k + |x|..k + |x| + |y|] == w[k..k + |x + y|][|x|..];
  }

  /** Words expected at a position, as bytes, and the words expected after them. */
  lemma WordsHere(data: seq<U8>, k: nat, words: seq<U32>, tail: seq<U32>)
    requires k + |words + tail| <= |data| / 4 && WordsOf(data)[k..k + |words + tail|] == words + tail
    ensures Flat(words) == data[4 * k..4 * (k + |words|)]
    ensures WordsOf(data)[k + |words|..k + |words| + |tail|] == tail
  {
    hide Flat, Value;
    FlatOfWords(data, k, |words|);
    SplitHere(WordsOf(data), k, words, tail);
  }

  lemma LowBytes(reg: U32)
    ensures (reg / 0x1_0000 % 256) * 0x1_0000 + (reg / 256 % 256) * 256 + reg % 256 == reg % ADDRESS_SPACE
  {
    var c, b, a, h := reg % 256, reg / 256 % 256, reg / 256 / 256 % 256, reg / 256 / 256 / 256;
    assert reg == h * 0x100_0000 + (a * 0x1_0000 + b * 256 + c);
    DivMod(reg, h, a * 0x1_0000 + b * 256 + c, 0x100_0000);
    DivMod(reg, h * 256 + a, b * 256 + c, 0x1_0000);
  }

  lemma WrappedAddress(n: nat)
    ensures Wrapped(n) % ADDRESS_SPACE == n % ADDRESS_SPACE
  {
  }

  lemma PeekModulo(mem: Memory, a: nat, b: nat)
    requires a % ADDRESS_SPACE == b % ADDRESS_SPACE
    ensures Peek(mem, a, 4) == Peek(mem, b, 4)
  {
    forall i | 0 <= i < 4
      ensures Peek(mem, a, 4)[i] == Peek(mem, b, 4)[i]
    {
      SameLowBits(a, b, i);
      assert PeekByte(mem, a + i) == PeekByte(mem, b + i);
    }
  }

  lemma SameLowBits(a: nat, b: nat, i: nat)
    requires a % ADDRESS_SPACE == b % ADDRESS_SPACE && i < 4
    ensures (a + i) % ADDRESS_SPACE == (b + i) % ADDRESS_SPACE
  {
  }

  lemma SentNothing(chip: Chip, d: Device, a: nat)
    ensures Sent(chip, d, a, []) == (0, d)
  {
  }

  lemma TransferModulo(chip: Chip, d: Device, a: nat, b: nat, data: seq<U8>)
    requires a % ADDRESS_SPACE == b % ADDRESS_SPACE
    ensures Transfer(chip, d, a, data) == Transfer(chip, d, b, data)
  {
    hide Poke;
    PokeModulo(d.mem, a, b, data);
  }
}
