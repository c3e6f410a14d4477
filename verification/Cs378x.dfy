/** The cs378x (camd35 over TCP) wire protocol of core/dtv_camd_cs378x.c: a plaintext account
    token, then a header and payload padded to whole AES blocks and enciphered one by one. */
module Cs378x {
  import opened Aes
  import opened Buffers
  import opened Bytes
  import Crc32
  import Md5
  import W = Wire

  const HEADER := 20
  const DATA_SIZE := 256
  const BUFFER_SIZE := 1024

  function RoundToBlock(size: nat): (rounded: nat)
    ensures rounded % 16 == 0 && size <= rounded < size + 16
  {
    (size + 15) / 16 * 16
  }

  /* ---- what a message is ---- */

  function Bytes32(w: bv32): (b: seq<Byte>)
    ensures |b| == 4
  {
    [WordByte(w, 0), WordByte(w, 1), WordByte(w, 2), WordByte(w, 3)]
  }

  function Bytes16(n: nat): (b: seq<Byte>)
    ensures |b| == 2
  {
    [W.Hi(n), W.Lo(n)]
  }

  /** Where an ECM came from and which card it is for. */
  datatype Address = Address(serviceId: nat, caSystemId: nat, providerId: bv32, ecmPid: nat)

  /** Twenty bytes of header. The length byte keeps only the low eight bits of the size. */
  function Header(command: Byte, payload: seq<Byte>, from: Address, msgId: nat): (h: seq<Byte>)
    ensures |h| == HEADER && h[0] == command && h[1] == W.Lo(|payload|)
  {
    [command, W.Lo(|payload|), 0, 0] + Bytes32(Crc32.Checksum(0, payload)) + Bytes16(from.serviceId) +
        Bytes16(from.caSystemId) +
    Bytes32(from.providerId) + Bytes16(msgId) + Bytes16(from.ecmPid)
  }

  function Fill(count: nat): (f: seq<Byte>)
    ensures |f| == count
  {
    seq(count, _ => 0xff)
  }

  /** Header and payload, filled up with 0xff to whole blocks. */
  function Body(command: Byte, payload: seq<Byte>, from: Address, msgId: nat): (b: seq<Byte>)
    ensures |b| == RoundToBlock(HEADER + |payload|)
  {
    Header(command, payload, from, msgId) + payload + Fill(RoundToBlock(HEADER + |payload|) - HEADER - |payload|)
  }

  /** Four bytes of a message as a number, most significant first. */
  function Read32(b: seq<Byte>, at: nat): bv32
    requires at + 4 <= |b|
  {
    ((b[at] as bv32) << 24) | ((b[at + 1] as bv32) << 16) | ((b[at + 2] as bv32) << 8) | (b[at + 3] as bv32)
  }

  /** What a server reads of a message: the command and the size, the checksum of the payload, what the ECM
      is of and for, the number of the message, and the payload behind the header. */
  lemma ServerReads(command: Byte, payload: seq<Byte>, from: Address, msgId: nat)
    requires from.serviceId < 0x10000 && from.caSystemId < 0x10000 && from.ecmPid < 0x10000 && msgId < 0x10000
    requires |payload| < 256
    ensures var b := Body(command, payload, from, msgId);
            && b[0] == command && b[1] as nat == |payload| && b[2] == 0 && b[3] == 0
            && Read32(b, 4) == Crc32.Checksum(0, payload) && W.Word(b[8], b[9]) == from.serviceId
            && W.Word(b[10], b[11]) == from.caSystemId && Read32(b, 12) == from.providerId
            && W.Word(b[16], b[17]) == msgId && W.Word(b[18], b[19]) == from.ecmPid
            && b[20..20 + |payload|] == payload
            && forall k :: 20 + |payload| <= k < |b| ==> b[k] == 0xff
  {
    hide Bytes32, W.Hi, W.Lo, W.Word, Crc32.Checksum, Header, Body;
    LoOf(|payload|);
    var b, h := Body(command, payload, from, msgId), Header(command, payload, from, msgId);
    BodyParts(command, payload, from, msgId);
    HeaderFields(command, payload, from, msgId);
    Bytes32Read(Crc32.Checksum(0, payload), b, 4);
    Bytes32Read(from.providerId, b, 12);
    W.WordOfBytes(from.serviceId);
    W.WordOfBytes(from.caSystemId);
    W.WordOfBytes(msgId);
    W.WordOfBytes(from.ecmPid);
  }

  lemma BodyParts(command: Byte, payload: seq<Byte>, from: Address, msgId: nat)
    ensures var b, h := Body(command, payload, from, msgId), Header(command, payload, from, msgId);
            && 20 + |payload| <= |b| && b[20..20 + |payload|] == payload
            && (forall k :: 0 <= k < 20 ==> b[k] == h[k])
            && forall k :: 20 + |payload| <= k < |b| ==> b[k] == 0xff
  {
    hide Header;
  }

  lemma HeaderFields(command: Byte, payload: seq<Byte>, from: Address, msgId: nat)
    ensures var h := Header(command, payload, from, msgId);
            var crc, provider := Bytes32(Crc32.Checksum(0, payload)), Bytes32(from.providerId);
            && h[2] == 0 && h[3] == 0 && h[4] == crc[0] && h[5] == crc[1] && h[6] == crc[2] && h[7] == crc[3]
            && h[8] == W.Hi(from.serviceId) && h[9] == W.Lo(from.serviceId)
            && h[10] == W.Hi(from.caSystemId) && h[11] == W.Lo(from.caSystemId)
            && h[12] == provider[0] && h[13] == provider[1] && h[14] == provider[2] && h[15] == provider[3]
            && h[16] == W.Hi(msgId) && h[17] == W.Lo(msgId)
            && h[18] == W.Hi(from.ecmPid) && h[19] == W.Lo(from.ecmPid)
  {
    hide Bytes32, W.Hi, W.Lo, Crc32.Checksum;
  }

  lemma Bytes32Read(w: bv32, b: seq<Byte>, at: nat)
    requires at + 4 <= |b| && b[at] == Bytes32(w)[0] && b[at + 1] == Bytes32(w)[1]
    requires b[at + 2] == Bytes32(w)[2] && b[at + 3] == Bytes32(w)[3]
    ensures Read32(b, at) == w
  {
    FourBytesJoin(w);
  }

  lemma FourBytesJoin(w: bv32)
    ensures ((WordByte(w, 0) as bv32) << 24) | ((WordByte(w, 1) as bv32) << 16) | ((WordByte(w, 2) as bv32) << 8)
            | (WordByte(w, 3) as bv32) == w
  {
  }

  function EncryptAll(schedule: seq<Word>, data: seq<Byte>): (out: seq<Byte>)
    requires |schedule| == 44
    ensures |out| == |data|
    decreases |data|
  {
    hide Encrypt;
    if |data| < 16 then data else Encrypt(schedule, data[..16]) + EncryptAll(schedule, data[16..])
  }

  function DecryptAll(schedule: seq<Word>, data: seq<Byte>): (out: seq<Byte>)
    requires |schedule| == 44
    ensures |out| == |data|
    decreases |data|
  {
    hide Decrypt;
    if |data| < 16 then data else Decrypt(schedule, data[..16]) + DecryptAll(schedule, data[16..])
  }

  lemma {:induction false} DecryptAllInverts(schedule: seq<Word>, data: seq<Byte>)
    requires |schedule| == 44
    ensures DecryptAll(schedule, EncryptAll(schedule, data)) == data
    decreases |data|
  {
    hide Encrypt, Decrypt;
    if |data| >= 16 {
      var first: seq<Byte>, rest: seq<Byte> := Encrypt(schedule, data[..16]), EncryptAll(schedule, data[16..]);
      assert (first + rest)[..16] == first && (first + rest)[16..] == rest;
      DecryptInvertsEncrypt(schedule, data[..16]);
      DecryptAllInverts(schedule, data[16..]);
    }
  }

  lemma {:induction false} EncryptAllOfConcat(schedule: seq<Word>, x: seq<Byte>, y: seq<Byte>)
    requires |schedule| == 44 && |x| % 16 == 0
    ensures EncryptAll(schedule, x + y) == EncryptAll(schedule, x) + EncryptAll(schedule, y)
    decreases |x|
  {
    hide Encrypt;
    if x == [] {
      assert x + y == y;
    } else {
      assert (x + y)[..16] == x[..16] && (x + y)[16..] == x[16..] + y;
      EncryptAllOfConcat(schedule, x[16..], y);
    }
  }

  lemma {:induction false} DecryptAllOfConcat(schedule: seq<Word>, x: seq<Byte>, y: seq<Byte>)
    requires |schedule| == 44 && |x| % 16 == 0
    ensures DecryptAll(schedule, x + y) == DecryptAll(schedule, x) + DecryptAll(schedule, y)
    decreases |x|
  {
    hide Decrypt;
    if x == [] {
      assert x + y == y;
    } else {
      assert (x + y)[..16] == x[..16] && (x + y)[16..] == x[16..] + y;
      DecryptAllOfConcat(schedule, x[16..], y);
    }
  }

  function Frame(token: bv32, key: seq<Byte>, body: seq<Byte>): (wire: seq<Byte>)
    requires |key| == 16 && |body| % 16 == 0
    ensures |wire| == 4 + |body|
  {
    Bytes32(token) + EncryptAll(ExpandedKey(key), body)
  }

  /** Block `i` of `out` is block `i` of `data` enciphered. */
  predicate BlockEnciphered(schedule: seq<Word>, data: seq<Byte>, out: seq<Byte>, i: nat)
    requires |schedule| == 44 && 16 * i + 16 <= |data| && |out| == |data|
  {
    out[16 * i..16 * i + 16] == Encrypt(schedule, data[16 * i..16 * i + 16])
  }

  lemma {:induction false} AllEnciphered(schedule: seq<Word>, data: seq<Byte>, i: nat)
    requires |schedule| == 44 && 16 * i + 16 <= |data|
    ensures BlockEnciphered(schedule, data, EncryptAll(schedule, data), i)
    decreases i
  {
    hide Encrypt;
    if i > 0 {
      AllEnciphered(schedule, data[16..], i - 1);
      var first: seq<Byte>, rest := Encrypt(schedule, data[..16]), EncryptAll(schedule, data[16..]);
      assert (first + rest)[16 * i..16 * i + 16] == rest[16 * (i - 1)..16 * (i - 1) + 16];
      assert data[16..][16 * (i - 1)..16 * (i - 1) + 16] == data[16 * i..16 * i + 16];
    }
  }

  /** What a server reads of a message as a whole: the token of its user, and block by block the AES of what the
      message says. */
  predicate FrameFields(token: bv32, key: seq<Byte>, body: seq<Byte>, f: seq<Byte>)
    requires |key| == 16 && |f| == |body| + 4
  {
    Read32(f, 0) == token && forall i :: 0 <= i < |body| / 16 ==> BlockEnciphered(ExpandedKey(key), body, f[4..], i)
  }

  lemma FrameRead(token: bv32, key: seq<Byte>, body: seq<Byte>)
    requires |key| == 16 && |body| % 16 == 0
    ensures FrameFields(token, key, body, Frame(token, key, body))
  {
    hide ExpandedKey, EncryptAll, Read32, Bytes32, BlockEnciphered;
    var f := Frame(token, key, body);
    Bytes32Read(token, f, 0);
    assert f[4..] == EncryptAll(ExpandedKey(key), body);
    forall i | 0 <= i < |body| / 16
      ensures BlockEnciphered(ExpandedKey(key), body, f[4..], i)
    {
      AllEnciphered(ExpandedKey(key), body, i);
    }
  }

  /* ---- what a reader makes of the bytes ---- */

  datatype Reply = Message(data: seq<Byte>) | Timeout | Failed

  /** How many bytes follow the token, once the first block is known. */
  function Expected(first: seq<Byte>): (size: nat)
    requires |first| >= 2
    ensures size % 16 == 0
  {
    RoundToBlock(first[1] as nat + HEADER)
  }

  /** No length byte leads past the buffer, so the overflow branch of the reader is dead. */
  lemma ExpectedFits(first: seq<Byte>)
    requires |first| >= 2
    ensures 32 <= Expected(first) <= 288 <= BUFFER_SIZE
  {
    W.ByteBound(first[1]);
  }

  /** The reply, whether the token matched, and what is left on the socket. */
  function Parse(token: bv32, key: seq<Byte>, wire: seq<Byte>, silent: bool): (r: (Reply, bool, seq<Byte>))
    requires |key| == 16
  {
    if |wire| < 4 then (if wire == [] && silent then Timeout else Failed, true, [])
    else
      var matched := wire[..4] == Bytes32(token);
      if |wire| < 20 then (Failed, matched, [])
      else
        var size := Expected(Decrypt(ExpandedKey(key), wire[4..20]));
        if |wire| < 4 + size then (Failed, matched, [])
        else (Message(DecryptAll(ExpandedKey(key), wire[4..4 + size])), matched, wire[4 + size..])
  }

  /** What the reader takes from a framed body of at least two blocks: as many bytes as the length
      byte asks for, the rest staying on the socket. */
  lemma ParseOfFrame(token: bv32, key: seq<Byte>, body: seq<Byte>, more: seq<Byte>, silent: bool)
    requires |key| == 16 && |body| % 16 == 0 && |body| >= 16 && Expected(body) <= |body|
    ensures var size := Expected(body);
            Parse(token, key, Frame(token, key, body) + more, silent)
            == (Message(body[..size]), true, EncryptAll(ExpandedKey(key), body[size..]) + more)
  {
    hide Encrypt, Decrypt, ExpandedKey, Bytes32, EncryptAll, DecryptAll;
    var schedule, wire := ExpandedKey(key), Frame(token, key, body) + more;
    var size := Expected(body);
    EncryptAllOfConcat(schedule, body[..size], body[size..]);
    assert body[..size] + body[size..] == body;
    var head, tail := EncryptAll(schedule, body[..size]), EncryptAll(schedule, body[size..]);
    ExpectedFits(body);
    assert wire[..4] == Bytes32(token) && wire[4..4 + size] == head && wire[4 + size..] == tail + more;
    FirstBlock(schedule, body[..size]);
    assert wire[4..20] == head[..16] && body[..size][..16] == body[..16];
    DecryptAllInverts(schedule, body[..size]);
  }

  lemma FirstBlock(schedule: seq<Word>, data: seq<Byte>)
    requires |schedule| == 44 && |data| >= 16
    ensures Decrypt(schedule, EncryptAll(schedule, data)[..16]) == data[..16]
  {
    hide Encrypt, Decrypt;
    DecryptInvertsEncrypt(schedule, data[..16]);
  }

  /** The reader recovers header and payload exactly, leaving the rest of the stream alone, if and
      only if the payload is at most 255 bytes: the sender also accepts 256, but the length byte
      of that message is zero and the reader stops after two blocks. */
  lemma RoundTrip(token: bv32, key: seq<Byte>, command: Byte, payload: seq<Byte>, from: Address, msgId: nat,
                  more: seq<Byte>, silent: bool)
    requires |key| == 16 && |payload| <= DATA_SIZE
    ensures var body := Body(command, payload, from, msgId);
            Parse(token, key, Frame(token, key, body) + more, silent) == (Message(body), true, more)
            <==> |payload| <= 255
  {
    hide Encrypt, Decrypt, ExpandedKey, EncryptAll, DecryptAll, Header, Parse, Frame, Body;
    var body := Body(command, payload, from, msgId);
    LengthByte(command, payload, from, msgId);
    ParseOfFrame(token, key, body, more, silent);
    if |payload| <= 255 {
      assert body[..|body|] == body && body[|body|..] == [];
      assert EncryptAll(ExpandedKey(key), []) == [] by { EncryptNothing(ExpandedKey(key)); }
      assert [] + more == more;
    }
  }

  /** What the length byte makes the reader expect. */
  lemma LengthByte(command: Byte, payload: seq<Byte>, from: Address, msgId: nat)
    requires |payload| <= DATA_SIZE
    ensures var body := Body(command, payload, from, msgId);
            Expected(body) == if |payload| <= 255 then |body| else 32
  {
    hide Header, RoundToBlock, W.Lo;
    var body, n := Body(command, payload, from, msgId), |payload|;
    assert body[1] == Header(command, payload, from, msgId)[1] == W.Lo(n);
    LoOf(n);
    assert n == 256 ==> Expected(body) == RoundToBlock(HEADER);
    Rounding();
  }

  lemma LoOf(n: nat)
    requires n <= 256
    ensures W.Lo(n) as nat == if n <= 255 then n else 0
  {
    hide W.Lo;
    W.LoValue(n);
  }

  lemma Rounding()
    ensures RoundToBlock(HEADER) == 32
  {
  }

  lemma EncryptNothing(schedule: seq<Word>)
    requires |schedule| == 44
    ensures EncryptAll(schedule, []) == []
  {
  }

  /* ---- the answer to an ECM ---- */

  /** Sixteen bytes of control word; none, with the connection kept; or a broken connection. */
  datatype Answer = ControlWord(word: seq<Byte>) | NoWord | Broken

  /** What is made of the messages that arrive. Requests for EMMs, which the server may push down the same
      socket at any time, answer nothing, but only so many of them are waited through. */
  function Answered(token: bv32, key: seq<Byte>, wire: seq<Byte>, silent: bool, attempts: nat): (r: (Answer, seq<Byte>))
    requires |key| == 16 && attempts <= 8
    decreases 8 - attempts
  {
    hide Decrypt, DecryptAll, ExpandedKey;
    var (reply, _, rest) := Parse(token, key, wire, silent);
    match reply
    case Timeout => (NoWord, rest)
    case Failed => (Broken, rest)
    case Message(data) =>
      ParsedSize(token, key, wire, silent);
      if data[0] == 0x05 then
        if attempts == 8 then (Broken, rest) else Answered(token, key, rest, silent, attempts + 1)
      else if data[0] != 0x01 || |data| < 48 || data[1] < 0x10 then (NoWord, rest)
      else (ControlWord(data[20..36]), rest)
  }

  lemma ParsedSize(token: bv32, key: seq<Byte>, wire: seq<Byte>, silent: bool)
    requires |key| == 16
    ensures Parse(token, key, wire, silent).0.Message? ==>
              32 <= |Parse(token, key, wire, silent).0.data| <= BUFFER_SIZE
  {
    hide Decrypt, DecryptAll, ExpandedKey, Bytes32;
    if |wire| >= 20 {
      ExpectedFits(Decrypt(ExpandedKey(key), wire[4..20]));
    }
  }

  /** A message as a server sends it. */
  datatype Sent = Sent(payload: seq<Byte>, from: Address, msgId: nat)

  function Requests(token: bv32, key: seq<Byte>, emms: seq<Sent>): seq<Byte>
    requires |key| == 16
  {
    if emms == [] then []
    else Frame(token, key, Body(0x05, emms[0].payload, emms[0].from, emms[0].msgId)) + Requests(token, key, emms[1..])
  }

  /** A control word of sixteen bytes arrives through up to eight requests before it, exactly; with a ninth
      the connection is given up. */
  lemma {:induction false} WordArrives(token: bv32, key: seq<Byte>, emms: seq<Sent>, answer: Sent, more: seq<Byte>,
                                       silent: bool, attempts: nat)
    requires |key| == 16 && attempts <= 8 && 16 <= |answer.payload| <= 255
    requires forall i :: 0 <= i < |emms| ==> |emms[i].payload| <= 255
    ensures var frame := Frame(token, key, Body(0x01, answer.payload, answer.from, answer.msgId));
            var r := Answered(token, key, Requests(token, key, emms) + (frame + more), silent, attempts);
            if attempts + |emms| <= 8 then r == (ControlWord(answer.payload[..16]), more) else r.0 == Broken
    decreases |emms|
  {
    hide Decrypt, DecryptAll, ExpandedKey, Parse, Frame, Body;
    var frame := Frame(token, key, Body(0x01, answer.payload, answer.from, answer.msgId));
    if emms == [] {
      assert Requests(token, key, emms) + (frame + more) == frame + more;
      RoundTrip(token, key, 0x01, answer.payload, answer.from, answer.msgId, more, silent);
      AnswerBody(0x01, answer);
    } else {
      var first := Frame(token, key, Body(0x05, emms[0].payload, emms[0].from, emms[0].msgId));
      var rest := Requests(token, key, emms[1..]) + (frame + more);
      assert Requests(token, key, emms) + (frame + more) == first + rest;
      RoundTrip(token, key, 0x05, emms[0].payload, emms[0].from, emms[0].msgId, rest, silent);
      AnswerBody(0x05, emms[0]);
      if attempts < 8 {
        WordArrives(token, key, emms[1..], answer, more, silent, attempts + 1);
      }
    }
  }

  lemma AnswerBody(command: Byte, sent: Sent)
    requires |sent.payload| <= 255
    ensures var b := Body(command, sent.payload, sent.from, sent.msgId);
            && b[0] == command
            && (|sent.payload| >= 16 ==> |b| >= 48 && b[1] >= 0x10 && b[20..36] == sent.payload[..16])
  {
    hide Header;
    var b := Body(command, sent.payload, sent.from, sent.msgId);
    LoOf(|sent.payload|);
    AtLeastSixteen(b[1]);
    BodyParts(command, sent.payload, sent.from, sent.msgId);
    if |sent.payload| >= 16 { assert b[20..36] == b[20..20 + |sent.payload|][..16]; }
  }

  lemma AtLeastSixteen(b: Byte)
    ensures b as nat >= 16 <==> b >= 0x10
  {
  }

  /** Header fields, payload and filling, in place. */
  method BuildBody(bodySize: nat, command: Byte, payload: seq<Byte>, from: Address, msgId: nat)
      returns (body: array<Byte>)
    requires |payload| <= DATA_SIZE && bodySize == RoundToBlock(HEADER + |payload|)
    ensures fresh(body) && body[..] == Body(command, payload, from, msgId)
  {
    hide Splice, Bytes32, Bytes16, Crc32.Checksum, Header;
    body := new Byte[bodySize](_ => 0xff);
    ghost var filling := body[..];
    FillBehind(filling, payload);
    Write(body, HEADER, payload);
    ghost var filled := body[..];
    var crc := Crc32.ComputeChecksum(0, payload);
    var header := [command, W.Lo(|payload|), 0, 0] + Bytes32(crc) + Bytes16(from.serviceId) + Bytes16(from.caSystemId) +
                  Bytes32(from.providerId) + Bytes16(msgId) + Bytes16(from.ecmPid);
    assert header == Header(command, payload, from, msgId) by { HeaderIs(command, payload, from, msgId); }
    SpliceParts(filled, 0, header);
    Write(body, 0, header);
    assert body[..] == body[..][..HEADER] + body[..][HEADER..];
  }

  lemma HeaderIs(command: Byte, payload: seq<Byte>, from: Address, msgId: nat)
    ensures Header(command, payload, from, msgId) ==
            [command, W.Lo(|payload|), 0, 0] + Bytes32(Crc32.Checksum(0, payload)) + Bytes16(from.serviceId) +
                Bytes16(from.caSystemId) + Bytes32(from.providerId) + Bytes16(msgId) + Bytes16(from.ecmPid)
  {
  }

  lemma FillBehind(filling: seq<Byte>, payload: seq<Byte>)
    requires HEADER + |payload| <= |filling| && forall k :: 0 <= k < |filling| ==> filling[k] == 0xff
    ensures Splice(filling, HEADER, payload)[HEADER..] == payload + Fill(|filling| - HEADER - |payload|)
  {
    SpliceParts(filling, HEADER, payload);
    assert filling[HEADER + |payload|..] == Fill(|filling| - HEADER - |payload|);
    var filled := Splice(filling, HEADER, payload);
    assert filled[HEADER..] == filled[HEADER..HEADER + |payload|] + filled[HEADER + |payload|..];
  }

  method EncryptBlocks(schedule: seq<Word>, body: array<Byte>)
    requires |schedule| == 44 && body.Length % 16 == 0
    modifies body
    ensures body[..] == EncryptAll(schedule, old(body[..]))
  {
    hide Splice, Encrypt, EncryptAll;
    ghost var plain := body[..];
    EncryptNothing(schedule);
    var offset := 0;
    while offset < body.Length
      invariant offset % 16 == 0 && offset <= body.Length
      invariant body[..offset] == EncryptAll(schedule, plain[..offset])
      invariant body[offset..] == plain[offset..]
    {
      var block := body[offset..offset + 16];
      ghost var before := body[..];
      assert block == plain[offset..][..16];
      assert plain[..offset] + block == plain[..offset + 16];
      EncryptAllOfConcat(schedule, plain[..offset], block);
      EncryptOne(schedule, block);
      SpliceParts(before, offset, Encrypt(schedule, block));
      EncryptBlock(schedule, block, body, offset);
      assert body[..offset + 16] == before[..offset] + Encrypt(schedule, block);
      assert before[offset + 16..] == plain[offset + 16..];
      offset := offset + 16;
    }
    assert plain[..body.Length] == plain;
    assert body[..body.Length] == body[..];
  }

  lemma EncryptOne(schedule: seq<Word>, block: seq<Byte>)
    requires |schedule| == 44 && |block| == 16
    ensures EncryptAll(schedule, block) == Encrypt(schedule, block)
  {
    hide Encrypt;
    assert block[..16] == block && block[16..] == [];
    EncryptNothing(schedule);
  }

  /* ---- the connection ---- */

  class Connection {
    const authToken: bv32
    const aesKey: seq<Byte>
    var msgId: nat
    const buffer: array<Byte>

    ghost predicate Valid()
      reads this
    {
      |aesKey| == 16 && msgId < 0x10000 && buffer.Length == BUFFER_SIZE
    }

    /** The digest of the user name gives the token, that of the password is the AES key. */
    constructor (user: seq<Byte>, password: seq<Byte>)
      ensures Valid() && msgId == 0 && fresh(buffer)
      ensures authToken == Crc32.Checksum(0, Md5.Digest(user)) && aesKey == Md5.Digest(password)
    {
      hide Crc32.Checksum, Md5.Digest;
      var digest := Md5.Sum(user);
      var token := Crc32.ComputeChecksum(0, digest);
      digest := Md5.Sum(password);
      authToken, aesKey, msgId := token, digest, 0;
      buffer := new Byte[BUFFER_SIZE];
    }

    /** Builds, enciphers and writes one message; `delivered` is whether the socket takes all of it. */
    method Send(command: Byte, payload: seq<Byte>, from: Address, delivered: bool) returns (wire: seq<Byte>, rc: int)
      requires Valid()
      modifies this`msgId
      ensures Valid() && rc == if |payload| <= DATA_SIZE && delivered then 1 else -1
      ensures msgId == if |payload| <= DATA_SIZE then (old(msgId) + 1) % 0x10000 else old(msgId)
      ensures wire ==
              if |payload| <= DATA_SIZE then Frame(authToken, aesKey, Body(command, payload, from, msgId)) else []
    {
      hide Splice, Bytes32, ExpandedKey, EncryptAll, Body;
      if |payload| > DATA_SIZE { return [], -1; }
      var bodySize := RoundToBlock(HEADER + |payload|);
      msgId := (msgId + 1) % 0x10000;
      var body := BuildBody(bodySize, command, payload, from, msgId);
      var schedule := SetKey(aesKey);
      EncryptBlocks(schedule, body);
      return Bytes32(authToken) + body[..], if delivered then 1 else -1;
    }

    /** Reads one message into the buffer. The size is known once the first block is deciphered,
        hence the block by block reading. */
    method Receive(arrived: seq<Byte>, silent: bool) returns (reply: Reply, matched: bool, rest: seq<Byte>)
      requires Valid()
      modifies buffer
      ensures (reply, matched, rest) == Parse(authToken, aesKey, arrived, silent)
      ensures reply.Message? ==> |reply.data| <= buffer.Length && buffer[..|reply.data|] == reply.data
    {
      hide Splice, Bytes32, ExpandedKey, Decrypt, DecryptAll;
      if |arrived| < 4 {
        return if arrived == [] && silent then Timeout else Failed, true, [];
      }
      matched := arrived[..4] == Bytes32(authToken);
      var schedule := SetKey(aesKey);
      var expected, offset := DATA_SIZE, 0;
      ghost var size := if |arrived| < 20 then 0 else Expected(Decrypt(schedule, arrived[4..20]));
      if |arrived| >= 20 { ExpectedFits(Decrypt(schedule, arrived[4..20])); }
      DecryptNothing(schedule);
      while offset < expected
        invariant offset % 16 == 0 && offset <= expected && 4 + offset <= |arrived|
        decreases BUFFER_SIZE - offset
        invariant expected == if offset == 0 then DATA_SIZE else size
        invariant offset > 0 ==> |arrived| >= 20
        invariant offset <= BUFFER_SIZE && buffer[..offset] == DecryptAll(schedule, arrived[4..4 + offset])
      {
        assert offset + 16 <= BUFFER_SIZE;
        if |arrived| < 4 + offset + 16 {
          return Failed, matched, [];
        }
        var block := arrived[4 + offset..4 + offset + 16];
        assert arrived[4..4 + offset] + block == arrived[4..4 + offset + 16];
        OneMoreBlock(schedule, arrived[4..4 + offset], block);
        DecryptNext(schedule, block, buffer, offset);
        if offset == 0 {
          FirstDecrypted(schedule, block);
          assert buffer[1] == buffer[..16][1];
          expected := RoundToBlock(buffer[1] as nat + HEADER);
        }
        offset := offset + 16;
      }
      return Message(buffer[..expected]), matched, arrived[4 + expected..];
    }

    /** Reads messages until one answers. */
    method ReceiveWord(arrived: seq<Byte>, silent: bool) returns (answer: Answer, rest: seq<Byte>)
      requires Valid()
      modifies buffer
      ensures (answer, rest) == Answered(authToken, aesKey, arrived, silent, 0)
    {
      hide Decrypt, DecryptAll, ExpandedKey, Parse;
      var attempts := 0;
      rest := arrived;
      while true
        invariant Valid() && attempts <= 8
        invariant Answered(authToken, aesKey, rest, silent, attempts) ==
                    Answered(authToken, aesKey, arrived, silent, 0)
        decreases 8 - attempts
      {
        ParsedSize(authToken, aesKey, rest, silent);
        var reply, matched, left := Receive(rest, silent);
        rest := left;
        if reply.Timeout? {
          return NoWord, rest;
        }
        if reply.Failed? {
          return Broken, rest;
        }
        ghost var n := |reply.data|;
        assert buffer[0] == buffer[..n][0] && buffer[1] == buffer[..n][1];
        assert n >= 48 ==> buffer[20..36] == buffer[..n][20..36];
        if buffer[0] == 0x05 {
          attempts := attempts + 1;
          if attempts > 8 {
            return Broken, rest;
          }
        } else if buffer[0] != 0x01 {
          return NoWord, rest;
        } else if |reply.data| < 48 || buffer[1] < 0x10 {
          return NoWord, rest;
        } else {
          return ControlWord(buffer[20..36]), rest;
        }
      }
    }
  }

  /** The next block, deciphered behind those already in the buffer. */
  method DecryptNext(schedule: seq<Word>, block: seq<Byte>, buffer: array<Byte>, offset: nat)
    requires |schedule| == 44 && |block| == 16 && offset + 16 <= buffer.Length
    modifies buffer
    ensures buffer[..offset + 16] == old(buffer[..offset]) + Decrypt(schedule, block)
  {
    hide Splice, Decrypt;
    ghost var before := buffer[..];
    SpliceParts(before, offset, Decrypt(schedule, block));
    DecryptBlock(schedule, block, buffer, offset);
    assert buffer[..offset + 16] == before[..offset] + Decrypt(schedule, block);
  }

  lemma FirstDecrypted(schedule: seq<Word>, block: seq<Byte>)
    requires |schedule| == 44 && |block| == 16
    ensures DecryptAll(schedule, [] + block) == Decrypt(schedule, block)
  {
    hide Decrypt;
    DecryptNothing(schedule);
    OneMoreBlock(schedule, [], block);
  }

  lemma DecryptNothing(schedule: seq<Word>)
    requires |schedule| == 44
    ensures DecryptAll(schedule, []) == []
  {
  }

  lemma OneMoreBlock(schedule: seq<Word>, done: seq<Byte>, block: seq<Byte>)
    requires |schedule| == 44 && |done| % 16 == 0 && |block| == 16
    ensures DecryptAll(schedule, done + block) == DecryptAll(schedule, done) + Decrypt(schedule, block)
  {
    hide Decrypt;
    DecryptAllOfConcat(schedule, done, block);
    assert block[..16] == block && block[16..] == [];
    DecryptNothing(schedule);
  }
}
