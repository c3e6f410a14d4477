/** The newcamd wire protocol of core/dtv_camd_newcamd.c: framing, padding, check byte and the
    triple DES envelope. The socket is a sequence of bytes that have arrived; padding and
    initialisation vectors come in as parameters. */
module Newcamd {
  import opened Buffers
  import opened Bytes
  import opened TripleDes
  import opened Wire

  const HEADER := 8
  const MESSAGE_MAX := 400
  const BUFFER_SIZE := 1024

  /* ---- the check byte ---- */

  function XorSum(data: seq<Byte>): Byte {
    if data == [] then 0 else XorSum(data[..|data| - 1]) ^ data[|data| - 1]
  }

  lemma XorSumOfChecked(data: seq<Byte>)
    ensures XorSum(data + [XorSum(data)]) == 0
  {
    assert (data + [XorSum(data)])[..|data|] == data;
  }

  method ComputeXorSum(data: seq<Byte>) returns (sum: Byte)
    ensures sum == XorSum(data)
  {
    sum := 0;
    for i := 0 to |data|
      invariant sum == XorSum(data[..i])
    {
      sum := sum ^ data[i];
      assert data[..i + 1][..i] == data[..i];
    }
    assert data[..|data|] == data;
  }

  /* ---- what a message is ---- */

  /** Which service and card an ECM is for. */
  datatype Address = Address(serviceId: nat, caSystemId: nat, providerId: nat) {
    ghost predicate Valid() { serviceId < 0x10000 && caSystemId < 0x10000 && providerId < 0x1000000 }
  }

  /** The section with its length field rewritten from its real size. */
  function Reencoded(data: seq<Byte>): (r: seq<Byte>)
    requires 3 <= |data| < 4096
    ensures |r| == |data|
  {
    [data[0], LengthHi(data[1], |data| - 3), Lo(|data| - 3)] + data[3..]
  }

  ghost predicate WellFormedSection(data: seq<Byte>) {
    |data| >= 3 && SectionLength(data[1], data[2]) == |data| - 3
  }

  /** A section whose length field was right is not changed. */
  lemma ReencodedWellFormed(data: seq<Byte>)
    requires 3 <= |data| < 4096 && WellFormedSection(data)
    ensures Reencoded(data) == data
  {
    var n := |data| - 3;
    LengthRecovered(data[1], data[2], n);
    assert data == [data[0], data[1], data[2]] + data[3..];
  }

  /** Ten bytes of header: message id, service, CA system, provider, a zero. */
  function Header(id: nat, to: Address): (h: seq<Byte>)
    ensures |h| == 10
  {
    [Hi(id), Lo(id), Hi(to.serviceId), Lo(to.serviceId), Hi(to.caSystemId), Lo(to.caSystemId),
     Lo(to.providerId / 0x10000), Hi(to.providerId), Lo(to.providerId), 0]
  }

  function PadCount(length: nat): (count: nat)
    requires length >= 1
    ensures count < 8 && (length - 1 + count) % 8 == 0
  {
    (8 - (length - 1) % 8) % 8
  }

  /** What is enciphered: header, section, padding, check byte. */
  function Plain(id: nat, to: Address, data: seq<Byte>, padding: seq<Byte>): (p: seq<Byte>)
    requires 3 <= |data| < 4096 && |padding| == 8
    ensures |p| == 10 + |data| + PadCount(|data| + 12) + 1
  {
    var body := Header(id, to) + Reencoded(data) + padding[..PadCount(|data| + 12)];
    body + [XorSum(body)]
  }

  /** What a server reads of the header: the number of the message, which the answer is to carry, and what the
      ECM is of and for. */
  lemma ServerReads(id: nat, to: Address, data: seq<Byte>, padding: seq<Byte>)
    requires id < 0x10000 && to.Valid() && |padding| == 8 && 3 <= |data| < 4096
    ensures var p := Plain(id, to, data, padding);
            && Word(p[0], p[1]) == id && Word(p[2], p[3]) == to.serviceId && Word(p[4], p[5]) == to.caSystemId
            && 0x10000 * p[6] as nat + Word(p[7], p[8]) == to.providerId && p[9] == 0
            && p[10] == data[0] && p[13..10 + |data|] == data[3..]
  {
    hide XorSum, Hi, Lo, Word, LengthHi, PadCount;
    var p := Plain(id, to, data, padding);
    HeaderFirst(id, to, data, padding);
    WordOfBytes(id);
    WordOfBytes(to.serviceId);
    WordOfBytes(to.caSystemId);
    ProviderBytes(to.providerId);
  }

  lemma HeaderFirst(id: nat, to: Address, data: seq<Byte>, padding: seq<Byte>)
    requires |padding| == 8 && 3 <= |data| < 4096
    ensures var p := Plain(id, to, data, padding);
            && p[..10] == Header(id, to) && p[10..10 + |data|] == Reencoded(data)
            && (forall k :: 0 <= k < 10 ==> p[k] == Header(id, to)[k])
            && p[10] == data[0] && p[13..10 + |data|] == data[3..]
  {
    hide XorSum, Hi, Lo, LengthHi, PadCount, Header;
    var p, r := Plain(id, to, data, padding), Reencoded(data);
    assert p[10..10 + |data|] == r;
    assert p[10] == p[10..10 + |data|][0];
    assert p[13..10 + |data|] == p[10..10 + |data|][3..] == data[3..];
  }

  lemma ProviderBytes(n: nat)
    requires n < 0x1000000
    ensures 0x10000 * Lo(n / 0x10000) as nat + Word(Hi(n), Lo(n)) == n
  {
    hide Word, Hi, Lo;
    Decomposed(n);
    JoinedBytes(n / 0x10000, n / 256 % 256, n % 256);
  }

  lemma Decomposed(n: nat)
    requires n < 0x1000000
    ensures n == 0x10000 * (n / 0x10000) + 256 * (n / 256 % 256) + n % 256 && n / 0x10000 < 256
  {
    ThreeBytes(n / 256, n % 256);
  }

  lemma JoinedBytes(high: nat, m: nat, l: nat)
    requires high < 256 && m < 256 && l < 256
    ensures var n := 0x10000 * high + 256 * m + l;
            0x10000 * Lo(n / 0x10000) as nat + Word(Hi(n), Lo(n)) == n
  {
    hide Word, Hi, Lo;
    var low := 256 * m + l;
    Wider(high, m, l);
    WordOfBytes(low);
    Sum(0x10000 * high + 256 * m + l, high, low);
  }

  lemma Sum(n: nat, high: nat, low: nat)
    requires n == 0x10000 * high + low && high < 256 && low < 0x10000
    requires Word(Hi(n), Lo(n)) == low
    ensures 0x10000 * Lo(n / 0x10000) as nat + Word(Hi(n), Lo(n)) == n
  {
    hide Word, Hi, Lo;
    Quotient(high, low);
    LoValue(high);
  }

  lemma Quotient(high: nat, low: nat)
    requires low < 0x10000
    ensures (0x10000 * high + low) / 0x10000 == high
  {
  }

  lemma ThreeBytes(q: nat, l: nat)
    requires l < 256
    ensures (256 * q + l) / 256 == q && (256 * q + l) % 256 == l && (256 * q + l) / 0x10000 == q / 256
  {
  }

  lemma Wider(high: nat, m: nat, l: nat)
    requires high < 256 && m < 256 && l < 256
    ensures var n := 0x10000 * high + 256 * m + l; Hi(n) == Hi(256 * m + l) && Lo(n) == Lo(256 * m + l)
  {
    ThreeBytes(256 * high + m, l);
    ThreeBytes(m, l);
    ThreeBytes(high, m);
  }

  datatype Key = Key(first: seq<Byte>, second: seq<Byte>) {
    ghost predicate Valid() { |first| == 8 && |second| == 8 }
  }

  /** Length prefix, ciphertext, initialisation vector. */
  ghost function Frame(key: Key, plain: seq<Byte>, iv: seq<Byte>): (wire: seq<Byte>)
    requires key.Valid() && |iv| == 8
    ensures |wire| == |plain| + 10
  {
    [Hi(|plain| + 8), Lo(|plain| + 8)] + CbcEncrypt(key.first, key.second, iv, plain) + iv
  }

  /** What a server reads of a message as a whole: how many bytes follow, the ciphertext, and at their end the
      vector it was made with. */
  lemma FrameRead(key: Key, plain: seq<Byte>, iv: seq<Byte>)
    requires key.Valid() && |iv| == 8 && |plain| + 8 < 0x10000
    ensures var f := Frame(key, plain, iv);
            && Word(f[0], f[1]) == |f| - 2 == |plain| + 8
            && f[2..|f| - 8] == CbcEncrypt(key.first, key.second, iv, plain) && f[|f| - 8..] == iv
  {
    hide Word, Hi, Lo, CbcEncrypt;
    WordOfBytes(|plain| + 8);
  }

  /** Long enough to carry a section header, short enough for the buffer once padded. */
  predicate Accepted(size: nat) {
    size >= 3 && size + HEADER + 4 <= MESSAGE_MAX && size + 12 + PadCount(size + 12) + 1 < MESSAGE_MAX - 8
  }

  /** The longest section sent has 373 bytes. */
  lemma AcceptedSizes(size: nat)
    ensures Accepted(size) <==> 3 <= size <= 373
  {
    var length := size + 12;
    var k := (length - 1 + PadCount(length)) / 8;
    assert length - 1 + PadCount(length) == 8 * k;
  }

  /* ---- what a reader makes of the bytes ---- */

  datatype Reply = Payload(data: seq<Byte>) | Timeout | Failed | Stale

  /** A reply, and the bytes it left unread on the socket. `silent` says whether an exhausted
      socket is merely quiet (a timeout when nothing was read) or closed. */
  ghost function Parse(key: Key, wire: seq<Byte>, silent: bool, expectedId: int): (r: (Reply, seq<Byte>))
    requires key.Valid()
  {
    if |wire| < 2 then (if wire == [] && silent then Timeout else Failed, [])
    else
      var length := Word(wire[0], wire[1]);
      if length < 16 || length > BUFFER_SIZE - 2 then (Failed, wire[2..])
      else if |wire| < 2 + length then (Failed, [])
      else (ParseBody(key, wire[2..2 + length], expectedId), wire[2 + length..])
  }

  ghost function ParseBody(key: Key, body: seq<Byte>, expectedId: int): Reply
    requires key.Valid() && |body| >= 16
  {
    var size := |body| - 8;
    if |body| % 8 != 0 then Failed
    else ParsePlain(CbcDecrypt(key.first, key.second, body[size..], body[..size]), expectedId)
  }

  function ParsePlain(plain: seq<Byte>, expectedId: int): Reply
    requires |plain| >= 8
  {
    if XorSum(plain) != 0 then Failed
    else if expectedId >= 0 && Word(plain[0], plain[1]) != expectedId then Stale
    else if |plain| < 13 then Failed
    else
      var payload := SectionLength(plain[11], plain[12]) + 3;
      if payload > |plain| - 10 then Failed else Payload(plain[10..10 + payload])
  }

  lemma PlainParts(id: nat, to: Address, data: seq<Byte>, padding: seq<Byte>)
    requires id < 0x10000 && |padding| == 8 && 3 <= |data| < 4096
    ensures var plain := Plain(id, to, data, padding);
            && |plain| % 8 == 0 && 16 <= |plain| <= |data| + 18
            && XorSum(plain) == 0
            && Word(plain[0], plain[1]) == id
            && SectionLength(plain[11], plain[12]) == |data| - 3
            && plain[10..10 + |data|] == Reencoded(data)
  {
    hide XorSum, SectionLength, Hi, Lo, Word, LengthHi;
    var padCount := PadCount(|data| + 12);
    XorSumOfChecked(Header(id, to) + Reencoded(data) + padding[..padCount]);
    WordOfBytes(id);
    SectionLengthOfEncoded(data[1], |data| - 3);
    var plain, section := Plain(id, to, data, padding), Reencoded(data);
    var tail := padding[..padCount] + [XorSum(Header(id, to) + section + padding[..padCount])];
    assert plain == Header(id, to) + (section + tail);
    assert plain[10..] == section + tail;
    assert plain[11] == section[1] && plain[12] == section[2];
  }

  lemma ParseBodyOfPlain(key: Key, plain: seq<Byte>, iv: seq<Byte>, expectedId: int, size: nat)
    requires key.Valid() && |iv| == 8 && |plain| >= 16 && |plain| % 8 == 0 && XorSum(plain) == 0
    requires expectedId < 0 || Word(plain[0], plain[1]) == expectedId
    requires SectionLength(plain[11], plain[12]) + 3 == size && 10 + size <= |plain|
    ensures ParseBody(key, CbcEncrypt(key.first, key.second, iv, plain) + iv, expectedId) ==
        Payload(plain[10..10 + size])
  {
    hide CbcEncrypt, CbcDecrypt, XorSum, SectionLength, Word, ParsePlain;
    var cipher := CbcEncrypt(key.first, key.second, iv, plain);
    assert (cipher + iv)[..|plain|] == cipher && (cipher + iv)[|plain|..] == iv;
    CbcRoundTrip(key.first, key.second, iv, plain);
    ParsePlainOf(plain, expectedId, size);
  }

  lemma ParsePlainOf(plain: seq<Byte>, expectedId: int, size: nat)
    requires |plain| >= 16 && XorSum(plain) == 0 && (expectedId < 0 || Word(plain[0], plain[1]) == expectedId)
    requires SectionLength(plain[11], plain[12]) + 3 == size && 10 + size <= |plain|
    ensures ParsePlain(plain, expectedId) == Payload(plain[10..10 + size])
  {
    hide XorSum, SectionLength, Word;
  }

  /** Everything the sender writes for an accepted section is read back by a reader with the same
      key as that section, length field re-encoded, with the rest of the stream untouched. */
  lemma Loopback(key: Key, id: nat, to: Address, data: seq<Byte>, padding: seq<Byte>, iv: seq<Byte>,
                 more: seq<Byte>, silent: bool, checkId: bool)
    requires key.Valid() && id < 0x10000 && |padding| == 8 && |iv| == 8 && Accepted(|data|)
    ensures Parse(key, Frame(key, Plain(id, to, data, padding), iv) + more, silent, if checkId then id else -1)
         == (Payload(Reencoded(data)), more)
  {
    hide CbcEncrypt, XorSum, SectionLength, Plain, ParseBody, Hi, Lo, Word, Reencoded;
    var plain := Plain(id, to, data, padding);
    var wire := Frame(key, plain, iv) + more;
    var length := |plain| + 8;
    PlainParts(id, to, data, padding);
    WordOfBytes(length);
    assert wire[2..2 + length] == CbcEncrypt(key.first, key.second, iv, plain) + iv;
    assert wire[2 + length..] == more;
    ParseBodyOfPlain(key, plain, iv, if checkId then id else -1, |data|);
  }

  /** A well-formed section comes back exactly. */
  lemma LoopbackExact(key: Key, id: nat, to: Address, data: seq<Byte>, padding: seq<Byte>, iv: seq<Byte>,
      more: seq<Byte>)
    requires key.Valid() && id < 0x10000 && |padding| == 8 && |iv| == 8 && Accepted(|data|) && WellFormedSection(data)
    ensures Parse(key, Frame(key, Plain(id, to, data, padding), iv) + more, false, id) == (Payload(data), more)
  {
    Loopback(key, id, to, data, padding, iv, more, false, true);
    ReencodedWellFormed(data);
  }

  /* ---- the answer to an ECM ---- */

  /** Sixteen bytes of control word; none, with the connection kept; or a broken connection. */
  datatype Answer = ControlWord(word: seq<Byte>) | NoWord | Broken

  /** A message that answers nothing: one with another number, or of no ECM's table id. */
  predicate Beside(reply: Reply) {
    reply.Stale? || (reply.Payload? && |reply.data| > 0 && reply.data[0] != 0x80 && reply.data[0] != 0x81)
  }

  /** What is made of the messages that arrive while an answer numbered `id` is waited for. */
  ghost function Answered(key: Key, wire: seq<Byte>, silent: bool, id: nat, attempts: nat): (r: (Answer, seq<Byte>))
    requires key.Valid() && attempts <= 64
    decreases 64 - attempts
  {
    hide CbcDecrypt, XorSum;
    var (reply, rest) := Parse(key, wire, silent, id);
    if Beside(reply) then
      if attempts == 64 then (Broken, rest) else Answered(key, rest, silent, id, attempts + 1)
    else if reply.Payload? && |reply.data| == 19 then (ControlWord(reply.data[3..]), rest)
    else if reply.Timeout? || (reply.Payload? && |reply.data| == 3) then (NoWord, rest)
    else (Broken, rest)
  }

  /** A message as a server sends it. */
  datatype Sent = Sent(id: nat, to: Address, data: seq<Byte>, padding: seq<Byte>, iv: seq<Byte>) {
    predicate Fine() { id < 0x10000 && 3 <= |data| <= 373 && |padding| == 8 && |iv| == 8 }

    /** No answer to the ECM numbered `n`. */
    predicate Beside(n: nat)
      requires Fine()
    {
      id != n || data[0] !in [0x80, 0x81]
    }
  }

  ghost function OnWire(key: Key, sent: Sent): seq<Byte>
    requires key.Valid() && sent.Fine()
  {
    Frame(key, Plain(sent.id, sent.to, sent.data, sent.padding), sent.iv)
  }

  /** A server's announcements and late answers. */
  ghost function AllOnWire(key: Key, sent: seq<Sent>): seq<Byte>
    requires key.Valid() && forall i :: 0 <= i < |sent| ==> sent[i].Fine()
  {
    if sent == [] then [] else OnWire(key, sent[0]) + AllOnWire(key, sent[1..])
  }

  lemma WireParsed(key: Key, sent: Sent, more: seq<Byte>, silent: bool, id: nat)
    requires key.Valid() && sent.Fine()
    ensures Parse(key, OnWire(key, sent) + more, silent, id) ==
              (if sent.id == id then Payload(Reencoded(sent.data)) else Stale, more)
  {
    hide Frame, Plain, Parse;
    AcceptedSizes(|sent.data|);
    if sent.id == id {
      Loopback(key, id, sent.to, sent.data, sent.padding, sent.iv, more, silent, true);
    } else {
      OtherNumber(key, sent, more, silent, id);
    }
  }

  lemma WireParts(key: Key, sent: Sent, more: seq<Byte>)
    requires key.Valid() && sent.Fine()
    ensures var plain := Plain(sent.id, sent.to, sent.data, sent.padding);
            var cipher, wire := CbcEncrypt(key.first, key.second, sent.iv, plain), OnWire(key, sent) + more;
            var n := |plain| + 8;
            && |wire| == 2 + n + |more| && Word(wire[0], wire[1]) == n && wire[2..2 + n] == cipher + sent.iv
            && wire[2..2 + n][..|plain|] == cipher && wire[2..2 + n][|plain|..] == sent.iv && wire[2 + n..] == more
  {
    hide CbcEncrypt, Plain, Hi, Lo, Word;
    PlainParts(sent.id, sent.to, sent.data, sent.padding);
    WordOfBytes(|Plain(sent.id, sent.to, sent.data, sent.padding)| + 8);
  }

  /** With another number than the one waited for, the same message is a stale one. */
  lemma OtherNumber(key: Key, sent: Sent, more: seq<Byte>, silent: bool, id: nat)
    requires key.Valid() && sent.Fine() && sent.id != id
    ensures Parse(key, OnWire(key, sent) + more, silent, id) == (Stale, more)
  {
    hide CbcEncrypt, CbcDecrypt, XorSum, SectionLength, Plain, Hi, Lo, Word, OnWire;
    var plain := Plain(sent.id, sent.to, sent.data, sent.padding);
    PlainParts(sent.id, sent.to, sent.data, sent.padding);
    WireParts(key, sent, more);
    CbcRoundTrip(key.first, key.second, sent.iv, plain);
  }

  /** A control word comes back through up to 64 messages that answer nothing, exactly; with one more of them
      the connection is given up. */
  lemma {:induction false} WordArrives(key: Key, others: seq<Sent>, answer: Sent, more: seq<Byte>, silent: bool,
                                       id: nat, attempts: nat)
    requires key.Valid() && attempts <= 64 && answer.Fine() && answer.id == id
    requires answer.data[0] in [0x80, 0x81] && |answer.data| == 19
    requires forall i :: 0 <= i < |others| ==> others[i].Fine() && others[i].Beside(id)
    ensures var r := Answered(key, AllOnWire(key, others) + (OnWire(key, answer) + more), silent, id, attempts);
            if attempts + |others| <= 64 then r == (ControlWord(answer.data[3..]), more) else r.0 == Broken
    decreases |others|
  {
    hide Parse, OnWire;
    if others == [] {
      assert AllOnWire(key, others) + (OnWire(key, answer) + more) == OnWire(key, answer) + more;
      WireParsed(key, answer, more, silent, id);
      assert Reencoded(answer.data)[3..] == answer.data[3..];
    } else {
      var rest := AllOnWire(key, others[1..]) + (OnWire(key, answer) + more);
      assert AllOnWire(key, others) + (OnWire(key, answer) + more) == OnWire(key, others[0]) + rest;
      WireParsed(key, others[0], rest, silent, id);
      if attempts < 64 {
        WordArrives(key, others[1..], answer, more, silent, id, attempts + 1);
      }
    }
  }

  /* ---- the connection ---- */

  class Connection {
    var key: Key
    var msgId: nat
    const buffer: array<Byte>

    ghost predicate Valid()
      reads this
    {
      key.Valid() && msgId < 0x10000 && buffer.Length == BUFFER_SIZE
    }

    constructor (key: Key)
      requires key.Valid()
      ensures Valid() && this.key == key && msgId == 0 && fresh(buffer)
    {
      this.key := key;
      msgId := 0;
      buffer := new Byte[BUFFER_SIZE];
    }

    /** Builds, pads, enciphers and frames one message. The id is consumed even when the padding
        then finds the message too long, or the socket does not take all of it, which is `delivered`. */
    method Send(data: seq<Byte>, to: Address, useMsgId: bool, padding: seq<Byte>, iv: seq<Byte>, delivered: bool)
      returns (wire: seq<Byte>, rc: int)
      requires Valid() && to.Valid() && |padding| == 8 && |iv| == 8
      modifies this`msgId
      ensures Valid()
      ensures rc == if Accepted(|data|) && delivered then 1 else -1
      ensures var inRange := 3 <= |data| <= MESSAGE_MAX - HEADER - 4;
              msgId == if useMsgId && inRange then (old(msgId) + 1) % 0x10000 else old(msgId)
      ensures Accepted(|data|) ==> wire == Frame(key, Plain(if useMsgId then msgId else 0, to, data, padding), iv)
      ensures !Accepted(|data|) ==> wire == []
    {
      hide CbcEncrypt, XorSum, Splice, Plain, Hi, Lo;
      wire, rc := [], -1;
      if |data| < 3 || |data| + HEADER + 4 > MESSAGE_MAX { return; }
      var message := new Byte[BUFFER_SIZE];
      if useMsgId { msgId := (msgId + 1) % 0x10000; }
      var id := if useMsgId then msgId else 0;
      Fill(message, id, to, data);
      var length, padded := PadMessage(message, |data| + HEADER + 4, padding);
      if !padded { return; }
      assert message[2..length] == Plain(id, to, data, padding) by { PlainIsPadded(id, to, data, padding); }
      wire := Envelope(message, length, iv);
      rc := if delivered then 1 else -1;
    }

    /** Enciphers `message[2..length]` in place and adds vector and length prefix. */
    method Envelope(message: array<Byte>, length: nat, iv: seq<Byte>) returns (wire: seq<Byte>)
      requires Valid() && message.Length == BUFFER_SIZE && 2 <= length <= MESSAGE_MAX && |iv| == 8
      modifies message
      ensures wire == Frame(key, old(message[..])[2..length], iv)
    {
      hide CbcEncrypt, Hi, Lo, Splice;
      ghost var plain := message[2..length];
      SpliceParts(message[..], length, iv);
      Write(message, length, iv);
      assert message[2..length] == message[..][..length][2..] == plain;
      assert message[length..][..8] == message[..][length..length + 8] == iv;
      Encipher(message, length, iv);
      var total := length + 8;
      ghost var sent := message[2..total];
      assert sent == message[2..length] + message[length..][..8];
      message[0] := Hi(total - 2);
      message[1] := Lo(total - 2);
      wire := message[..total];
      assert wire == [message[0], message[1]] + sent;
    }

    method Encipher(message: array<Byte>, length: nat, iv: seq<Byte>)
      requires Valid() && message.Length == BUFFER_SIZE && 2 <= length <= BUFFER_SIZE && |iv| == 8
      modifies message
      ensures message[2..length] == CbcEncrypt(key.first, key.second, iv, old(message[2..length]))
      ensures message[length..] == old(message[length..])
    {
      hide CbcEncrypt, NextIv, Splice;
      var chain := new Byte[8];
      Write(chain, 0, iv);
      SpliceParts(message[..], 2, CbcEncrypt(key.first, key.second, iv, message[2..length]));
      EdeCbcInPlace(key.first, key.second, chain, message, 2, length - 2, true);
      assert message[2..length] == message[..][2..length];
    }

    /** Reads one message. `arrived` is what the socket will deliver; the answer says how much of
        it is left. */
    method Receive(arrived: seq<Byte>, silent: bool, useMsgId: bool) returns (reply: Reply, rest: seq<Byte>)
      requires Valid()
      modifies buffer
      ensures (reply, rest) == Parse(key, arrived, silent, if useMsgId then msgId else -1)
    {
      hide CbcDecrypt, XorSum, Word, SectionLength, Splice;
      if |arrived| < 2 {
        return if arrived == [] && silent then Timeout else Failed, [];
      }
      buffer[0], buffer[1] := arrived[0], arrived[1];
      var length := Word(buffer[0], buffer[1]);
      if length < 16 || length > BUFFER_SIZE - 2 { return Failed, arrived[2..]; }
      if |arrived| < 2 + length { return Failed, []; }
      ghost var body := arrived[2..2 + length];
      Write(buffer, 2, arrived[2..2 + length]);
      BodyInBuffer(buffer[..], body);
      rest := arrived[2 + length..];
      length := length + 2;
      if (length - 2) % 8 != 0 || length - 2 < 16 { return Failed, rest; }
      reply := Open(length - 8, body, useMsgId);
    }

    /** Reads messages until one answers, or none comes. */
    method ReceiveWord(arrived: seq<Byte>, silent: bool) returns (answer: Answer, rest: seq<Byte>)
      requires Valid()
      modifies buffer
      ensures (answer, rest) == Answered(key, arrived, silent, msgId, 0)
    {
      hide Parse;
      var attempts := 0;
      rest := arrived;
      var reply;
      while true
        invariant Valid() && attempts <= 64
        invariant Answered(key, rest, silent, msgId, attempts) == Answered(key, arrived, silent, msgId, 0)
        decreases 64 - attempts
      {
        reply, rest := Receive(rest, silent, true);
        if reply.Timeout? {
          return NoWord, rest;
        }
        if reply.Stale? || (reply.Payload? && |reply.data| > 0 && reply.data[0] != 0x80 && reply.data[0] != 0x81) {
          attempts := attempts + 1;
          if attempts > 64 {
            return Broken, rest;
          }
        } else if reply.Payload? && |reply.data| == 19 {
          return ControlWord(reply.data[3..]), rest;
        } else if reply.Payload? && |reply.data| == 3 {
          return NoWord, rest;
        } else {
          return Broken, rest;
        }
      }
    }

    /** Deciphers `buffer[2..length]` in place with the vector that follows it, and checks it. */
    method Open(length: nat, ghost body: seq<Byte>, useMsgId: bool) returns (reply: Reply)
      requires Valid() && 10 <= length <= BUFFER_SIZE - 8
      requires body == buffer[2..length + 8] && |body| % 8 == 0 && |body| >= 16
      modifies buffer
      ensures reply == ParseBody(key, body, if useMsgId then msgId else -1)
    {
      hide CbcDecrypt, ParsePlain;
      var iv := new Byte[8];
      Write(iv, 0, buffer[length..length + 8]);
      assert iv[..] == body[length - 2..] && buffer[..][2..length] == body[..length - 2];
      EdeCbcInPlace(key.first, key.second, iv, buffer, 2, length - 2, false);
      ghost var plain := CbcDecrypt(key.first, key.second, body[length - 2..], body[..length - 2]);
      assert buffer[2..length] == plain;
      reply := CheckPlain(length, plain, useMsgId);
    }

    method CheckPlain(length: nat, ghost plain: seq<Byte>, useMsgId: bool) returns (reply: Reply)
      requires Valid() && 10 <= length <= BUFFER_SIZE && plain == buffer[2..length]
      ensures reply == ParsePlain(plain, if useMsgId then msgId else -1)
    {
      hide XorSum, Word, SectionLength;
      assert forall i :: 0 <= i < |plain| ==> buffer[i + 2] == plain[i];
      var sum := ComputeXorSum(buffer[2..length]);
      if sum != 0 { return Failed; }
      if useMsgId {
        var answered := Word(buffer[2], buffer[3]);
        if answered != msgId { return Stale; }
      }
      var payload := SectionLength(buffer[5 + HEADER], buffer[6 + HEADER]) + 3;
      if payload > length - (4 + HEADER) { return Failed; }
      assert buffer[4 + HEADER..4 + HEADER + payload] == plain[10..10 + payload];
      return Payload(buffer[4 + HEADER..4 + HEADER + payload]);
    }
  }

  lemma BodyInBuffer(buffer: seq<Byte>, body: seq<Byte>)
    requires 2 + |body| <= |buffer|
    ensures forall b :: |b| == |buffer| && buffer == Splice(b, 2, body) ==> buffer[2..2 + |body|] == body
  {
  }

  /** Header, section and rewritten length, in place. */
  method Fill(message: array<Byte>, id: nat, to: Address, data: seq<Byte>)
    requires message.Length == BUFFER_SIZE && 3 <= |data| <= MESSAGE_MAX - HEADER - 4
    modifies message
    ensures message[2..|data| + 12] == Header(id, to) + Reencoded(data)
  {
    hide Header, Reencoded;
    FillSection(message, data);
    ghost var section := message[12..|data| + 12];
    FillHeader(message, id, to);
    assert message[12..|data| + 12] == section;
    assert message[2..|data| + 12] == message[2..12] + section;
  }

  method FillSection(message: array<Byte>, data: seq<Byte>)
    requires message.Length == BUFFER_SIZE && 3 <= |data| <= MESSAGE_MAX - HEADER - 4
    modifies message
    ensures message[12..|data| + 12] == Reencoded(data)
  {
    hide Lo, LengthHi, Splice;
    SpliceParts(message[..], HEADER + 4, data);
    Write(message, HEADER + 4, data);
    ghost var copied := message[..];
    assert copied[12..12 + |data|] == data;
    message[HEADER + 5] := LengthHi(data[1], |data| - 3);
    message[HEADER + 6] := Lo(|data| - 3);
    assert message[12..|data| + 12] == data[1 := message[13]][2 := message[14]];
  }

  /** Sixteen bits, high byte first. */
  method PutWord(message: array<Byte>, at: nat, value: nat)
    requires at + 2 <= message.Length
    modifies message
    ensures message[..] == old(message[..])[at := Hi(value)][at + 1 := Lo(value)]
  {
    message[at] := Hi(value);
    message[at + 1] := Lo(value);
  }

  method FillHeader(message: array<Byte>, id: nat, to: Address)
    requires message.Length == BUFFER_SIZE
    modifies message
    ensures message[2..12] == Header(id, to)
    ensures message[12..] == old(message[12..])
  {
    hide Hi, Lo;
    ghost var before := message[12..];
    for i := 0 to HEADER + 4
      invariant message[12..] == before
      invariant i == HEADER + 4 ==> message[11] == 0
    {
      message[i] := 0;
    }
    ghost var blank := message[..];
    PutWord(message, 2, id);
    PutWord(message, 4, to.serviceId);
    PutWord(message, 6, to.caSystemId);
    message[8] := Lo(to.providerId / 0x10000);
    PutWord(message, 9, to.providerId);
    HeaderWritten(blank, message[..], id, to);
    assert message[2..12] == message[..][2..12] && message[12..] == message[..][12..] && blank[12..] == before;
  }

  lemma HeaderWritten(blank: seq<Byte>, s: seq<Byte>, id: nat, to: Address)
    requires |blank| == BUFFER_SIZE && blank[11] == 0
    requires s == blank[2 := Hi(id)][3 := Lo(id)][4 := Hi(to.serviceId)][5 := Lo(to.serviceId)]
                       [6 := Hi(to.caSystemId)][7 := Lo(to.caSystemId)][8 := Lo(to.providerId / 0x10000)]
                       [9 := Hi(to.providerId)][10 := Lo(to.providerId)]
    ensures s[2..12] == Header(id, to) && s[12..] == blank[12..]
  {
    hide Hi, Lo;
    assert s[2..12] == [s[2], s[3], s[4], s[5], s[6], s[7], s[8], s[9], s[10], s[11]];
  }

  /** Pads to a whole number of cipher blocks and appends the check byte. */
  method PadMessage(message: array<Byte>, length: nat, padding: seq<Byte>) returns (padded: nat, ok: bool)
    requires message.Length == BUFFER_SIZE && 3 <= length <= MESSAGE_MAX && |padding| == 8
    modifies message
    ensures ok == (length + PadCount(length) + 1 < MESSAGE_MAX - 8)
    ensures ok ==> padded == length + PadCount(length) + 1
    ensures ok ==> var body := old(message[..])[2..length] + padding[..PadCount(length)];
                   message[2..padded] == body + [XorSum(body)]
  {
    hide XorSum;
    var padCount := (8 - (length - 1) % 8) % 8;
    if length + padCount + 1 >= MESSAGE_MAX - 8 { return 0, false; }
    ghost var body := message[2..length] + padding[..padCount];
    Write(message, length, padding[..padCount]);
    var end := length + padCount;
    assert message[2..end] == body;
    message[end] := ComputeXorSum(message[2..end]);
    assert message[2..end + 1] == body + [XorSum(body)];
    return end + 1, true;
  }

  lemma PlainIsPadded(id: nat, to: Address, data: seq<Byte>, padding: seq<Byte>)
    requires 3 <= |data| < 4096 && |padding| == 8
    ensures var body := (Header(id, to) + Reencoded(data)) + padding[..PadCount(|data| + 12)];
            Plain(id, to, data, padding) == body + [XorSum(body)]
  {
  }
}
