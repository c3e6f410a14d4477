/** The header of a transport packet, ISO/IEC 13818-1 section 2.4.3, as core/dtv_csa.c and
    engine/ts_udp.c both take it apart. */
module TsPacket {
  import opened Bytes
  import opened Wrappers
  import Wire

  const PACKET := 188
  const SYNC: Byte := 0x47

  type Packet = p: seq<Byte> | |p| == PACKET witness seq(PACKET, _ => 0)

  /** Where the payload starts, 188 if there is none. */
  function PayloadOffset(p: Packet): (offset: nat)
    ensures 4 <= offset <= PACKET
  {
    if p[3] & 0x30 == 0x10 then 4
    else if p[3] & 0x30 == 0x30 && 5 + p[4] as nat < PACKET then 5 + p[4] as nat
    else PACKET
  }

  /* ---- the layout ---- */

  /** An adaptation field with its length byte, if there is one. */
  function FieldBytes(field: Option<seq<Byte>>): (b: seq<Byte>)
    requires field.Some? ==> |field.value| < 256
    ensures |b| == if field.Some? then 1 + |field.value| else 0
  {
    if field.Some? then [|field.value| as Byte] + field.value else []
  }

  /** A packet is a header of four bytes, an adaptation field and a payload, each if the fourth byte says so. */
  ghost predicate Holds(p: Packet, header: seq<Byte>, field: Option<seq<Byte>>, payload: seq<Byte>) {
    && |header| == 4 && (field.Some? ==> |field.value| < 184)
    && p == header + FieldBytes(field) + payload
    && (field.Some? <==> header[3] & 0x20 != 0)
    && (payload != [] ==> header[3] & 0x10 != 0)
  }

  /** The payload is found where the layout has it. */
  lemma PayloadFound(p: Packet, header: seq<Byte>, field: Option<seq<Byte>>, payload: seq<Byte>)
    requires Holds(p, header, field, payload)
    ensures |header| == 4 && p[3] == header[3]
    ensures PayloadOffset(p) == PACKET - |payload| && p[PACKET - |payload|..] == payload
    ensures p[..PACKET - |payload|] == header + FieldBytes(field)
  {
    ControlBits(header[3]);
    assert p[3] == header[3];
    if field.Some? {
      assert p[4] == FieldBytes(field)[0];
      Wire.ByteOfNat(|field.value|);
    }
  }

  lemma ControlBits(b: Byte)
    ensures b & 0x30 == (if b & 0x20 != 0 then 0x20 else 0) | (if b & 0x10 != 0 then 0x10 else 0)
  {
  }

  /** The fields of the fourth byte, shifted down or masked. */
  lemma HeaderBits(b: Byte)
    ensures b >> 6 >= 2 <==> b & 0x80 != 0
    ensures (b >> 6) & 1 != 0 <==> b & 0x40 != 0
    ensures (b >> 4) & 3 == 1 <==> b & 0x30 == 0x10
    ensures (b >> 4) & 3 == 3 <==> b & 0x30 == 0x30
  {
  }

  /** The search for the payload by the two bits of the adaptation field control. */
  method FindPayload(p: Packet) returns (offset: nat)
    ensures offset == PayloadOffset(p)
  {
    HeaderBits(p[3]);
    var adaptation := (p[3] >> 4) & 3;
    if adaptation == 1 {
      offset := 4;
    } else if adaptation == 3 {
      offset := 5 + p[4] as nat;
      if offset >= PACKET {
        offset := PACKET;
      }
    } else {
      offset := PACKET;
    }
  }
}
