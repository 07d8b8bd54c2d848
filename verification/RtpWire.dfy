/** RTP headers, audio packets and the two sync packet formats as wire octets. */
module RtpWire {
  import opened Bytes

  const NANOS_PER_SECOND: int := 1_000_000_000
  const NTP_EPOCH_OFFSET: int := 2_208_988_800

  const PT_RETRANSMIT_RESPONSE: byte := 86

  type Tag = b: Octets | |b| == 16 witness seq(16, _ => 0)
  type Nonce = b: Octets | |b| == 8 witness seq(8, _ => 0)
  type ClockId = b: Octets | |b| == 8 witness seq(8, _ => 0)

  // ------------------------------------------------------------------
  // Headers (section 5.1 of RFC 3550)
  // ------------------------------------------------------------------

  /** The `u8` fields hold any octet; only their low bits have room on the wire. */
  datatype Header = Header(
    version: byte, padding: bool, extension: bool, csrcCount: byte,
    marker: bool, payloadType: byte, sequence: u16, timestamp: u32, ssrc: u32)

  function Bit(b: bool): int {
    if b then 1 else 0
  }

  function AudioHeader(payloadType: byte, sequence: u16, timestamp: u32, ssrc: u32, marker: bool): Header {
    Header(2, false, false, 0, marker, payloadType, sequence, timestamp, ssrc)
  }

  /** Version, padding, extension and CSRC count; shifting an octet left by six keeps its two low bits. */
  function FirstOctet(h: Header): byte {
    h.version % 4 * 64 + Bit(h.padding) * 32 + Bit(h.extension) * 16 + h.csrcCount % 16
  }

  function SecondOctet(h: Header): byte {
    Bit(h.marker) * 128 + h.payloadType % 128
  }

  function SerializeHeader(h: Header): (b: Octets)
    ensures |b| == 12
    ensures FromBe16(b[2..4]) == h.sequence
  {
    var b := [FirstOctet(h), SecondOctet(h)] + Be16(h.sequence) + Be32(h.timestamp) + Be32(h.ssrc);
    assert b[2..4] == Be16(h.sequence);
    b
  }

  function ParseHeader(b: Octets): Option<Header> {
    if |b| < 12 then None
    else Some(Header(
      b[0] / 64 % 4, b[0] / 32 % 2 != 0, b[0] / 16 % 2 != 0, b[0] % 16,
      b[1] / 128 % 2 != 0, b[1] % 128,
      FromBe16(b[2..4]), FromBe32(b[4..8]), FromBe32(b[8..12])))
  }

  predicate InRange(h: Header) {
    h.version < 4 && h.csrcCount < 16 && h.payloadType < 128
  }

  /** The first two octets read back the low bits of their fields. */
  lemma OctetBits(h: Header)
    ensures var a := FirstOctet(h);
            && a / 64 % 4 == h.version % 4 && a / 32 % 2 == Bit(h.padding)
            && a / 16 % 2 == Bit(h.extension) && a % 16 == h.csrcCount % 16
    ensures var b := SecondOctet(h);
            b / 128 % 2 == Bit(h.marker) && b % 128 == h.payloadType % 128
  {
    NibbleBits(h.version % 4, Bit(h.padding), Bit(h.extension), h.csrcCount % 16);
  }

  lemma NibbleBits(v: nat, p: nat, x: nat, c: nat)
    requires v < 4 && p < 2 && x < 2 && c < 16
    ensures var a := v * 64 + p * 32 + x * 16 + c;
            a / 64 == v && a / 32 == 2 * v + p && a / 16 == 4 * v + 2 * p + x && a % 16 == c
  {
  }

  /** What comes back from the wire: every field, cut down to the bits it has there. */
  lemma ParseSerializedHeader(h: Header, rest: Octets)
    ensures ParseHeader(SerializeHeader(h) + rest)
         == Some(h.(version := h.version % 4, csrcCount := h.csrcCount % 16, payloadType := h.payloadType % 128))
  {
    var b := SerializeHeader(h) + rest;
    OctetBits(h);
    assert b[2..4] == Be16(h.sequence);
    assert b[4..8] == Be32(h.timestamp);
    assert b[8..12] == Be32(h.ssrc);
    Be16RoundTrip(h.sequence, b[2..4]);
    Be32RoundTrip(h.timestamp, b[4..8]);
    Be32RoundTrip(h.ssrc, b[8..12]);
  }

  /** Parsing inverts serializing exactly for the headers whose fields fit, whatever follows them. */
  lemma HeaderParseInvertsSerialize(h: Header, rest: Octets)
    ensures ParseHeader(SerializeHeader(h) + rest) == Some(h) <==> InRange(h)
  {
    ParseSerializedHeader(h, rest);
  }

  lemma FirstOctetFromBits(a: byte, h: Header)
    requires h.version == a / 64 % 4 && h.padding == (a / 32 % 2 != 0)
    requires h.extension == (a / 16 % 2 != 0) && h.csrcCount == a % 16
    ensures FirstOctet(h) == a
  {
    assert a / 32 == a / 64 * 2 + a / 32 % 2;
    assert a / 16 == a / 32 * 2 + a / 16 % 2;
  }

  /** Serializing inverts parsing on every twelve octets, so the header loses no bit. */
  lemma HeaderSerializeInvertsParse(b: Octets)
    requires |b| == 12
    ensures ParseHeader(b).Some? && InRange(ParseHeader(b).value)
    ensures SerializeHeader(ParseHeader(b).value) == b
  {
    var h := ParseHeader(b).value;
    Be16RoundTrip(0, b[2..4]);
    Be32RoundTrip(0, b[4..8]);
    Be32RoundTrip(0, b[8..12]);
    FirstOctetFromBits(b[0], h);
    assert b == [b[0], b[1]] + b[2..4] + b[4..8] + b[8..12];
  }

  /** The header on the wire, octet by octet and most significant octet first. */
  lemma HeaderLayout(h: Header, rest: Octets)
    requires InRange(h)
    ensures var b := SerializeHeader(h) + rest;
            && b[0] / 64 == h.version && (b[0] / 32 % 2 == 1 <==> h.padding)
            && (b[0] / 16 % 2 == 1 <==> h.extension) && b[0] % 16 == h.csrcCount
            && (b[1] / 128 == 1 <==> h.marker) && b[1] % 128 == h.payloadType
            && U16At(b, 2) == h.sequence && U32At(b, 4) == h.timestamp && U32At(b, 8) == h.ssrc
  {
    var b := SerializeHeader(h) + rest;
    OctetBits(h);
    assert b[2..4] == Be16(h.sequence) && b[4..8] == Be32(h.timestamp) && b[8..12] == Be32(h.ssrc);
    ReadField16(b, 2, h.sequence);
    ReadField32(b, 4, h.timestamp);
    ReadField32(b, 8, h.ssrc);
  }

  // ------------------------------------------------------------------
  // Packets
  // ------------------------------------------------------------------

  datatype Packet = Packet(header: Header, payload: Octets, nonce: Option<Nonce>, tag: Option<Tag>)

  function TagOctets(tag: Option<Tag>): Octets {
    if tag.Some? then tag.value else []
  }

  function NonceOctets(nonce: Option<Nonce>): Octets {
    if nonce.Some? then nonce.value else []
  }

  /** Header, payload, then the tag before the nonce. */
  function SerializePacket(p: Packet): Octets {
    SerializeHeader(p.header) + p.payload + TagOctets(p.tag) + NonceOctets(p.nonce)
  }

  function PacketSize(p: Packet): nat {
    12 + |p.payload| + (if p.nonce.Some? then 8 else 0) + (if p.tag.Some? then 16 else 0)
  }

  function ParsePacket(b: Octets): Option<Packet> {
    if |b| < 12 then None else Some(Packet(ParseHeader(b).value, b[12..], None, None))
  }

  function ParseEncryptedPacket(b: Octets): Option<Packet> {
    if |b| < 36 then None
    else
      var trailer := |b| - 24;
      Some(Packet(ParseHeader(b).value, b[12..trailer], Some(b[trailer + 16..]), Some(b[trailer..trailer + 16])))
  }

  /** Header, payload, sixteen octets of tag and eight of nonce, in this order. */
  lemma PacketLayout(p: Packet)
    ensures var b, n := SerializePacket(p), 12 + |p.payload|;
            && |b| == n + (if p.tag.Some? then 16 else 0) + (if p.nonce.Some? then 8 else 0)
            && b[..12] == SerializeHeader(p.header) && b[12..n] == p.payload
            && (p.tag.Some? ==> b[n..n + 16] == p.tag.value)
            && (p.nonce.Some? ==> b[|b| - 8..] == p.nonce.value)
  {
  }

  lemma PacketSizeIsSerializedLength(p: Packet)
    ensures |SerializePacket(p)| == PacketSize(p)
  {
  }

  /**
   * A packet comes back from the wire unchanged: through the plain parser exactly when it
   * carries no trailer, through the encrypted one whenever it carries both trailer fields.
   */
  lemma PacketRoundTrip(p: Packet)
    requires InRange(p.header)
    ensures ParsePacket(SerializePacket(p)) == Some(p) <==> p.tag.None? && p.nonce.None?
    ensures p.tag.Some? && p.nonce.Some? ==> ParseEncryptedPacket(SerializePacket(p)) == Some(p)
  {
    var b := SerializePacket(p);
    var rest := p.payload + TagOctets(p.tag) + NonceOctets(p.nonce);
    assert b == SerializeHeader(p.header) + rest;
    HeaderParseInvertsSerialize(p.header, rest);
    assert b[12..] == rest;
    if p.tag.Some? && p.nonce.Some? {
      var trailer := |b| - 24;
      assert b[12..trailer] == p.payload;
      assert b[trailer..trailer + 16] == p.tag.value;
      assert b[trailer + 16..] == p.nonce.value;
    } else if p.tag.None? && p.nonce.None? {
      assert rest == p.payload;
    }
  }

  // ------------------------------------------------------------------
  // Clock fields of the sync packets
  // ------------------------------------------------------------------

  /** Nanoseconds below one second as a 32-bit binary fraction, rounded down. */
  function BinaryFraction(nanos: nat): (f: u32)
    requires nanos < NANOS_PER_SECOND
  {
    nanos * POW32 / NANOS_PER_SECOND
  }

  /** PT=87 clock field: seconds truncated to 32 bits, then the fraction. */
  function PtpClockField(ns: u64): (b: Octets)
    ensures |b| == 8
  {
    Be32(ns / NANOS_PER_SECOND % POW32) + Be32(BinaryFraction(ns % NANOS_PER_SECOND))
  }

  /** Seconds since 1900 in the upper half; the left shift drops the bits above 32. */
  function UnixToNtp(ns: u64): u64 {
    (ns / NANOS_PER_SECOND + NTP_EPOCH_OFFSET) % POW32 * POW32 + BinaryFraction(ns % NANOS_PER_SECOND)
  }

  /** The fixed-point reading a receiver makes of an eight-octet PT=87 clock field. */
  function ClockFieldValue(b: Octets): int
    requires |b| == 8
  {
    U32At(b, 0) * 0x1_0000_0000 + U32At(b, 4)
  }

  /** Nanosecond count of a fixed-point clock reading, with the fraction rounded up. */
  function ReadClockField(b: Octets): int
    requires |b| == 8
  {
    U32At(b, 0) * 1_000_000_000 + (U32At(b, 4) * 1_000_000_000 + 0xFFFF_FFFF) / 0x1_0000_0000
  }

  lemma BinaryFractionExact(nanos: nat)
    requires nanos < NANOS_PER_SECOND
    ensures (BinaryFraction(nanos) * NANOS_PER_SECOND + POW32 - 1) / POW32 == nanos
  {
    var f := BinaryFraction(nanos);
    assert f * NANOS_PER_SECOND <= nanos * POW32 < (f + 1) * NANOS_PER_SECOND;
  }

  /** The two halves of the clock field. */
  lemma ClockFieldParts(ns: u64)
    ensures var b := PtpClockField(ns);
            U32At(b, 0) == ns / NANOS_PER_SECOND % POW32 && U32At(b, 4) == BinaryFraction(ns % NANOS_PER_SECOND)
  {
    hide BinaryFraction, Be32, FromBe32;
    var b := PtpClockField(ns);
    assert b[0..4] == Be32(ns / NANOS_PER_SECOND % POW32);
    assert b[4..8] == Be32(BinaryFraction(ns % NANOS_PER_SECOND));
    ReadField32(b, 0, ns / NANOS_PER_SECOND % POW32);
    ReadField32(b, 4, BinaryFraction(ns % NANOS_PER_SECOND));
  }

  /** Below 2^32 seconds, rounding up recovers the exact nanosecond that was encoded. */
  lemma PtpClockFieldIsExact(ns: u64)
    requires ns < POW32 * NANOS_PER_SECOND
    ensures ReadClockField(PtpClockField(ns)) == ns
    ensures ClockFieldValue(PtpClockField(ns)) == ns / NANOS_PER_SECOND * POW32 + BinaryFraction(ns % NANOS_PER_SECOND)
  {
    hide BinaryFraction, PtpClockField, FromBe32;
    ClockFieldParts(ns);
    BinaryFractionExact(ns % NANOS_PER_SECOND);
  }

  /** The encoding is strictly increasing, hence injective, below 2^32 seconds. */
  lemma PtpClockFieldIsStrictlyIncreasing(a: u64, b: u64)
    requires a < b < POW32 * NANOS_PER_SECOND
    ensures ClockFieldValue(PtpClockField(a)) < ClockFieldValue(PtpClockField(b))
  {
    PtpClockFieldIsExact(a);
    PtpClockFieldIsExact(b);
    if a / NANOS_PER_SECOND == b / NANOS_PER_SECOND {
      assert a % NANOS_PER_SECOND < b % NANOS_PER_SECOND;
      BinaryFractionExact(a % NANOS_PER_SECOND);
      BinaryFractionExact(b % NANOS_PER_SECOND);
    } else {
      assert a / NANOS_PER_SECOND + 1 <= b / NANOS_PER_SECOND;
    }
  }

  // ------------------------------------------------------------------
  // Sync packets and retransmit responses
  // ------------------------------------------------------------------

  function SyncType(first: bool): byte {
    if first then 0x90 else 0x80
  }

  /** PT=84, 20 octets: type, 0xD4, sequence, RTP time, NTP time, RTP time. */
  function NtpSyncPacket(first: bool, sequence: u16, rtp: u32, ntp: u64): (b: Octets)
    ensures |b| == 20 && b[0] == SyncType(first)
  {
    [SyncType(first), 0xD4] + Be16(sequence) + Be32(rtp) + Be64(ntp) + Be32(rtp)
  }

  /** PT=87, 28 octets: type, 0xD7, sequence, RTP time, PTP time, next RTP time, master clock. */
  function PtpSyncPacket(first: bool, sequence: u16, rtp: u32, ns: u64, next: u32, id: ClockId): (b: Octets)
    ensures |b| == 28 && b[0] == SyncType(first) && b[1] == 0xD7
    ensures b[8..16] == PtpClockField(ns) && b[20..28] == id
  {
    var b := [SyncType(first), 0xD7] + Be16(sequence) + Be32(rtp) + PtpClockField(ns) + Be32(next) + id;
    assert b[8..16] == PtpClockField(ns);
    assert b[20..28] == id;
    b
  }

  /** A receiver reads back every shared field of a sync packet. */
  lemma SyncPacketsReadBack(first: bool, sequence: u16, rtp: u32, ntp: u64, ns: u64, next: u32, id: ClockId)
    ensures var b := NtpSyncPacket(first, sequence, rtp, ntp);
            && b[1] == 0x80 + 84
            && U16At(b, 2) == sequence && U32At(b, 4) == rtp && U32At(b, 8) * POW32 + U32At(b, 12) == ntp && U32At(b, 16) == rtp
    ensures var b := PtpSyncPacket(first, sequence, rtp, ns, next, id);
            && b[1] == 0x80 + 87
            && U16At(b, 2) == sequence && U32At(b, 4) == rtp && U32At(b, 16) == next && b[20..28] == id
  {
    hide Be16, Be32, PtpClockField;
    var b := NtpSyncPacket(first, sequence, rtp, ntp);
    ReadField16(b, 2, sequence);
    ReadField32(b, 4, rtp);
    ReadField32(b, 8, ntp / POW32);
    ReadField32(b, 12, ntp % POW32);
    ReadField32(b, 16, rtp);
    assert b[2..4] == Be16(sequence) && b[4..8] == Be32(rtp) && b[16..20] == Be32(rtp);
    assert b[8..12] == Be32(ntp / POW32) && b[12..16] == Be32(ntp % POW32);
    var p := PtpSyncPacket(first, sequence, rtp, ns, next, id);
    assert p[2..4] == Be16(sequence) && p[4..8] == Be32(rtp) && p[16..20] == Be32(next);
    ReadField16(p, 2, sequence);
    ReadField32(p, 4, rtp);
    ReadField32(p, 16, next);
  }

  /** Seconds since 1900 above, the fraction below; rounding the fraction up recovers the nanosecond. */
  lemma NtpTimeReadsBack(ns: u64)
    ensures UnixToNtp(ns) / 0x1_0000_0000 == (ns / 1_000_000_000 + 2_208_988_800) % 0x1_0000_0000
    ensures (UnixToNtp(ns) % 0x1_0000_0000 * 1_000_000_000 + 0xFFFF_FFFF) / 0x1_0000_0000 == ns % 1_000_000_000
  {
    hide BinaryFraction;
    BinaryFractionExact(ns % NANOS_PER_SECOND);
  }

  /** NTP time also increases strictly, but only until its 32-bit seconds run out (in 2036). */
  lemma NtpTimeIncreasesUntilWrap(a: u64, b: u64)
    requires a < b
    ensures b / NANOS_PER_SECOND + NTP_EPOCH_OFFSET < POW32 ==> UnixToNtp(a) < UnixToNtp(b)
    ensures UnixToNtp((POW32 - NTP_EPOCH_OFFSET) * NANOS_PER_SECOND) == 0
  {
    BinaryFractionExact(a % NANOS_PER_SECOND);
    BinaryFractionExact(b % NANOS_PER_SECOND);
  }

  /** PT=86: four octets naming the original sequence, then the original packet. */
  function RetransmitResponse(original: Octets): Octets {
    [0x80, 0x80 + PT_RETRANSMIT_RESPONSE]
    + (if |original| >= 4 then original[2..4] else [0, 0])
    + original
  }

  /** A response names the sequence it answers and carries the original packet unchanged. */
  lemma ResponseCarriesPacket(original: Octets)
    requires |original| >= 4
    ensures var r := RetransmitResponse(original);
            r[0] == 0x80 && r[1] == 0xD6 && r[2..4] == original[2..4] && r[4..] == original
  {
  }
}
