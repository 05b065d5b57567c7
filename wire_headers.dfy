/** The packed wire headers of ue_transport.h (UET, PDS and semantic headers and
    the packet that stacks them) and the dual-stack UET header uet_header_v2_t of
    ue_transport_v4v6.h.

    Layout choices the C declarations leave to the compiler, fixed here:
    - multi-byte fields are written most significant byte first (network order,
      as the IPv4 and UDP fields the flow manager reads with ntohl/ntohs);
    - of two 4-bit bitfields sharing a byte, the first declared occupies the low
      nibble (GCC on a little-endian target). */
module WireHeaders {
  import opened Common

  type nibble = x: int | 0 <= x < 0x10

  // ---------------------------------------------------------------------------
  // Big-endian integers
  // ---------------------------------------------------------------------------

  function BE16(x: u16): (b: seq<byte>)
    ensures |b| == 2
  {
    [x / 0x100, x % 0x100]
  }

  function FromBE16(b: seq<byte>): (x: u16)
    requires |b| == 2
  {
    b[0] as int * 0x100 + b[1] as int
  }

  function BE32(x: u32): (b: seq<byte>)
    ensures |b| == 4
  {
    BE16(x / 0x1_0000) + BE16(x % 0x1_0000)
  }

  function FromBE32(b: seq<byte>): (x: u32)
    requires |b| == 4
  {
    FromBE16(b[..2]) * 0x1_0000 + FromBE16(b[2..])
  }

  function BE64(x: u64): (b: seq<byte>)
    ensures |b| == 8
  {
    BE32(x / 0x1_0000_0000) + BE32(x % 0x1_0000_0000)
  }

  function FromBE64(b: seq<byte>): (x: u64)
    requires |b| == 8
  {
    FromBE32(b[..4]) * 0x1_0000_0000 + FromBE32(b[4..])
  }

  lemma BE16RoundTrip(x: u16)
    ensures FromBE16(BE16(x)) == x
  {
  }

  lemma BE16Onto(b: seq<byte>)
    requires |b| == 2
    ensures BE16(FromBE16(b)) == b
  {
  }

  lemma BE32RoundTrip(x: u32)
    ensures FromBE32(BE32(x)) == x
  {
    var b := BE32(x);
    assert b[..2] == BE16(x / 0x1_0000);
    assert b[2..] == BE16(x % 0x1_0000);
    BE16RoundTrip(x / 0x1_0000);
    BE16RoundTrip(x % 0x1_0000);
  }

  lemma BE32Onto(b: seq<byte>)
    requires |b| == 4
    ensures BE32(FromBE32(b)) == b
  {
    var hi, lo := FromBE16(b[..2]), FromBE16(b[2..]);
    assert FromBE32(b) / 0x1_0000 == hi;
    assert FromBE32(b) % 0x1_0000 == lo;
    BE16Onto(b[..2]);
    BE16Onto(b[2..]);
    assert b == b[..2] + b[2..];
  }

  lemma BE64RoundTrip(x: u64)
    ensures FromBE64(BE64(x)) == x
  {
    var b := BE64(x);
    assert b[..4] == BE32(x / 0x1_0000_0000);
    assert b[4..] == BE32(x % 0x1_0000_0000);
    BE32RoundTrip(x / 0x1_0000_0000);
    BE32RoundTrip(x % 0x1_0000_0000);
  }

  lemma BE64Onto(b: seq<byte>)
    requires |b| == 8
    ensures BE64(FromBE64(b)) == b
  {
    var hi, lo := FromBE32(b[..4]), FromBE32(b[4..]);
    assert FromBE64(b) / 0x1_0000_0000 == hi;
    assert FromBE64(b) % 0x1_0000_0000 == lo;
    BE32Onto(b[..4]);
    BE32Onto(b[4..]);
    assert b == b[..4] + b[4..];
  }

  /** Two nibbles sharing one byte: the first declared bitfield in the low half. */
  function PackNibbles(low: nibble, high: nibble): byte {
    low + 0x10 * high
  }

  // ---------------------------------------------------------------------------
  // uet_header_t: 16 bytes
  // ---------------------------------------------------------------------------

  datatype UetHeader = UetHeader(
    version: nibble,
    reserved: nibble,
    flags: byte,
    length: u16,
    flowId: u32,
    sequenceNum: u32,
    checksum: u16,
    urgentPtr: u16)

  const UET_HEADER_SIZE: nat := 16

  function EncodeUet(h: UetHeader): (b: seq<byte>)
    ensures |b| == UET_HEADER_SIZE
    ensures b[0] % 0x10 == h.version && b[0] / 0x10 == h.reserved && b[1] == h.flags
    ensures b[2..4] == BE16(h.length) && b[4..8] == BE32(h.flowId)
    ensures b[8..12] == BE32(h.sequenceNum)
    ensures b[12..14] == BE16(h.checksum) && b[14..16] == BE16(h.urgentPtr)
  {
    [PackNibbles(h.version, h.reserved), h.flags] + BE16(h.length) + BE32(h.flowId)
      + BE32(h.sequenceNum) + BE16(h.checksum) + BE16(h.urgentPtr)
  }

  /** Reads a UET header from the front of b; None when b is shorter than the header. */
  function DecodeUet(b: seq<byte>): (r: Option<UetHeader>)
    ensures r.None? <==> |b| < UET_HEADER_SIZE
  {
    if |b| < UET_HEADER_SIZE then None
    else Some(UetHeader(b[0] % 0x10, b[0] / 0x10, b[1], FromBE16(b[2..4]), FromBE32(b[4..8]),
                        FromBE32(b[8..12]), FromBE16(b[12..14]), FromBE16(b[14..16])))
  }

  lemma UetRoundTrip(h: UetHeader)
    ensures DecodeUet(EncodeUet(h)) == Some(h)
  {
    BE16RoundTrip(h.length);
    BE32RoundTrip(h.flowId);
    BE32RoundTrip(h.sequenceNum);
    BE16RoundTrip(h.checksum);
    BE16RoundTrip(h.urgentPtr);
  }

  /** Every 16-byte string is the encoding of exactly the header decoded from it. */
  lemma UetDecodeEncode(b: seq<byte>)
    requires |b| == UET_HEADER_SIZE
    ensures DecodeUet(b).Some? && EncodeUet(DecodeUet(b).value) == b
  {
    var e := EncodeUet(DecodeUet(b).value);
    BE16Onto(b[2..4]);
    BE32Onto(b[4..8]);
    BE32Onto(b[8..12]);
    BE16Onto(b[12..14]);
    BE16Onto(b[14..16]);
    assert e[2..4] == b[2..4] && e[4..8] == b[4..8] && e[8..12] == b[8..12];
    assert e[12..14] == b[12..14] && e[14..16] == b[14..16];
    assert forall i | 2 <= i < 16 :: e[i] == b[i] by {
      forall i | 2 <= i < 16 ensures e[i] == b[i] {
        if i < 4 { assert e[i] == e[2..4][i - 2]; }
        else if i < 8 { assert e[i] == e[4..8][i - 4]; }
        else if i < 12 { assert e[i] == e[8..12][i - 8]; }
        else if i < 14 { assert e[i] == e[12..14][i - 12]; }
        else { assert e[i] == e[14..16][i - 14]; }
      }
    }
  }

  // ---------------------------------------------------------------------------
  // pds_header_t: 12 bytes
  // ---------------------------------------------------------------------------

  datatype PdsHeader = PdsHeader(
    pdsType: byte,
    reliabilityMode: byte,
    connectionId: u16,
    ackNum: u32,
    windowSize: u16,
    options: u16)

  const PDS_HEADER_SIZE: nat := 12

  function EncodePds(h: PdsHeader): (b: seq<byte>)
    ensures |b| == PDS_HEADER_SIZE
    ensures b[0] == h.pdsType && b[1] == h.reliabilityMode
    ensures b[2..4] == BE16(h.connectionId) && b[4..8] == BE32(h.ackNum)
    ensures b[8..10] == BE16(h.windowSize) && b[10..12] == BE16(h.options)
  {
    [h.pdsType, h.reliabilityMode] + BE16(h.connectionId) + BE32(h.ackNum)
      + BE16(h.windowSize) + BE16(h.options)
  }

  function DecodePds(b: seq<byte>): (r: Option<PdsHeader>)
    ensures r.None? <==> |b| < PDS_HEADER_SIZE
  {
    if |b| < PDS_HEADER_SIZE then None
    else Some(PdsHeader(b[0], b[1], FromBE16(b[2..4]), FromBE32(b[4..8]),
                        FromBE16(b[8..10]), FromBE16(b[10..12])))
  }

  lemma PdsRoundTrip(h: PdsHeader)
    ensures DecodePds(EncodePds(h)) == Some(h)
  {
    BE16RoundTrip(h.connectionId);
    BE32RoundTrip(h.ackNum);
    BE16RoundTrip(h.windowSize);
    BE16RoundTrip(h.options);
  }

  lemma PdsDecodeEncode(b: seq<byte>)
    requires |b| == PDS_HEADER_SIZE
    ensures DecodePds(b).Some? && EncodePds(DecodePds(b).value) == b
  {
    var e := EncodePds(DecodePds(b).value);
    BE16Onto(b[2..4]);
    BE32Onto(b[4..8]);
    BE16Onto(b[8..10]);
    BE16Onto(b[10..12]);
    assert forall i | 2 <= i < 12 :: e[i] == b[i] by {
      forall i | 2 <= i < 12 ensures e[i] == b[i] {
        if i < 4 { assert e[i] == e[2..4][i - 2]; }
        else if i < 8 { assert e[i] == e[4..8][i - 4]; }
        else if i < 10 { assert e[i] == e[8..10][i - 8]; }
        else { assert e[i] == e[10..12][i - 10]; }
      }
    }
  }

  // ---------------------------------------------------------------------------
  // semantic_header_t: 20 bytes
  // ---------------------------------------------------------------------------

  datatype SemanticHeader = SemanticHeader(
    opCode: byte,
    msgType: byte,
    tag: u16,
    remoteAddr: u64,
    rkey: u32,
    length: u32)

  const SEMANTIC_HEADER_SIZE: nat := 20

  function EncodeSemantic(h: SemanticHeader): (b: seq<byte>)
    ensures |b| == SEMANTIC_HEADER_SIZE
    ensures b[0] == h.opCode && b[1] == h.msgType
    ensures b[2..4] == BE16(h.tag) && b[4..12] == BE64(h.remoteAddr)
    ensures b[12..16] == BE32(h.rkey) && b[16..20] == BE32(h.length)
  {
    [h.opCode, h.msgType] + BE16(h.tag) + BE64(h.remoteAddr) + BE32(h.rkey) + BE32(h.length)
  }

  function DecodeSemantic(b: seq<byte>): (r: Option<SemanticHeader>)
    ensures r.None? <==> |b| < SEMANTIC_HEADER_SIZE
  {
    if |b| < SEMANTIC_HEADER_SIZE then None
    else Some(SemanticHeader(b[0], b[1], FromBE16(b[2..4]), FromBE64(b[4..12]),
                             FromBE32(b[12..16]), FromBE32(b[16..20])))
  }

  lemma SemanticRoundTrip(h: SemanticHeader)
    ensures DecodeSemantic(EncodeSemantic(h)) == Some(h)
  {
    BE16RoundTrip(h.tag);
    BE64RoundTrip(h.remoteAddr);
    BE32RoundTrip(h.rkey);
    BE32RoundTrip(h.length);
  }

  lemma SemanticDecodeEncode(b: seq<byte>)
    requires |b| == SEMANTIC_HEADER_SIZE
    ensures DecodeSemantic(b).Some? && EncodeSemantic(DecodeSemantic(b).value) == b
  {
    var e := EncodeSemantic(DecodeSemantic(b).value);
    BE16Onto(b[2..4]);
    BE64Onto(b[4..12]);
    BE32Onto(b[12..16]);
    BE32Onto(b[16..20]);
    assert forall i | 2 <= i < 20 :: e[i] == b[i] by {
      forall i | 2 <= i < 20 ensures e[i] == b[i] {
        if i < 4 { assert e[i] == e[2..4][i - 2]; }
        else if i < 12 { assert e[i] == e[4..12][i - 4]; }
        else if i < 16 { assert e[i] == e[12..16][i - 12]; }
        else { assert e[i] == e[16..20][i - 16]; }
      }
    }
  }

  // ---------------------------------------------------------------------------
  // uet_packet_t: IPv4 header, UDP header, UET, PDS and semantic headers, payload
  // ---------------------------------------------------------------------------

  const IPV4_HEADER_SIZE: nat := 20
  const UDP_HEADER_SIZE: nat := 8
  const UET_OFFSET: nat := IPV4_HEADER_SIZE + UDP_HEADER_SIZE
  const PDS_OFFSET: nat := UET_OFFSET + UET_HEADER_SIZE
  const SEMANTIC_OFFSET: nat := PDS_OFFSET + PDS_HEADER_SIZE
  const PAYLOAD_OFFSET: nat := SEMANTIC_OFFSET + SEMANTIC_HEADER_SIZE

  /** The outer IPv4 and UDP headers are carried as their raw bytes. */
  datatype UetPacket = UetPacket(
    ipHeader: seq<byte>,
    udpHeader: seq<byte>,
    uet: UetHeader,
    pds: PdsHeader,
    semantic: SemanticHeader,
    payload: seq<byte>)
  {
    ghost predicate WellSized() {
      |ipHeader| == IPV4_HEADER_SIZE && |udpHeader| == UDP_HEADER_SIZE
    }
  }

  function EncodePacket(p: UetPacket): (b: seq<byte>)
    requires p.WellSized()
    ensures PAYLOAD_OFFSET == 76 && |b| == PAYLOAD_OFFSET + |p.payload|
    ensures b[..UET_OFFSET] == p.ipHeader + p.udpHeader
    ensures b[UET_OFFSET..PDS_OFFSET] == EncodeUet(p.uet)
    ensures b[PDS_OFFSET..SEMANTIC_OFFSET] == EncodePds(p.pds)
    ensures b[SEMANTIC_OFFSET..PAYLOAD_OFFSET] == EncodeSemantic(p.semantic)
    ensures b[PAYLOAD_OFFSET..] == p.payload
  {
    p.ipHeader + p.udpHeader + EncodeUet(p.uet) + EncodePds(p.pds)
      + EncodeSemantic(p.semantic) + p.payload
  }

  /** Splits a packet at the fixed offsets; None when it cannot hold every header. */
  function DecodePacket(b: seq<byte>): (r: Option<UetPacket>)
    ensures r.None? <==> |b| < PAYLOAD_OFFSET
    ensures r.Some? ==> r.value.WellSized() && r.value.payload == b[PAYLOAD_OFFSET..]
  {
    if |b| < PAYLOAD_OFFSET then None
    else
      var uet := DecodeUet(b[UET_OFFSET..PDS_OFFSET]).value;
      var pds := DecodePds(b[PDS_OFFSET..SEMANTIC_OFFSET]).value;
      var sem := DecodeSemantic(b[SEMANTIC_OFFSET..PAYLOAD_OFFSET]).value;
      Some(UetPacket(b[..IPV4_HEADER_SIZE], b[IPV4_HEADER_SIZE..UET_OFFSET], uet, pds, sem,
                     b[PAYLOAD_OFFSET..]))
  }

  lemma PacketRoundTrip(p: UetPacket)
    requires p.WellSized()
    ensures DecodePacket(EncodePacket(p)) == Some(p)
  {
    var b := EncodePacket(p);
    UetRoundTrip(p.uet);
    PdsRoundTrip(p.pds);
    SemanticRoundTrip(p.semantic);
    assert b[..IPV4_HEADER_SIZE] == b[..UET_OFFSET][..IPV4_HEADER_SIZE] == p.ipHeader;
    assert b[IPV4_HEADER_SIZE..UET_OFFSET] == b[..UET_OFFSET][IPV4_HEADER_SIZE..] == p.udpHeader;
  }

  lemma PacketDecodeEncode(b: seq<byte>)
    requires |b| >= PAYLOAD_OFFSET
    ensures DecodePacket(b).Some? && EncodePacket(DecodePacket(b).value) == b
  {
    var p := DecodePacket(b).value;
    var ip, udp := b[..IPV4_HEADER_SIZE], b[IPV4_HEADER_SIZE..UET_OFFSET];
    var u, d := b[UET_OFFSET..PDS_OFFSET], b[PDS_OFFSET..SEMANTIC_OFFSET];
    var s, pl := b[SEMANTIC_OFFSET..PAYLOAD_OFFSET], b[PAYLOAD_OFFSET..];
    UetDecodeEncode(u);
    PdsDecodeEncode(d);
    SemanticDecodeEncode(s);
    assert EncodeUet(p.uet) == u && EncodePds(p.pds) == d && EncodeSemantic(p.semantic) == s;
    assert EncodePacket(p) == ip + udp + u + d + s + pl;
    SplitSix(b, IPV4_HEADER_SIZE, UET_OFFSET, PDS_OFFSET, SEMANTIC_OFFSET, PAYLOAD_OFFSET);
  }

  /** A sequence is the concatenation of its pieces between five cut points. */
  lemma SplitSix(b: seq<byte>, c1: nat, c2: nat, c3: nat, c4: nat, c5: nat)
    requires c1 <= c2 <= c3 <= c4 <= c5 <= |b|
    ensures b == b[..c1] + b[c1..c2] + b[c2..c3] + b[c3..c4] + b[c4..c5] + b[c5..]
  {
    assert b[..c1] + b[c1..c2] == b[..c2];
    assert b[..c2] + b[c2..c3] == b[..c3];
    assert b[..c3] + b[c3..c4] == b[..c4];
    assert b[..c4] + b[c4..c5] == b[..c5];
    assert b[..c5] + b[c5..] == b;
  }

  // ---------------------------------------------------------------------------
  // uet_header_v2_t (ue_transport_v4v6.h): the IP version takes the reserved nibble
  // ---------------------------------------------------------------------------

  datatype UetHeaderV2 = UetHeaderV2(
    version: nibble,
    ipVersion: nibble,
    flags: byte,
    length: u16,
    flowId: u32,
    sequenceNum: u32,
    checksum: u16,
    urgentPtr: u16)

  function EncodeUetV2(h: UetHeaderV2): (b: seq<byte>)
    ensures |b| == UET_HEADER_SIZE
    ensures b[0] % 0x10 == h.version && b[0] / 0x10 == h.ipVersion && b[1] == h.flags
    ensures b[2..4] == BE16(h.length) && b[4..8] == BE32(h.flowId)
    ensures b[8..12] == BE32(h.sequenceNum)
    ensures b[12..14] == BE16(h.checksum) && b[14..16] == BE16(h.urgentPtr)
  {
    [PackNibbles(h.version, h.ipVersion), h.flags] + BE16(h.length) + BE32(h.flowId)
      + BE32(h.sequenceNum) + BE16(h.checksum) + BE16(h.urgentPtr)
  }

  function DecodeUetV2(b: seq<byte>): (r: Option<UetHeaderV2>)
    ensures r.None? <==> |b| < UET_HEADER_SIZE
  {
    if |b| < UET_HEADER_SIZE then None
    else Some(UetHeaderV2(b[0] % 0x10, b[0] / 0x10, b[1], FromBE16(b[2..4]), FromBE32(b[4..8]),
                          FromBE32(b[8..12]), FromBE16(b[12..14]), FromBE16(b[14..16])))
  }

  lemma UetV2RoundTrip(h: UetHeaderV2)
    ensures DecodeUetV2(EncodeUetV2(h)) == Some(h)
  {
    BE16RoundTrip(h.length);
    BE32RoundTrip(h.flowId);
    BE32RoundTrip(h.sequenceNum);
    BE16RoundTrip(h.checksum);
    BE16RoundTrip(h.urgentPtr);
  }

  /** The v2 header occupies the same 16 bytes as uet_header_t, its IP version
      where the older header keeps its reserved nibble. */
  lemma UetV2SharesLayout(h: UetHeaderV2)
    ensures EncodeUetV2(h) == EncodeUet(UetHeader(h.version, h.ipVersion, h.flags, h.length,
                                                  h.flowId, h.sequenceNum, h.checksum, h.urgentPtr))
  {
  }
}
