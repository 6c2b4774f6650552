// Wire formats of the AID packet, the RID packet and the Ethernet frame around them
// (src/common/packets.py, src/common/serializer.py, src/common/ethernet.py).

module Packets {
  import opened Wrappers
  import opened Numbers
  import opened Addressing
  import opened ByteStrings

  const AID_HEADER_BYTES := 40
  const RID_HEADER_BYTES := 24
  const DEFAULT_TTL: Byte := 64
  const MAX_PAYLOAD := 65535  // the length field has 16 bits

  const ETHERTYPE_AID: U16 := 0x1111
  const ETHERTYPE_RID: U16 := 0x2222

  type U16 = x: int | 0 <= x < 0x1_0000
  type Mac = m: Bytes | |m| == 6 witness [0, 0, 0, 0, 0, 0]

  datatype DataType = UserData | ControlSignaling
  {
    function Code(): Byte {
      if UserData? then 0 else 1
    }
  }

  // What deserialisation raises.
  datatype WireError = TooShort | BadVersion | BadIdType | BadDataType

  // ------------------------------------------------------------------- packet values

  datatype AidPdu = AidPdu(src: AID, dst: AID, payload: Bytes, qos: Byte, dataType: DataType, ttl: Byte)

  datatype RidPdu = RidPdu(src: RID, dst: RID, payload: Bytes, qos: Byte, spaceId: U16,
                           dataType: DataType, ttl: Byte)

  datatype EthernetFrame = EthernetFrame(dstMac: Mac, srcMac: Mac, etherType: U16, payload: Bytes)

  // -------------------------------------------------------------------- header layout

  /** Both headers have the same seven parts: version and QoS, a 16-bit field, the payload
      length, data type and TTL, source, destination; the payload follows. */
  function Layout(a: Bytes, b: Bytes, c: Bytes, d: Bytes, e: Bytes, f: Bytes, g: Bytes): (s: Bytes)
    ensures |s| == |a| + |b| + |c| + |d| + |e| + |f| + |g|
  {
    a + (b + (c + (d + (e + (f + g)))))
  }

  lemma PartsOfLayout(a: Bytes, b: Bytes, c: Bytes, d: Bytes, e: Bytes, f: Bytes, g: Bytes)
    requires |a| == |b| == |c| == |d| == 2
    ensures var s, n := Layout(a, b, c, d, e, f, g), 8 + |e|;
            && s[..2] == a && s[2..4] == b && s[4..6] == c && s[6..8] == d
            && s[8..n] == e && s[n..n + |f|] == f && s[n + |f|..] == g
  {
    var s, n := Layout(a, b, c, d, e, f, g), 8 + |e|;
    assert s[2..] == b + (c + (d + (e + (f + g))));
    assert s[4..] == s[2..][2..] == c + (d + (e + (f + g)));
    assert s[6..] == s[4..][2..] == d + (e + (f + g));
    assert s[8..] == s[6..][2..] == e + (f + g);
    assert s[n..] == s[8..][|e|..] == f + g;
    assert s[n + |f|..] == s[n..][|f|..] == g;
    assert s[2..4] == s[2..][..2] && s[4..6] == s[4..][..2] && s[6..8] == s[6..][..2];
    assert s[8..n] == s[8..][..|e|] && s[n..n + |f|] == s[n..][..|f|];
  }

  lemma LayoutOfParts(s: Bytes, m: nat, n: nat)
    requires 8 <= m <= n <= |s|
    ensures s == Layout(s[..2], s[2..4], s[4..6], s[6..8], s[8..m], s[m..n], s[n..])
  {
    assert s[m..] == s[m..n] + s[n..];
    assert s[8..] == s[8..m] + s[m..];
    assert s[6..] == s[6..8] + s[8..];
    assert s[4..] == s[4..6] + s[6..];
    assert s[2..] == s[2..4] + s[4..];
  }

  lemma LayoutThenPadding(a: Bytes, b: Bytes, c: Bytes, d: Bytes, e: Bytes, f: Bytes, g: Bytes, padding: Bytes)
    ensures Layout(a, b, c, d, e, f, g) + padding == Layout(a, b, c, d, e, f, g + padding)
  {}

  // ------------------------------------------------------------------------ AID codec

  // None is the `struct.error` of a payload longer than the length field can say.
  function AidSerialize(p: AidPdu): (r: Option<Bytes>)
    ensures r.Some? <==> |p.payload| <= MAX_PAYLOAD
    ensures r.Some? ==> |r.value| == AID_HEADER_BYTES + |p.payload|
  {
    if |p.payload| > MAX_PAYLOAD then None
    else Some(Layout([0x18, p.qos], ToBE(0, 2), ToBE(|p.payload|, 2), [p.dataType.Code(), p.ttl],
                     ToBE(p.src.value, 16), ToBE(p.dst.value, 16), p.payload))
  }

  function Clip(s: Bytes, from: nat, count: nat): Bytes
    requires from <= |s|
  {
    if from + count <= |s| then s[from..from + count] else s[from..]
  }

  function AidDeserialize(data: Bytes): (r: Result<AidPdu, WireError>)
    ensures r.Ok? ==> |r.value.payload| <= MAX_PAYLOAD
  {
    if |data| < AID_HEADER_BYTES then Err(TooShort)
    else if data[0] / 16 != 1 then Err(BadVersion)
    else if data[0] % 16 != 8 then Err(BadIdType)
    else if data[6] > 1 then Err(BadDataType)
    else
      ToFromBE(data[4..6]); ToFromBE(data[8..24]); ToFromBE(data[24..40]); PowersOf256();
      Ok(AidPdu(
        AID(FromBE(data[8..24])), AID(FromBE(data[24..40])),
        Clip(data, AID_HEADER_BYTES, FromBE(data[4..6])),
        data[1], if data[6] == 0 then UserData else ControlSignaling, data[7]))
  }

  // ------------------------------------------------------------------------ RID codec

  function RidSerialize(p: RidPdu): (r: Option<Bytes>)
    ensures r.Some? <==> |p.payload| <= MAX_PAYLOAD
    ensures r.Some? ==> |r.value| == RID_HEADER_BYTES + |p.payload|
  {
    if |p.payload| > MAX_PAYLOAD then None
    else Some(Layout([0x14, p.qos], ToBE(p.spaceId, 2), ToBE(|p.payload|, 2), [p.dataType.Code(), p.ttl],
                     ToBE(p.src.AsInt(), 8), ToBE(p.dst.AsInt(), 8), p.payload))
  }

  function RidDeserialize(data: Bytes): (r: Result<RidPdu, WireError>)
    ensures r.Ok? ==> |r.value.payload| <= MAX_PAYLOAD
  {
    if |data| < RID_HEADER_BYTES then Err(TooShort)
    else if data[0] / 16 != 1 then Err(BadVersion)
    else if data[0] % 16 != 4 then Err(BadIdType)
    else if data[6] > 1 then Err(BadDataType)
    else
      ToFromBE(data[2..4]); ToFromBE(data[4..6]); ToFromBE(data[8..16]); ToFromBE(data[16..24]); PowersOf256();
      Ok(RidPdu(
        RID.FromInt(FromBE(data[8..16])), RID.FromInt(FromBE(data[16..24])),
        Clip(data, RID_HEADER_BYTES, FromBE(data[4..6])),
        data[1], FromBE(data[2..4]),
        if data[6] == 0 then UserData else ControlSignaling, data[7]))
  }

  // ------------------------------------------------------------------- Ethernet codec

  function EthSerialize(f: EthernetFrame): Bytes {
    f.dstMac + f.srcMac + ToBE(f.etherType, 2) + f.payload
  }

  function EthDeserialize(data: Bytes): (r: Result<EthernetFrame, WireError>) {
    if |data| < 14 then Err(TooShort)
    else
      ToFromBE(data[12..14]); PowersOf256();
      Ok(EthernetFrame(data[..6], data[6..12], FromBE(data[12..14]), data[14..]))
  }

  // ---------------------------------------------------------------------- round trips

  /** A serialised AID packet decodes to itself, whatever bytes follow it. */
  lemma AidRoundTrip(p: AidPdu, padding: Bytes)
    requires |p.payload| <= MAX_PAYLOAD
    ensures AidDeserialize(AidSerialize(p).value + padding) == Ok(p)
  {
    var head, code := [0x18, p.qos], [p.dataType.Code(), p.ttl];
    var length, src, dst := ToBE(|p.payload|, 2), ToBE(p.src.value, 16), ToBE(p.dst.value, 16);
    LayoutThenPadding(head, ToBE(0, 2), length, code, src, dst, p.payload, padding);
    PartsOfLayout(head, ToBE(0, 2), length, code, src, dst, p.payload + padding);
    AidFieldsRead(p, AidSerialize(p).value + padding, padding);
  }

  lemma HeaderBytesRead(d: Bytes, from: nat, payload: Bytes, padding: Bytes)
    requires 8 <= from <= |d| && d[from..] == payload + padding
    ensures d[0] == d[..2][0] && d[1] == d[..2][1] && d[6] == d[6..8][0] && d[7] == d[6..8][1]
    ensures Clip(d, from, |payload|) == payload
  {
    assert d[from..from + |payload|] == d[from..][..|payload|];
  }

  lemma AidFieldsRead(p: AidPdu, d: Bytes, padding: Bytes)
    requires |p.payload| <= MAX_PAYLOAD && |d| >= AID_HEADER_BYTES
    requires d[..2] == [0x18, p.qos] && d[4..6] == ToBE(|p.payload|, 2) && d[6..8] == [p.dataType.Code(), p.ttl]
    requires d[8..24] == ToBE(p.src.value, 16) && d[24..40] == ToBE(p.dst.value, 16)
    requires d[40..] == p.payload + padding
    ensures AidDeserialize(d) == Ok(p)
  {
    NumberRead(|p.payload|, d[4..6]);
    PowersOf256();
    NumberRead(p.src.value, d[8..24]);
    NumberRead(p.dst.value, d[24..40]);
    HeaderBytesRead(d, 40, p.payload, padding);
  }

  /** An accepted AID buffer serialises back to itself, up to its two reserved bytes,
      exactly when it has the length it declares. */
  lemma AidReserialises(data: Bytes)
    requires AidDeserialize(data).Ok?
    ensures AidSerialize(AidDeserialize(data).value) == Some(data[..2] + [0, 0] + data[4..])
        <==> |data| == AID_HEADER_BYTES + FromBE(data[4..6])
  {
    var p := AidDeserialize(data).value;
    var s := AidSerialize(p).value;
    if |data| == AID_HEADER_BYTES + FromBE(data[4..6]) {
      AidHeaderComesBack(data, p);
    } else {
      AidLengthField(p);
      assert (data[..2] + [0, 0] + data[4..])[4..6] == data[4..6];
    }
  }

  lemma AidLengthField(p: AidPdu)
    requires |p.payload| <= MAX_PAYLOAD
    ensures FromBE(AidSerialize(p).value[4..6]) == |p.payload|
  {
    PowersOf256();
    FromToBE(|p.payload|, 2);
    PartsOfLayout([0x18, p.qos], ToBE(0, 2), ToBE(|p.payload|, 2), [p.dataType.Code(), p.ttl],
                  ToBE(p.src.value, 16), ToBE(p.dst.value, 16), p.payload);
  }

  lemma AidHeaderComesBack(data: Bytes, p: AidPdu)
    requires AidDeserialize(data) == Ok(p)
    requires |data| == AID_HEADER_BYTES + FromBE(data[4..6])
    ensures AidSerialize(p) == Some(data[..2] + [0, 0] + data[4..])
  {
    var zeroed := data[..2] + [0, 0] + data[4..];
    ZeroedParts(data);
    AidFieldsComeBack(data, p);
    LayoutOfParts(zeroed, 24, 40);
  }

  lemma AidFieldsComeBack(data: Bytes, p: AidPdu)
    requires AidDeserialize(data) == Ok(p)
    requires |data| == AID_HEADER_BYTES + FromBE(data[4..6])
    ensures data[..2] == [0x18, p.qos] && ToBE(0, 2) == [0, 0] && data[4..6] == ToBE(|p.payload|, 2)
    ensures data[6..8] == [p.dataType.Code(), p.ttl] && data[40..] == p.payload
    ensures data[8..24] == ToBE(p.src.value, 16) && data[24..40] == ToBE(p.dst.value, 16)
  {
    AidHeadComesBack(data, p);
    ToFromBE(data[8..24]);
    ToFromBE(data[24..40]);
  }

  lemma AidHeadComesBack(data: Bytes, p: AidPdu)
    requires AidDeserialize(data) == Ok(p)
    requires |data| == AID_HEADER_BYTES + FromBE(data[4..6])
    ensures data[..2] == [0x18, p.qos] && ToBE(0, 2) == [0, 0] && data[4..6] == ToBE(|p.payload|, 2)
    ensures data[6..8] == [p.dataType.Code(), p.ttl] && data[40..] == p.payload
  {
    ToFromBE(data[4..6]);
    assert ToBE(0, 1) == [0];
  }

  lemma ZeroedParts(data: Bytes)
    requires |data| >= AID_HEADER_BYTES
    ensures var z := data[..2] + [0, 0] + data[4..];
            && |z| == |data| && z[..2] == data[..2] && z[2..4] == [0, 0] && z[4..6] == data[4..6]
            && z[6..8] == data[6..8] && z[8..24] == data[8..24] && z[24..40] == data[24..40] && z[40..] == data[40..]
  {}

  lemma RidRoundTrip(p: RidPdu, padding: Bytes)
    requires |p.payload| <= MAX_PAYLOAD
    ensures RidDeserialize(RidSerialize(p).value + padding) == Ok(p)
  {
    var head, code := [0x14, p.qos], [p.dataType.Code(), p.ttl];
    var space, length := ToBE(p.spaceId, 2), ToBE(|p.payload|, 2);
    var src, dst := ToBE(p.src.AsInt(), 8), ToBE(p.dst.AsInt(), 8);
    LayoutThenPadding(head, space, length, code, src, dst, p.payload, padding);
    PartsOfLayout(head, space, length, code, src, dst, p.payload + padding);
    RidFieldsRead(p, RidSerialize(p).value + padding, padding);
  }

  lemma RidFieldsRead(p: RidPdu, d: Bytes, padding: Bytes)
    requires |p.payload| <= MAX_PAYLOAD && |d| >= RID_HEADER_BYTES
    requires d[..2] == [0x14, p.qos] && d[2..4] == ToBE(p.spaceId, 2)
    requires d[4..6] == ToBE(|p.payload|, 2) && d[6..8] == [p.dataType.Code(), p.ttl]
    requires d[8..16] == ToBE(p.src.AsInt(), 8) && d[16..24] == ToBE(p.dst.AsInt(), 8)
    requires d[24..] == p.payload + padding
    ensures RidDeserialize(d) == Ok(p)
  {
    NumberRead(p.spaceId, d[2..4]);
    NumberRead(|p.payload|, d[4..6]);
    RidRead(p.src, d[8..16]);
    RidRead(p.dst, d[16..24]);
    HeaderBytesRead(d, 24, p.payload, padding);
  }

  lemma NumberRead(v: nat, s: Bytes)
    requires s == ToBE(v, |s|) && v < Power(256, |s|)
    ensures FromBE(s) == v
  {
    FromToBE(v, |s|);
  }

  lemma RidRead(r: RID, s: Bytes)
    requires |s| == 8 && s == ToBE(r.AsInt(), 8)
    ensures FromBE(s) < 0x1_0000_0000_0000_0000 && RID.FromInt(FromBE(s)) == r
  {
    PowersOf256();
    FromToBE(r.AsInt(), 8);
  }

  lemma AsIntFromInt(v: U64)
    ensures RID.FromInt(v).AsInt() == v
  {}

  /** An accepted RID buffer serialises back to itself exactly when it has the declared length. */
  lemma RidReserialises(data: Bytes)
    requires RidDeserialize(data).Ok?
    ensures RidSerialize(RidDeserialize(data).value) == Some(data)
        <==> |data| == RID_HEADER_BYTES + FromBE(data[4..6])
  {
    var p := RidDeserialize(data).value;
    if |data| == RID_HEADER_BYTES + FromBE(data[4..6]) {
      RidHeaderComesBack(data, p);
    } else {
      RidLengthField(p);
    }
  }

  lemma RidLengthField(p: RidPdu)
    requires |p.payload| <= MAX_PAYLOAD
    ensures FromBE(RidSerialize(p).value[4..6]) == |p.payload|
  {
    PowersOf256();
    FromToBE(|p.payload|, 2);
    PartsOfLayout([0x14, p.qos], ToBE(p.spaceId, 2), ToBE(|p.payload|, 2), [p.dataType.Code(), p.ttl],
                  ToBE(p.src.AsInt(), 8), ToBE(p.dst.AsInt(), 8), p.payload);
  }

  lemma RidHeaderComesBack(data: Bytes, p: RidPdu)
    requires RidDeserialize(data) == Ok(p)
    requires |data| == RID_HEADER_BYTES + FromBE(data[4..6])
    ensures RidSerialize(p) == Some(data)
  {
    RidFieldsComeBack(data, p);
    LayoutOfParts(data, 16, 24);
  }

  lemma RidFieldsComeBack(data: Bytes, p: RidPdu)
    requires RidDeserialize(data) == Ok(p)
    requires |data| == RID_HEADER_BYTES + FromBE(data[4..6])
    ensures data[..2] == [0x14, p.qos] && data[6..8] == [p.dataType.Code(), p.ttl] && data[24..] == p.payload
    ensures data[2..4] == ToBE(p.spaceId, 2) && data[4..6] == ToBE(|p.payload|, 2)
    ensures data[8..16] == ToBE(p.src.AsInt(), 8) && data[16..24] == ToBE(p.dst.AsInt(), 8)
  {
    RidNumbersComeBack(data, p);
    RidComesBack(data[8..16]);
    RidComesBack(data[16..24]);
  }

  lemma RidNumbersComeBack(data: Bytes, p: RidPdu)
    requires RidDeserialize(data) == Ok(p)
    requires |data| == RID_HEADER_BYTES + FromBE(data[4..6])
    ensures data[..2] == [0x14, p.qos] && data[6..8] == [p.dataType.Code(), p.ttl] && data[24..] == p.payload
    ensures data[2..4] == ToBE(p.spaceId, 2) && data[4..6] == ToBE(|p.payload|, 2)
  {
    ToFromBE(data[2..4]);
    ToFromBE(data[4..6]);
  }

  lemma RidComesBack(s: Bytes)
    requires |s| == 8
    ensures FromBE(s) < 0x1_0000_0000_0000_0000 && ToBE(RID.FromInt(FromBE(s)).AsInt(), 8) == s
  {
    ToFromBE(s);
    PowersOf256();
    AsIntFromInt(FromBE(s));
  }

  lemma EthRoundTrip(f: EthernetFrame, padding: Bytes)
    ensures EthDeserialize(EthSerialize(f) + padding) == Ok(f.(payload := f.payload + padding))
  {
    var d := EthSerialize(f) + padding;
    PowersOf256();
    FromToBE(f.etherType, 2);
    assert d[..6] == f.dstMac;
    assert d[6..12] == f.srcMac;
    assert d[12..14] == ToBE(f.etherType, 2);
    assert d[14..] == f.payload + padding;
  }

  // ---------------------------------------------------------------- the bytes themselves

  /** The bytes of an AID packet, field by field. */
  lemma AidWireFormat(p: AidPdu)
    requires |p.payload| <= 65535
    ensures var d := AidSerialize(p).value;
            && |d| == 40 + |p.payload| && d[..2] == [0x18, p.qos] && d[2..4] == [0, 0]
            && IsBigEndian(d[4..6], |p.payload|) && d[6..8] == [if p.dataType.UserData? then 0 else 1, p.ttl]
            && IsBigEndian(d[8..24], p.src.value) && IsBigEndian(d[24..40], p.dst.value) && d[40..] == p.payload
  {
    PartsOfLayout([0x18, p.qos], ToBE(0, 2), ToBE(|p.payload|, 2), [p.dataType.Code(), p.ttl],
                  ToBE(p.src.value, 16), ToBE(p.dst.value, 16), p.payload);
    ToBEIsBigEndian(|p.payload|, 2);
    ToBEIsBigEndian(p.src.value, 16);
    ToBEIsBigEndian(p.dst.value, 16);
    TwoBytes(0);
  }

  /** The bytes of a RID packet. */
  lemma RidWireFormat(p: RidPdu)
    requires |p.payload| <= 65535
    ensures var d := RidSerialize(p).value;
            && |d| == 24 + |p.payload| && d[..2] == [0x14, p.qos] && IsBigEndian(d[2..4], p.spaceId)
            && IsBigEndian(d[4..6], |p.payload|) && d[6..8] == [if p.dataType.UserData? then 0 else 1, p.ttl]
            && IsBigEndian(d[8..16], 0x1_0000_0000 * p.src.x + p.src.y)
            && IsBigEndian(d[16..24], 0x1_0000_0000 * p.dst.x + p.dst.y) && d[24..] == p.payload
  {
    PartsOfLayout([0x14, p.qos], ToBE(p.spaceId, 2), ToBE(|p.payload|, 2), [p.dataType.Code(), p.ttl],
                  ToBE(p.src.AsInt(), 8), ToBE(p.dst.AsInt(), 8), p.payload);
    ToBEIsBigEndian(p.spaceId, 2);
    ToBEIsBigEndian(|p.payload|, 2);
    ToBEIsBigEndian(p.src.AsInt(), 8);
    ToBEIsBigEndian(p.dst.AsInt(), 8);
  }

  /** A frame: the two MACs, two bytes of type, the payload. 0x1111 and 0x2222 are the types of AID and
      RID packets. */
  lemma EthWireFormat(f: EthernetFrame)
    ensures var d := EthSerialize(f);
            && |d| == 14 + |f.payload| && d[..6] == f.dstMac && d[6..12] == f.srcMac
            && d[12] == f.etherType / 256 && d[13] == f.etherType % 256 && d[14..] == f.payload
    ensures ETHERTYPE_AID == 0x1111 && ETHERTYPE_RID == 0x2222
  {
    TwoBytes(f.etherType);
  }

  /** Every buffer of at least 14 bytes is a frame, and serialises back to itself. */
  lemma EthReserialises(data: Bytes)
    ensures EthDeserialize(data).Ok? <==> |data| >= 14
    ensures EthDeserialize(data).Ok? ==> EthSerialize(EthDeserialize(data).value) == data
  {
    if |data| >= 14 {
      ToFromBE(data[12..14]);
    }
  }

  // The body of a packet whose header has `from` bytes, two of them for the length.
  function Body(data: Bytes, from: nat): Bytes
    requires 6 <= from <= |data|
  {
    var length: nat := data[4] as int * 256 + data[5];
    data[from..if from + length <= |data| then from + length else |data|]
  }

  lemma BodyIsClipped(data: Bytes, from: nat)
    requires 6 <= from <= |data|
    ensures Clip(data, from, FromBE(data[4..6])) == Body(data, from)
  {
    var s := data[4..6];
    assert s[..1] == [data[4]] && s[..1][..0] == [];
    assert FromBE(s[..1]) == data[4];
  }

  lemma FieldIsRead(s: Bytes)
    ensures IsBigEndian(s, FromBE(s))
  {
    ToFromBE(s);
    ToBEIsBigEndian(FromBE(s), |s|);
  }

  lemma RidIsRead(s: Bytes)
    requires |s| == 8
    ensures FromBE(s) < 0x1_0000_0000_0000_0000
    ensures var r := RID.FromInt(FromBE(s)); IsBigEndian(s, 0x1_0000_0000 * r.x + r.y)
  {
    RidComesBack(s);
    ToBEIsBigEndian(RID.FromInt(FromBE(s)).AsInt(), 8);
  }

  /** What is accepted as an AID packet, and how its fields are read; else, the first test that fails. */
  lemma AidAccepted(data: Bytes)
    ensures AidDeserialize(data).Ok? <==> |data| >= 40 && data[0] == 0x18 && data[6] <= 1
    ensures AidDeserialize(data).Ok? ==>
              var p := AidDeserialize(data).value;
              && p.qos == data[1] && p.ttl == data[7] && (p.dataType == UserData <==> data[6] == 0)
              && IsBigEndian(data[8..24], p.src.value) && IsBigEndian(data[24..40], p.dst.value)
              && p.payload == Body(data, 40)
    ensures AidDeserialize(data).Err? ==>
              AidDeserialize(data).error == if |data| < 40 then TooShort
                                            else if data[0] / 16 != 1 then BadVersion
                                            else if data[0] % 16 != 8 then BadIdType
                                            else BadDataType
  {
    if AidDeserialize(data).Ok? {
      FieldIsRead(data[8..24]);
      FieldIsRead(data[24..40]);
      BodyIsClipped(data, 40);
    }
  }

  /** And as a RID packet. */
  lemma RidAccepted(data: Bytes)
    ensures RidDeserialize(data).Ok? <==> |data| >= 24 && data[0] == 0x14 && data[6] <= 1
    ensures RidDeserialize(data).Ok? ==>
              var p := RidDeserialize(data).value;
              && p.qos == data[1] && p.ttl == data[7] && (p.dataType == UserData <==> data[6] == 0)
              && IsBigEndian(data[2..4], p.spaceId) && p.payload == Body(data, 24)
              && IsBigEndian(data[8..16], 0x1_0000_0000 * p.src.x + p.src.y)
              && IsBigEndian(data[16..24], 0x1_0000_0000 * p.dst.x + p.dst.y)
    ensures RidDeserialize(data).Err? ==>
              RidDeserialize(data).error == if |data| < 24 then TooShort
                                            else if data[0] / 16 != 1 then BadVersion
                                            else if data[0] % 16 != 4 then BadIdType
                                            else BadDataType
  {
    if RidDeserialize(data).Ok? {
      FieldIsRead(data[2..4]);
      RidIsRead(data[8..16]);
      RidIsRead(data[16..24]);
      BodyIsClipped(data, 24);
    }
  }

  // ------------------------------------------------------------------- encapsulation

  /** The RID packet a router builds around an AID packet, if the AID packet serialises. */
  function Encapsulate(inner: AidPdu, src: RID, dst: RID, spaceId: U16): (r: Option<RidPdu>) {
    match AidSerialize(inner)
    case None => None
    case Some(bytes) => Some(RidPdu(src, dst, bytes, 0, spaceId, inner.dataType, DEFAULT_TTL))
  }

  function RidFrameBytes(p: RidPdu, dstMac: Mac, srcMac: Mac): (r: Option<Bytes>) {
    match RidSerialize(p)
    case None => None
    case Some(bytes) => Some(EthSerialize(EthernetFrame(dstMac, srcMac, ETHERTYPE_RID, bytes)))
  }

  // What a receiver reads out of a frame: `frame.inner_rid()`, then the packet inside it.
  function ReadRidFrame(data: Bytes): (r: Result<(EthernetFrame, RidPdu, AidPdu), WireError>) {
    match EthDeserialize(data)
    case Err(e) => Err(e)
    case Ok(f) =>
      match RidDeserialize(f.payload)
      case Err(e) => Err(e)
      case Ok(outer) =>
        match AidDeserialize(outer.payload)
        case Err(e) => Err(e)
        case Ok(inner) => Ok((f, outer, inner))
  }

  /** An AID packet can be put on the wire inside a RID packet exactly when its payload has
      at most 65495 bytes; the receiver then reads the same three layers, whatever padding
      the link appended. */
  lemma ThreeLayerRoundTrip(inner: AidPdu, src: RID, dst: RID, spaceId: U16,
                            dstMac: Mac, srcMac: Mac, padding: Bytes)
    ensures var outer := Encapsulate(inner, src, dst, spaceId);
            ((outer.Some? && RidFrameBytes(outer.value, dstMac, srcMac).Some?)
             <==> |inner.payload| <= MAX_PAYLOAD - AID_HEADER_BYTES)
            && (|inner.payload| <= MAX_PAYLOAD - AID_HEADER_BYTES ==>
                  var r := ReadRidFrame(RidFrameBytes(outer.value, dstMac, srcMac).value + padding);
                  r.Ok? && r.value.0.dstMac == dstMac && r.value.0.srcMac == srcMac
                  && r.value.0.etherType == ETHERTYPE_RID
                  && r.value.1 == outer.value && r.value.2 == inner)
  {
    if |inner.payload| <= MAX_PAYLOAD - AID_HEADER_BYTES {
      var outer := Encapsulate(inner, src, dst, spaceId).value;
      var f := EthernetFrame(dstMac, srcMac, ETHERTYPE_RID, RidSerialize(outer).value);
      EthRoundTrip(f, padding);
      RidRoundTrip(outer, padding);
      AidRoundTrip(inner, []);
      assert outer.payload + [] == outer.payload;
    }
  }

  // --------------------------------------------------------- packets as nodes hold them

  function Decremented(ttl: Byte): Option<Byte> {
    if ttl <= 1 then None else Some(ttl - 1)
  }

  // A packet one node further on.

  function AgedAid(p: AidPdu): AidPdu
    requires p.ttl >= 2
  {
    p.(ttl := p.ttl - 1)
  }

  function AgedRid(p: RidPdu): RidPdu
    requires p.ttl >= 2
  {
    p.(ttl := p.ttl - 1)
  }

  class AIDPacket {
    var srcAid: AID
    var dstAid: AID
    var payload: Bytes
    var qosClass: Byte
    var dataType: DataType
    var ttl: Byte

    constructor (p: AidPdu)
      ensures View() == p
    {
      srcAid, dstAid, payload, qosClass, dataType, ttl := p.src, p.dst, p.payload, p.qos, p.dataType, p.ttl;
    }

    function View(): AidPdu
      reads this
    {
      AidPdu(srcAid, dstAid, payload, qosClass, dataType, ttl)
    }

    method DecrementTtl() returns (alive: bool)
      modifies this`ttl
      ensures alive <==> Decremented(old(ttl)).Some?
      ensures alive <==> old(ttl) >= 2
      ensures View() == if alive then old(View()).(ttl := old(ttl) - 1) else old(View())
    {
      if ttl <= 1 {
        return false;
      }
      ttl := ttl - 1;
      return true;
    }
  }

  class RIDPacket {
    var srcRid: RID
    var dstRid: RID
    var payload: Bytes
    var qosClass: Byte
    var spaceId: U16
    var dataType: DataType
    var ttl: Byte

    constructor (p: RidPdu)
      ensures View() == p
    {
      srcRid, dstRid, payload, qosClass, spaceId, dataType, ttl :=
        p.src, p.dst, p.payload, p.qos, p.spaceId, p.dataType, p.ttl;
    }

    function View(): RidPdu
      reads this
    {
      RidPdu(srcRid, dstRid, payload, qosClass, spaceId, dataType, ttl)
    }

    method DecrementTtl() returns (alive: bool)
      modifies this`ttl
      ensures alive <==> Decremented(old(ttl)).Some?
      ensures alive <==> old(ttl) >= 2
      ensures View() == if alive then old(View()).(ttl := old(ttl) - 1) else old(View())
    {
      if ttl <= 1 {
        return false;
      }
      ttl := ttl - 1;
      return true;
    }
  }
}
