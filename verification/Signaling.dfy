// Control messages and their JSON form (src/control_plane/signaling.py). The text layer,
// json.dumps and json.loads, is a parameter; everything above it is modelled.

module Signaling {
  import opened Wrappers
  import opened Numbers
  import opened Addressing
  import opened ByteStrings

  // A float by its 64 bits (binary64 of IEEE 754). NaN is not among them: it equals nothing,
  // itself included.
  type FloatBits = b: U64 | b / 0x10_0000_0000_0000 % 2048 == 2047 ==> b % 0x10_0000_0000_0000 == 0

  // Keys of JSON objects are strings. Those that are field names of the messages have a constructor
  // each; Named holds any other string.
  datatype Key =
    | KType | KAction | KAid | KApAid | KApRid | KCustomAttributes | KDestRidSpace | KFound
    | KIpAddress | KMacAddress | KMappedRid | KMessage | KNewCrRid | KNewMappedRid | KNewRid
    | KNextHopRid | KOldRid | KPassword | KReason | KRemoteCrRid | KRequesterRid | KSpaceId
    | KSuccess | KUserAid | KUsername | Named(name: OtherName)

  type OtherName = s: string | s !in FIELD_NAMES witness ""

  const FIELD_NAMES: set<string> := {
    "type", "action", "aid", "ap_aid", "ap_rid", "custom_attributes", "dest_rid_space", "found",
    "ip_address", "mac_address", "mapped_rid", "message", "new_cr_rid", "new_mapped_rid",
    "new_rid", "next_hop_rid", "old_rid", "password", "reason", "remote_cr_rid", "requester_rid",
    "space_id", "success", "user_aid", "username"
  }

  function KeyText(k: Key): string {
    match k
    case KType => "type"
    case KAction => "action"
    case KAid => "aid"
    case KApAid => "ap_aid"
    case KApRid => "ap_rid"
    case KCustomAttributes => "custom_attributes"
    case KDestRidSpace => "dest_rid_space"
    case KFound => "found"
    case KIpAddress => "ip_address"
    case KMacAddress => "mac_address"
    case KMappedRid => "mapped_rid"
    case KMessage => "message"
    case KNewCrRid => "new_cr_rid"
    case KNewMappedRid => "new_mapped_rid"
    case KNewRid => "new_rid"
    case KNextHopRid => "next_hop_rid"
    case KOldRid => "old_rid"
    case KPassword => "password"
    case KReason => "reason"
    case KRemoteCrRid => "remote_cr_rid"
    case KRequesterRid => "requester_rid"
    case KSpaceId => "space_id"
    case KSuccess => "success"
    case KUserAid => "user_aid"
    case KUsername => "username"
    case Named(s) => s
  }

  /** Different keys are different strings. */
  lemma KeyTextIsInjective(a: Key, b: Key)
    requires KeyText(a) == KeyText(b)
    ensures a == b
  {
    assert a.Named? || KeyText(a) in FIELD_NAMES;
    assert b.Named? || KeyText(b) in FIELD_NAMES;
  }

  datatype Json =
    | JNull
    | JBool(b: bool)
    | JInt(i: int)
    | JFloat(bits: FloatBits)
    | JStr(s: string)
    | JArr(items: seq<Json>)
    | JObj(fields: map<Key, Json>)

  datatype TextCodec = TextCodec(dumps: Json -> Bytes, loads: Bytes -> Option<Json>)
  {
    /** The text of this JSON value parses back to it. */
    predicate Keeps(j: Json) {
      loads(dumps(j)) == Some(j)
    }
  }

  datatype Signal =
    | AuthRequest(username: string, password: string, userAid: AID, ipAddress: string, macAddress: string)
    | AuthResponse(success: bool, userAid: AID, message: string, customAttributes: map<Key, Json>)
    | MappingRegisterRequest(aid: AID, mappedRid: RID, apRid: RID, spaceId: int)
    | MappingQueryRequest(aid: AID, requesterRid: RID)
    | MappingQueryResponse(aid: AID, mappedRid: RID, remoteCrRid: RID, spaceId: int, found: bool)
    | NeighborAdvertisement(userAid: AID, apAid: AID, apRid: RID, action: string)
    | MobilityAlert(userAid: AID, oldRid: RID, newRid: RID, newCrRid: RID, reason: string)
    | RouteConfigPush(routeSpace: int, destRidSpace: seq<Json>, nextHopRid: RID)
    | MappingUpdateNotification(aid: AID, newMappedRid: RID, newCrRid: RID, apRid: RID)

  // ------------------------------------------------------------------ identifiers as JSON

  type HexDigit = d: int | 0 <= d < 16

  function HexChar(d: HexDigit): char {
    "0123456789abcdef"[d]
  }

  function HexValue(c: char): Option<HexDigit> {
    if '0' <= c <= '9' then Some(c as int - '0' as int)
    else if 'a' <= c <= 'f' then Some(c as int - 'a' as int + 10)
    else if 'A' <= c <= 'F' then Some(c as int - 'A' as int + 10)
    else None
  }

  // `format(value, "032x")`: at least width digits, padded with zeros.
  function ToHex(v: nat, width: nat): string {
    if v == 0 && width == 0 then ""
    else ToHex(v / 16, if width == 0 then 0 else width - 1) + [HexChar(v % 16)]
  }

  // `int(s, 16)` on strings of hex digits.
  function FromHex(s: string): Option<nat> {
    if s == "" then Some(0)
    else
      match (FromHex(s[..|s| - 1]), HexValue(s[|s| - 1]))
      case (Some(v), Some(d)) => Some(16 * v + d)
      case _ => None
  }

  function AidToJson(a: AID): Json {
    JStr(ToHex(a.value, 32))
  }

  function AidFromJson(j: Json): Option<AID> {
    if !j.JStr? || j.s == "" then None
    else
      match FromHex(j.s)
      case Some(v) => if v < 0x1_0000_0000_0000_0000_0000_0000_0000_0000 then Some(AID(v)) else None
      case None => None
  }

  function RidToJson(r: RID): Json {
    JArr([JInt(r.x), JInt(r.y)])
  }

  predicate IsCoordinate(j: Json) {
    j.JInt? && 0 <= j.i < 0x1_0000_0000
  }

  // Only the first two elements are looked at.
  function RidFromJson(j: Json): Option<RID> {
    if j.JArr? && |j.items| >= 2 && IsCoordinate(j.items[0]) && IsCoordinate(j.items[1])
    then Some(RID(j.items[0].i, j.items[1].i))
    else None
  }

  // ------------------------------------------------------------------------ dictionaries

  function ToDict(m: Signal): map<Key, Json> {
    match m
    case AuthRequest(a, b, c, d, e) =>
      map[KType := JInt(0x01), KUsername := JStr(a), KPassword := JStr(b),
          KUserAid := AidToJson(c), KIpAddress := JStr(d), KMacAddress := JStr(e)]
    case AuthResponse(a, b, c, d) =>
      map[KType := JInt(0x02), KSuccess := JBool(a), KUserAid := AidToJson(b),
          KMessage := JStr(c), KCustomAttributes := JObj(d)]
    case MappingRegisterRequest(a, b, c, d) =>
      map[KType := JInt(0x10), KAid := AidToJson(a), KMappedRid := RidToJson(b),
          KApRid := RidToJson(c), KSpaceId := JInt(d)]
    case MappingQueryRequest(a, b) =>
      map[KType := JInt(0x11), KAid := AidToJson(a), KRequesterRid := RidToJson(b)]
    case MappingQueryResponse(a, b, c, d, e) =>
      map[KType := JInt(0x12), KAid := AidToJson(a), KMappedRid := RidToJson(b),
          KRemoteCrRid := RidToJson(c), KSpaceId := JInt(d), KFound := JBool(e)]
    case NeighborAdvertisement(a, b, c, d) =>
      map[KType := JInt(0x20), KUserAid := AidToJson(a), KApAid := AidToJson(b),
          KApRid := RidToJson(c), KAction := JStr(d)]
    case MobilityAlert(a, b, c, d, e) =>
      map[KType := JInt(0x30), KUserAid := AidToJson(a), KOldRid := RidToJson(b),
          KNewRid := RidToJson(c), KNewCrRid := RidToJson(d), KReason := JStr(e)]
    case RouteConfigPush(a, b, c) =>
      map[KType := JInt(0x40), KSpaceId := JInt(a), KDestRidSpace := JArr(b), KNextHopRid := RidToJson(c)]
    case MappingUpdateNotification(a, b, c, d) =>
      map[KType := JInt(0x50), KAid := AidToJson(a), KNewMappedRid := RidToJson(b),
          KNewCrRid := RidToJson(c), KApRid := RidToJson(d)]
  }

  // `d[key]`, and `d.get(key, default)`.
  function Get(d: map<Key, Json>, key: Key): Json {
    if key in d then d[key] else JNull
  }

  function GetOr(d: map<Key, Json>, key: Key, default: Json): Json {
    if key in d then d[key] else default
  }

  // The `from_dict` of each class; None stands for every exception it raises.

  function AuthRequestFromDict(d: map<Key, Json>): Option<Signal> {
    match (Get(d, KUsername), Get(d, KPassword), AidFromJson(Get(d, KUserAid)),
           GetOr(d, KIpAddress, JStr("0.0.0.0")), GetOr(d, KMacAddress, JStr("")))
    case (JStr(a), JStr(b), Some(c), JStr(d), JStr(e)) => Some(AuthRequest(a, b, c, d, e))
    case _ => None
  }

  function AuthResponseFromDict(d: map<Key, Json>): Option<Signal> {
    match (Get(d, KSuccess), AidFromJson(Get(d, KUserAid)),
           GetOr(d, KMessage, JStr("")), GetOr(d, KCustomAttributes, JObj(map[])))
    case (JBool(a), Some(b), JStr(c), JObj(d)) => Some(AuthResponse(a, b, c, d))
    case _ => None
  }

  function MappingRegisterRequestFromDict(d: map<Key, Json>): Option<Signal> {
    match (AidFromJson(Get(d, KAid)), RidFromJson(Get(d, KMappedRid)),
           RidFromJson(Get(d, KApRid)), GetOr(d, KSpaceId, JInt(0)))
    case (Some(a), Some(b), Some(c), JInt(d)) => Some(MappingRegisterRequest(a, b, c, d))
    case _ => None
  }

  function MappingQueryRequestFromDict(d: map<Key, Json>): Option<Signal> {
    match (AidFromJson(Get(d, KAid)), RidFromJson(Get(d, KRequesterRid)))
    case (Some(a), Some(b)) => Some(MappingQueryRequest(a, b))
    case _ => None
  }

  function MappingQueryResponseFromDict(d: map<Key, Json>): Option<Signal> {
    match (AidFromJson(Get(d, KAid)), RidFromJson(Get(d, KMappedRid)), RidFromJson(Get(d, KRemoteCrRid)),
           GetOr(d, KSpaceId, JInt(0)), GetOr(d, KFound, JBool(true)))
    case (Some(a), Some(b), Some(c), JInt(d), JBool(e)) => Some(MappingQueryResponse(a, b, c, d, e))
    case _ => None
  }

  function NeighborAdvertisementFromDict(d: map<Key, Json>): Option<Signal> {
    match (AidFromJson(Get(d, KUserAid)), AidFromJson(Get(d, KApAid)),
           RidFromJson(Get(d, KApRid)), GetOr(d, KAction, JStr("attach")))
    case (Some(a), Some(b), Some(c), JStr(d)) => Some(NeighborAdvertisement(a, b, c, d))
    case _ => None
  }

  function MobilityAlertFromDict(d: map<Key, Json>): Option<Signal> {
    match (AidFromJson(Get(d, KUserAid)), RidFromJson(Get(d, KOldRid)), RidFromJson(Get(d, KNewRid)),
           RidFromJson(Get(d, KNewCrRid)), GetOr(d, KReason, JStr("mobility_handover")))
    case (Some(a), Some(b), Some(c), Some(d), JStr(e)) => Some(MobilityAlert(a, b, c, d, e))
    case _ => None
  }

  function RouteConfigPushFromDict(d: map<Key, Json>): Option<Signal> {
    match (Get(d, KSpaceId), Get(d, KDestRidSpace),
           RidFromJson(Get(d, KNextHopRid)))
    case (JInt(a), JArr(b), Some(c)) => Some(RouteConfigPush(a, b, c))
    case _ => None
  }

  function MappingUpdateNotificationFromDict(d: map<Key, Json>): Option<Signal> {
    match (AidFromJson(Get(d, KAid)), RidFromJson(Get(d, KNewMappedRid)),
           RidFromJson(Get(d, KNewCrRid)), RidFromJson(GetOr(d, KApRid, JArr([JInt(0), JInt(0)]))))
    case (Some(a), Some(b), Some(c), Some(d)) => Some(MappingUpdateNotification(a, b, c, d))
    case _ => None
  }

  function FromDict(d: map<Key, Json>): Option<Signal> {
    match Get(d, KType)
    case JInt(1) => AuthRequestFromDict(d)
    case JInt(2) => AuthResponseFromDict(d)
    case JInt(16) => MappingRegisterRequestFromDict(d)
    case JInt(17) => MappingQueryRequestFromDict(d)
    case JInt(18) => MappingQueryResponseFromDict(d)
    case JInt(32) => NeighborAdvertisementFromDict(d)
    case JInt(48) => MobilityAlertFromDict(d)
    case JInt(64) => RouteConfigPushFromDict(d)
    case JInt(80) => MappingUpdateNotificationFromDict(d)
    case _ => None
  }

  function EncodeSignal(c: TextCodec, m: Signal): Bytes {
    c.dumps(JObj(ToDict(m)))
  }

  function DecodeSignal(c: TextCodec, data: Bytes): Option<Signal> {
    match c.loads(data)
    case Some(JObj(d)) => FromDict(d)
    case _ => None
  }

  // --------------------------------------------------------------------------- round trip

  lemma HexDigitRoundTrip(d: HexDigit)
    ensures HexValue(HexChar(d)) == Some(d)
  {
    assert HexChar(d) == if d < 10 then '0' + d as char else 'a' + (d - 10) as char;
  }

  lemma HexAppend(front: string, u: nat, d: HexDigit)
    requires FromHex(front) == Some(u)
    ensures FromHex(front + [HexChar(d)]) == Some(16 * u + d)
  {
    HexDigitRoundTrip(d);
    var s := front + [HexChar(d)];
    assert s[..|s| - 1] == front;
  }

  lemma {:induction false} HexRoundTrip(v: nat, width: nat)
    ensures FromHex(ToHex(v, width)) == Some(v)
    decreases v, width
  {
    if v != 0 || width != 0 {
      var w := if width == 0 then 0 else width - 1;
      HexRoundTrip(v / 16, w);
      HexAppend(ToHex(v / 16, w), v / 16, v % 16);
    }
  }

  lemma {:induction false} HexWidth(v: nat, width: nat)
    requires v < Power(16, width)
    ensures |ToHex(v, width)| == width
    decreases width
  {
    if width != 0 {
      HexWidth(v / 16, width - 1);
    }
  }

  /** The digits are those of the number to base 16. */
  lemma {:induction false} HexDigits(v: nat, width: nat, i: nat)
    requires v < Power(16, width) && i < width
    ensures |ToHex(v, width)| == width && ToHex(v, width)[i] == "0123456789abcdef"[Digit(v, 16, width - 1 - i)]
    decreases width
  {
    HexWidth(v, width);
    HexWidth(v / 16, width - 1);
    DigitFurtherLeft(v, 16, if i < width - 1 then width - 2 - i else 0);
    if i < width - 1 {
      HexDigits(v / 16, width - 1, i);
    }
  }

  /** An AID travels as exactly 32 hex digits and comes back as itself. */
  lemma AidJsonRoundTrip(a: AID)
    ensures |ToHex(a.value, 32)| == 32
    ensures AidFromJson(AidToJson(a)) == Some(a)
  {
    HexRoundTrip(a.value, 32);
    PowerOf16();
    HexWidth(a.value, 32);
  }

  lemma PowerOf16()
    ensures Power(16, 32) == 0x1_0000_0000_0000_0000_0000_0000_0000_0000
  {
    assert Power(16, 8) == 0x1_0000_0000;
    assert Power(16, 16) == 0x1_0000_0000_0000_0000 by { assert Power(16, 12) == 0x1_0000_0000_0000; }
    assert Power(16, 20) == 0x1_0000_0000_0000_0000_0000;
    assert Power(16, 24) == 0x1_0000_0000_0000_0000_0000_0000;
    assert Power(16, 28) == 0x1_0000_0000_0000_0000_0000_0000_0000;
  }

  lemma AidsRoundTrip()
    ensures forall a :: AidFromJson(AidToJson(a)) == Some(a)
  {
    forall a ensures AidFromJson(AidToJson(a)) == Some(a) {
      AidJsonRoundTrip(a);
    }
  }

  lemma RidsRoundTrip()
    ensures forall r :: RidFromJson(RidToJson(r)) == Some(r)
  {}

  lemma AuthRequestRoundTrip(m: Signal)
    requires m.AuthRequest?
    ensures FromDict(ToDict(m)) == Some(m)
  {
    var d := ToDict(m);
    assert d[KType] == JInt(0x1);
    assert AuthRequestFromDict(d) == Some(m) by {
      AidsRoundTrip();
      RidsRoundTrip();
    }
  }

  lemma AuthResponseRoundTrip(m: Signal)
    requires m.AuthResponse?
    ensures FromDict(ToDict(m)) == Some(m)
  {
    var d := ToDict(m);
    assert d[KType] == JInt(0x2);
    assert AuthResponseFromDict(d) == Some(m) by {
      AidsRoundTrip();
      RidsRoundTrip();
    }
  }

  lemma MappingRegisterRequestRoundTrip(m: Signal)
    requires m.MappingRegisterRequest?
    ensures FromDict(ToDict(m)) == Some(m)
  {
    var d := ToDict(m);
    assert d[KType] == JInt(0x10);
    assert MappingRegisterRequestFromDict(d) == Some(m) by {
      AidsRoundTrip();
      RidsRoundTrip();
    }
  }

  lemma MappingQueryRequestRoundTrip(m: Signal)
    requires m.MappingQueryRequest?
    ensures FromDict(ToDict(m)) == Some(m)
  {
    var d := ToDict(m);
    assert d[KType] == JInt(0x11);
    assert MappingQueryRequestFromDict(d) == Some(m) by {
      AidsRoundTrip();
      RidsRoundTrip();
    }
  }

  lemma MappingQueryResponseRoundTrip(m: Signal)
    requires m.MappingQueryResponse?
    ensures FromDict(ToDict(m)) == Some(m)
  {
    var d := ToDict(m);
    assert d[KType] == JInt(0x12);
    assert MappingQueryResponseFromDict(d) == Some(m) by {
      AidsRoundTrip();
      RidsRoundTrip();
    }
  }

  lemma NeighborAdvertisementRoundTrip(m: Signal)
    requires m.NeighborAdvertisement?
    ensures FromDict(ToDict(m)) == Some(m)
  {
    var d := ToDict(m);
    assert d[KType] == JInt(0x20);
    assert NeighborAdvertisementFromDict(d) == Some(m) by {
      AidsRoundTrip();
      RidsRoundTrip();
    }
  }

  lemma MobilityAlertRoundTrip(m: Signal)
    requires m.MobilityAlert?
    ensures FromDict(ToDict(m)) == Some(m)
  {
    var d := ToDict(m);
    assert d[KType] == JInt(0x30);
    assert MobilityAlertFromDict(d) == Some(m) by {
      AidsRoundTrip();
      RidsRoundTrip();
    }
  }

  lemma RouteConfigPushRoundTrip(m: Signal)
    requires m.RouteConfigPush?
    ensures FromDict(ToDict(m)) == Some(m)
  {
    var d := ToDict(m);
    assert d[KType] == JInt(0x40);
    assert RouteConfigPushFromDict(d) == Some(m) by {
      AidsRoundTrip();
      RidsRoundTrip();
    }
  }

  lemma MappingUpdateNotificationRoundTrip(m: Signal)
    requires m.MappingUpdateNotification?
    ensures FromDict(ToDict(m)) == Some(m)
  {
    var d := ToDict(m);
    assert d[KType] == JInt(0x50);
    assert MappingUpdateNotificationFromDict(d) == Some(m) by {
      AidsRoundTrip();
      RidsRoundTrip();
    }
  }

  lemma DictRoundTrip(m: Signal)
    ensures FromDict(ToDict(m)) == Some(m)
  {
    match m
    case AuthRequest(_, _, _, _, _) => AuthRequestRoundTrip(m);
    case AuthResponse(_, _, _, _) => AuthResponseRoundTrip(m);
    case MappingRegisterRequest(_, _, _, _) => MappingRegisterRequestRoundTrip(m);
    case MappingQueryRequest(_, _) => MappingQueryRequestRoundTrip(m);
    case MappingQueryResponse(_, _, _, _, _) => MappingQueryResponseRoundTrip(m);
    case NeighborAdvertisement(_, _, _, _) => NeighborAdvertisementRoundTrip(m);
    case MobilityAlert(_, _, _, _, _) => MobilityAlertRoundTrip(m);
    case RouteConfigPush(_, _, _) => RouteConfigPushRoundTrip(m);
    case MappingUpdateNotification(_, _, _, _) => MappingUpdateNotificationRoundTrip(m);
  }

  /** Decoding an encoded message gives the message back, for every type and every field value
      that JSON text can carry. */
  lemma SignalRoundTrip(c: TextCodec, m: Signal)
    requires c.Keeps(JObj(ToDict(m)))
    ensures DecodeSignal(c, EncodeSignal(c, m)) == Some(m)
  {
    DictRoundTrip(m);
  }

  // ------------------------------------------------------------------------ on the wire

  // The lower-case hex digits of an AID, and the coordinates of a RID.

  function HexText(a: AID): Json {
    JStr(seq(32, i requires 0 <= i < 32 => "0123456789abcdef"[Digit(a.value, 16, 31 - i)]))
  }

  function Pair(r: RID): Json {
    JArr([JInt(r.x), JInt(r.y)])
  }

  lemma AidIsHexText(a: AID)
    ensures AidToJson(a) == HexText(a)
  {
    AidJsonRoundTrip(a);
    PowerOf16();
    forall i | 0 <= i < 32 ensures ToHex(a.value, 32)[i] == HexText(a).s[i] {
      HexDigits(a.value, 32, i);
    }
  }

  lemma AidsAreHexText()
    ensures forall a :: AidToJson(a) == HexText(a)
  {
    forall a ensures AidToJson(a) == HexText(a) {
      AidIsHexText(a);
    }
  }

  /** The members of the JSON object of each message. */
  lemma DictionaryOf(m: Signal)
    ensures m.AuthRequest? ==>
              ToDict(m) == map[KType := JInt(0x01), KUsername := JStr(m.username), KPassword := JStr(m.password),
                               KUserAid := HexText(m.userAid), KIpAddress := JStr(m.ipAddress),
                               KMacAddress := JStr(m.macAddress)]
    ensures m.AuthResponse? ==>
              ToDict(m) == map[KType := JInt(0x02), KSuccess := JBool(m.success), KUserAid := HexText(m.userAid),
                               KMessage := JStr(m.message), KCustomAttributes := JObj(m.customAttributes)]
    ensures m.MappingRegisterRequest? ==>
              ToDict(m) == map[KType := JInt(0x10), KAid := HexText(m.aid), KMappedRid := Pair(m.mappedRid),
                               KApRid := Pair(m.apRid), KSpaceId := JInt(m.spaceId)]
    ensures m.MappingQueryRequest? ==>
              ToDict(m) == map[KType := JInt(0x11), KAid := HexText(m.aid), KRequesterRid := Pair(m.requesterRid)]
    ensures m.MappingQueryResponse? ==>
              ToDict(m) == map[KType := JInt(0x12), KAid := HexText(m.aid), KMappedRid := Pair(m.mappedRid),
                               KRemoteCrRid := Pair(m.remoteCrRid), KSpaceId := JInt(m.spaceId),
                               KFound := JBool(m.found)]
    ensures m.NeighborAdvertisement? ==>
              ToDict(m) == map[KType := JInt(0x20), KUserAid := HexText(m.userAid), KApAid := HexText(m.apAid),
                               KApRid := Pair(m.apRid), KAction := JStr(m.action)]
    ensures m.MobilityAlert? ==>
              ToDict(m) == map[KType := JInt(0x30), KUserAid := HexText(m.userAid), KOldRid := Pair(m.oldRid),
                               KNewRid := Pair(m.newRid), KNewCrRid := Pair(m.newCrRid), KReason := JStr(m.reason)]
    ensures m.RouteConfigPush? ==>
              ToDict(m) == map[KType := JInt(0x40), KSpaceId := JInt(m.routeSpace),
                               KDestRidSpace := JArr(m.destRidSpace), KNextHopRid := Pair(m.nextHopRid)]
    ensures m.MappingUpdateNotification? ==>
              ToDict(m) == map[KType := JInt(0x50), KAid := HexText(m.aid), KNewMappedRid := Pair(m.newMappedRid),
                               KNewCrRid := Pair(m.newCrRid), KApRid := Pair(m.apRid)]
  {
    AidsAreHexText();
  }
}
