// The access point (src/nodes/access_point.py): bridging user frames between its users and its
// router, and the procedure that registers a user who connects.

module AccessPoints {
  import opened Wrappers
  import opened Numbers
  import opened Addressing
  import opened ByteStrings
  import opened Packets
  import opened MappingStore
  import opened Signaling
  import opened Forwarding
  import opened Attributes
  import opened ControlService

  // ------------------------------------------------------------------ the data bridge

  // users holds the MAC that frames for a local user are sent to.
  datatype ApState = ApState(users: map<AID, Mac>, accessIface: int, crIface: int, crMac: Mac)

  function ToUser(ap: ApState, p: AidPdu): Option<Emission> {
    if p.dst in ap.users then SendAid(ap.accessIface, ap.users[p.dst], p) else None
  }

  /** What the AP does with a user frame: down to a local user, or up to its router. */
  function Bridge(ap: ApState, f: Frame): Option<Emission> {
    match f
    case AidFrame(p) => if p.dst in ap.users then ToUser(ap, p) else SendAid(ap.crIface, ap.crMac, p)
    case RidFrame(q) =>
      match AidDeserialize(q.payload)
      case Ok(p) => ToUser(ap, p)
      case Err(_) => None
  }

  // The control message in a frame, if there is one.
  function SignalIn(c: TextCodec, f: Frame): Option<Signal> {
    if f.RidFrame? && f.rid.dataType.ControlSignaling? then DecodeSignal(c, f.rid.payload) else None
  }

  // The messages of the authentication exchange, which is not modelled.
  predicate IsAuthExchange(m: Option<Signal>) {
    m.Some? && (m.value.AuthRequest? || m.value.AuthResponse?)
  }

  // ------------------------------------------------------------------- user activation

  datatype Identity = Identity(aid: Option<AID>, rid: Option<RID>, csRid: Option<RID>, crRid: Option<RID>)

  function OrZero(r: Option<RID>): RID {
    if r.Some? then r.value else NO_RID
  }

  // The router's RID, or one cut out of the user's AID when no router is configured.
  function MappedRid(id: Identity, user: AID): RID {
    if id.crRid.Some? then id.crRid.value
    else RID(user.value / 0x1_0000_0000_0000_0000 % 0x1_0000_0000, user.value % 0x1_0000_0000)
  }

  function RegisterRequest(id: Identity, user: AID): Signal {
    MappingRegisterRequest(user, MappedRid(id, user), OrZero(id.rid), 100)
  }

  function Attach(id: Identity, user: AID): Signal {
    NeighborAdvertisement(user, if id.aid.Some? then id.aid.value else AID(0), OrZero(id.rid), "attach")
  }

  function ControlPdu(c: TextCodec, id: Identity, dst: RID, spaceId: U16, m: Signal): RidPdu {
    RidPdu(OrZero(id.rid), dst, EncodeSignal(c, m), 0, spaceId, ControlSignaling, DEFAULT_TTL)
  }

  /** The packets of an activation: the registration to the control server, the same to the
      AP's router, and the advertisement. */
  function ActivationPdus(c: TextCodec, id: Identity, user: AID): seq<RidPdu> {
    [ControlPdu(c, id, OrZero(id.csRid), 0, RegisterRequest(id, user)),
     ControlPdu(c, id, OrZero(id.crRid), 100, RegisterRequest(id, user)),
     ControlPdu(c, id, OrZero(id.csRid), 0, Attach(id, user))]
  }

  // The RID, or (0, 0) in the place of none.
  predicate RidOrZero(r: Option<RID>, rid: RID) {
    r == Some(rid) || (r.None? && rid == RID(0, 0))
  }

  /** A control packet from the AP to dst, in the space, with the message in it. */
  predicate IsControl(c: TextCodec, id: Identity, p: RidPdu, dst: Option<RID>, spaceId: U16, m: Signal) {
    && RidOrZero(id.rid, p.src) && RidOrZero(dst, p.dst) && p.payload == c.dumps(JObj(ToDict(m)))
    && p.qos == 0 && p.spaceId == spaceId && p.dataType == ControlSignaling && p.ttl == 64
  }

  /** An activation sends three control packets: to the control server in space 0 and to the router in
      space 100 a registration of the user at the router's RID, or, without a router, at one made of
      bits 64 to 95 and 0 to 31 of the user's AID; and to the control server the advertisement. Each
      can be read. */
  lemma ActivationPackets(c: TextCodec, id: Identity, user: AID, own: RID, mapped: RID)
    requires RidOrZero(id.rid, own)
    requires if id.crRid.Some? then mapped == id.crRid.value
             else mapped.x == user.value / Power(2, 64) % Power(2, 32) && mapped.y == user.value % Power(2, 32)
    ensures var pdus := ActivationPdus(c, id, user);
            var registration := MappingRegisterRequest(user, mapped, own, 100);
            var advertisement :=
              NeighborAdvertisement(user, if id.aid.Some? then id.aid.value else AID(0), own, "attach");
            && |pdus| == 3
            && IsControl(c, id, pdus[0], id.csRid, 0, registration)
            && IsControl(c, id, pdus[1], id.crRid, 100, registration)
            && IsControl(c, id, pdus[2], id.csRid, 0, advertisement)
            && (c.Keeps(JObj(ToDict(registration))) ==>
                  DecodeSignal(c, pdus[0].payload) == DecodeSignal(c, pdus[1].payload) == Some(registration))
            && (c.Keeps(JObj(ToDict(advertisement))) ==> DecodeSignal(c, pdus[2].payload) == Some(advertisement))
  {
    PowersOf2();
    var registration := MappingRegisterRequest(user, mapped, own, 100);
    var advertisement := NeighborAdvertisement(user, if id.aid.Some? then id.aid.value else AID(0), own, "attach");
    assert RegisterRequest(id, user) == registration && Attach(id, user) == advertisement;
    if c.Keeps(JObj(ToDict(registration))) {
      SignalRoundTrip(c, registration);
    }
    if c.Keeps(JObj(ToDict(advertisement))) {
      SignalRoundTrip(c, advertisement);
    }
  }

  /** The first packet of an activation decodes to a registration; when the control server
      assigns the AP to the router the AP is configured with, the notification it then sends maps
      the user to that router and names the AP. */
  lemma ActivationNamesTheAp(c: TextCodec, id: Identity, user: AID, apToCr: map<RID, RID>)
    requires c.Keeps(JObj(ToDict(RegisterRequest(id, user)))) && id.crRid.Some? && id.rid.Some?
    requires Belongs(apToCr, id.rid.value, id.crRid.value)
    ensures var m := DecodeSignal(c, ActivationPdus(c, id, user)[0].payload);
            && m == Some(MappingRegisterRequest(user, id.crRid.value, id.rid.value, 100))
            && NotificationFor(apToCr, m.value)
               == Some(MappingUpdateNotification(user, id.crRid.value, id.crRid.value, id.rid.value))
  {
    SignalRoundTrip(c, RegisterRequest(id, user));
  }

  // --------------------------------------------------------------------------- the node

  // Attributes come as a dictionary, its values in the form that `str` gives them, or as text that
  // is kept as it is.
  datatype Given = AsDict(d: Attrs) | AsText(s: string)

  function Stored(g: Given): string {
    match g
    case AsDict(d) => Print(d)
    case AsText(s) => s
  }

  datatype LocalUser = LocalUser(ipAddress: string, mac: Option<Mac>, attributes: string, authenticated: bool)

  function MacOf(user: LocalUser): Mac {
    if user.mac.Some? then user.mac.value else BROADCAST
  }

  // What the bridge needs to know of the AP's users.
  function BridgeState(users: map<AID, LocalUser>, accessIface: int, crIface: int, crMac: Mac): ApState {
    ApState(map a | a in users :: MacOf(users[a]), accessIface, crIface, crMac)
  }

  predicate SentTo(user: LocalUser, mac: Mac) {
    user.mac == Some(mac) || (user.mac.None? && mac == [0xFF, 0xFF, 0xFF, 0xFF, 0xFF, 0xFF])
  }

  /** What leaves on a user frame: for a local user its AID packet, down to the user's MAC or to
      broadcast; an AID packet for anyone else, up to the router. Nothing is unwrapped or changed but
      the RID packet around a local user's packet. */
  predicate Bridged(users: map<AID, LocalUser>, accessIface: int, crIface: int, crMac: Mac, f: Frame, e: Emission) {
    match f
    case AidFrame(p) =>
      && |p.payload| <= 65535 && e.frame == f
      && if p.dst in users then e.iface == accessIface && SentTo(users[p.dst], e.dstMac)
         else e.iface == crIface && e.dstMac == crMac
    case RidFrame(q) =>
      && e.frame.AidFrame? && AidDeserialize(q.payload) == Ok(e.frame.aid)
      && e.frame.aid.dst in users && e.iface == accessIface && SentTo(users[e.frame.aid.dst], e.dstMac)
  }

  lemma BridgeIsBridged(users: map<AID, LocalUser>, accessIface: int, crIface: int, crMac: Mac, f: Frame, e: Emission)
    ensures Bridge(BridgeState(users, accessIface, crIface, crMac), f) == Some(e)
       <==> Bridged(users, accessIface, crIface, crMac, f, e)
  {}

  class AccessPoint {
    const id: Identity
    const codec: TextCodec
    const accessIface: int
    const crIface: int
    const crMac: Mac
    var localUsers: map<AID, LocalUser>
    var neighborCache: map<AID, (AID, RID)>
    var sent: seq<Emission>

    constructor (id: Identity, codec: TextCodec, accessIface: int, crIface: int, crMac: Mac)
      ensures this.id == id && this.codec == codec
      ensures this.accessIface == accessIface && this.crIface == crIface && this.crMac == crMac
      ensures localUsers == map[] && neighborCache == map[] && sent == []
    {
      this.id, this.codec, this.accessIface, this.crIface, this.crMac := id, codec, accessIface, crIface, crMac;
      localUsers, neighborCache, sent := map[], map[], [];
    }

    function State(): ApState
      reads this`localUsers
    {
      BridgeState(localUsers, accessIface, crIface, crMac)
    }

    method SendAidPacket(iface: int, mac: Mac, pkt: AIDPacket)
      modifies this`sent
      ensures sent == old(sent) + OptionSeq(SendAid(iface, mac, pkt.View()))
    {
      if |pkt.payload| <= MAX_PAYLOAD {
        sent := sent + [Emission(iface, mac, AidFrame(pkt.View()))];
      }
    }

    method DeliverToUser(pkt: AIDPacket)
      modifies this`sent
      ensures sent == old(sent) + OptionSeq(ToUser(State(), pkt.View()))
    {
      if pkt.dstAid in localUsers {
        var user := localUsers[pkt.dstAid];
        SendAidPacket(accessIface, MacOf(user), pkt);
      }
    }

    /** User frames are bridged; control frames send nothing and at most fill the cache. */
    method ReceiveFrame(f: Frame)
      requires !IsAuthExchange(SignalIn(codec, f))
      modifies this`sent, this`neighborCache
      ensures sent == old(sent) + if f.RidFrame? && f.rid.dataType.ControlSignaling? then []
                                  else OptionSeq(Bridge(State(), f))
      ensures forall e :: Bridge(State(), f) == Some(e) <==> Bridged(localUsers, accessIface, crIface, crMac, f, e)
      ensures f.AidFrame? || f.rid.dataType == UserData ==> neighborCache == old(neighborCache)
      ensures match SignalIn(codec, f)
              case Some(NeighborAdvertisement(user, a, r, _)) => neighborCache == old(neighborCache)[user := (a, r)]
              case _ => neighborCache == old(neighborCache)
    {
      forall e ensures Bridge(State(), f) == Some(e) <==> Bridged(localUsers, accessIface, crIface, crMac, f, e) {
        BridgeIsBridged(localUsers, accessIface, crIface, crMac, f, e);
      }
      match f
      case RidFrame(q) =>
        if q.dataType == ControlSignaling {
          DispatchControlSignal(DecodeSignal(codec, q.payload));
        } else {
          var decoded := AidDeserialize(q.payload);
          if decoded.Ok? {
            var inner := new AIDPacket(decoded.value);
            DeliverToUser(inner);
          }
        }
      case AidFrame(p) =>
        var pkt := new AIDPacket(p);
        if pkt.dstAid in localUsers {
          DeliverToUser(pkt);
        } else {
          SendAidPacket(crIface, crMac, pkt);
        }
    }

    method DispatchControlSignal(m: Option<Signal>)
      requires !IsAuthExchange(m)
      modifies this`neighborCache
      ensures match m
              case Some(NeighborAdvertisement(user, a, r, _)) => neighborCache == old(neighborCache)[user := (a, r)]
              case _ => neighborCache == old(neighborCache)
    {
      if m.Some? && m.value.NeighborAdvertisement? {
        neighborCache := neighborCache[m.value.userAid := (m.value.apAid, m.value.apRid)];
      }
    }

    /** A user's own traffic: dropped unless the user is authenticated. */
    method SendUserData(user: AID, dst: AID, payload: Bytes)
      modifies this`sent
      ensures var e := Emission(crIface, crMac, AidFrame(AidPdu(user, dst, payload, 0, UserData, 64)));
              sent == old(sent) + if user in localUsers && localUsers[user].authenticated && |payload| <= 65535 then [e]
                                  else []
    {
      if user !in localUsers || !localUsers[user].authenticated {
        return;
      }
      var pkt := new AIDPacket(AidPdu(user, dst, payload, 0, UserData, DEFAULT_TTL));
      SendAidPacket(crIface, crMac, pkt);
    }

    /** Parsing the stored text gives the attributes that the control server parsed, whether they
        come parsed or as text. */
    method AddLocalUser(user: AID, ipAddress: string, mac: Option<Mac>, attributes: Given, authenticated: bool)
      modifies this`localUsers
      ensures localUsers == old(localUsers)[user := LocalUser(ipAddress, mac, Stored(attributes), authenticated)]
      ensures attributes.AsText? ==> localUsers[user].attributes == attributes.s
      ensures forall s | attributes == AsDict(Parse(s)) || attributes == AsText(s) ::
                Parse(localUsers[user].attributes) == Parse(s)
    {
      localUsers := localUsers[user := LocalUser(ipAddress, mac, Stored(attributes), authenticated)];
      forall s | attributes == AsDict(Parse(s)) ensures Parse(Print(Parse(s))) == Parse(s) {
        ParsePrintParse(s);
      }
    }

    method SendControl(dst: RID, spaceId: U16, m: Signal)
      modifies this`sent
      ensures sent == old(sent) + OptionSeq(SendRid(crIface, crMac, ControlPdu(codec, id, dst, spaceId, m)))
    {
      var pkt := new RIDPacket(ControlPdu(codec, id, dst, spaceId, m));
      if |pkt.payload| <= MAX_PAYLOAD {
        sent := sent + [Emission(crIface, crMac, RidFrame(pkt.View()))];
      }
    }

    method ActivateUser(user: AID, ipAddress: string, mac: Option<Mac>, attributes: Given)
      modifies this`localUsers, this`sent
      ensures localUsers == old(localUsers)[user := LocalUser(ipAddress, mac, Stored(attributes), true)]
      ensures var pdus := ActivationPdus(codec, id, user);
              sent == old(sent) + OptionSeq(SendRid(crIface, crMac, pdus[0]))
                      + OptionSeq(SendRid(crIface, crMac, pdus[1])) + OptionSeq(SendRid(crIface, crMac, pdus[2]))
    {
      AddLocalUser(user, ipAddress, mac, attributes, true);
      SendControl(OrZero(id.csRid), 0, RegisterRequest(id, user));
      SendControl(OrZero(id.crRid), 100, RegisterRequest(id, user));
      SendControl(OrZero(id.csRid), 0, Attach(id, user));
    }
  }
}
