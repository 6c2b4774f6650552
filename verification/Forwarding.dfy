// The forwarding decision of a core router as a function of its tables
// (src/nodes/core_router.py). The class in CoreRouter.dfy computes it step by step.

module Forwarding {
  import opened Wrappers
  import opened Addressing
  import opened ByteStrings
  import opened Packets
  import opened CrTables
  import opened RidRouting
  import opened MappingStore
  import opened Signaling

  const BROADCAST: Mac := [255, 255, 255, 255, 255, 255]

  datatype Router = Router(myRid: Option<RID>, tables: Tables)
  {
    // `self._my_rid or RID(0, 0)`
    function SourceRid(): RID {
      if myRid.Some? then myRid.value else NO_RID
    }
  }

  datatype Frame = AidFrame(aid: AidPdu) | RidFrame(rid: RidPdu)

  datatype Emission = Emission(iface: int, dstMac: Mac, frame: Frame)

  predicate IsMoved(r: Router, aid: AID) {
    aid in r.tables.users && r.tables.users[aid].status == MovedAway
  }

  // Where in the decision tree a frame ends.
  datatype Branch =
    | Malformed        // the frame does not decode
    | Expired          // TTL exhausted
    | DirectNeighbor   // AID: destination is an access neighbour
    | ServingAp        // AID: handed to the AP that serves the local user
    | NoServingAp      // local user, but no entry for its AP
    | Unmapped         // AID: no mapping
    | Oversize         // packing raises: payload longer than the length field
    | NoRoute          // no route entry
    | Encapsulated     // AID: wrapped in a RID packet towards the next hop
    | ToAp             // RID: destination is an associated AP
    | Control          // RID: control signal for this router
    | Transit          // RID: on to the next hop
    | DirectHop        // RID control: destination looked up among the route neighbours
    | Undecodable      // decapsulation fails
    | UserOffline      // decapsulated, user unknown or offline
    | MovedUnmapped    // decapsulated, user moved, no mapping
    | Redirected       // decapsulated, user moved: wrapped again towards the new router
    | Delivered        // decapsulated, handed to the AP of the online user

  /** At most one packet is sent on, at most one alert goes to the control server, and at
      most one mapping update is learned. */
  datatype Outcome = Outcome(branch: Branch, sent: Option<Emission>, alert: Option<Signal>, learned: Option<Signal>)

  function Ends(b: Branch): Outcome {
    Outcome(b, None, None, None)
  }

  function Sends(b: Branch, e: Option<Emission>): Outcome {
    Outcome(b, e, None, None)
  }

  // Sending serialises; a payload longer than the length field can say raises instead.
  function SendRid(iface: int, mac: Mac, p: RidPdu): Option<Emission> {
    if |p.payload| <= MAX_PAYLOAD then Some(Emission(iface, mac, RidFrame(p))) else None
  }

  function SendAid(iface: int, mac: Mac, p: AidPdu): Option<Emission> {
    if |p.payload| <= MAX_PAYLOAD then Some(Emission(iface, mac, AidFrame(p))) else None
  }

  function ApMac(t: Tables, ap: AID): Mac {
    match AccessNeighborOf(t.accessNeighbors, ap)
    case Some(nb) => nb.mac
    case None => BROADCAST
  }

  function ForwardTo(t: Tables, nextHop: RID, p: RidPdu): Option<Emission> {
    match RouteNeighborOf(t.routeNeighbors, nextHop)
    case Some(nb) => SendRid(nb.iface, nb.mac, p)
    case None => None
  }

  predicate HasSpace(t: Tables, spaceId: U16) {
    exists s | s in t.spaces :: s.spaceId == spaceId
  }

  // The mapping's space if the router has it, else its first space, else space 0.
  function CoreSpace(t: Tables, spaceId: U16): U16 {
    if HasSpace(t, spaceId) then spaceId
    else if t.spaces == [] then 0
    else t.spaces[0].spaceId
  }

  // ------------------------------------------------------------------------ AID packets

  function HandleAid(r: Router, p: AidPdu): (o: Outcome)
    ensures o.learned.None? && o.alert.None?
  {
    match Decremented(p.ttl)
    case None => Ends(Expired)
    case Some(ttl) => PlaceAid(r, p.(ttl := ttl))
  }

  function PlaceAid(r: Router, q: AidPdu): (o: Outcome)
    ensures o.learned.None? && o.alert.None?
  {
    if IsLocalAid(r.tables, q.dst) then DeliverLocally(r.tables, q) else EncapsulateForCore(r, q)
  }

  function DeliverLocally(t: Tables, q: AidPdu): (o: Outcome)
    requires IsLocalAid(t, q.dst)
    ensures o.learned.None? && o.alert.None?
  {
    match AccessNeighborOf(t.accessNeighbors, q.dst)
    case Some(nb) => Sends(DirectNeighbor, SendAid(nb.iface, nb.mac, q))
    case None =>
      match ApByAid(t.aps, t.users[q.dst].apAid)
      case None => Ends(NoServingAp)
      case Some(ap) => Sends(ServingAp, SendAid(ap.iface, ApMac(t, ap.aid), q))
  }

  function EncapsulateForCore(r: Router, q: AidPdu): (o: Outcome)
    ensures o.learned.None? && o.alert.None?
  {
    match LookupAny(r.tables.local, r.tables.remote, q.dst)
    case None => Ends(Unmapped)
    case Some(m) =>
      var spaceId := CoreSpace(r.tables, m.spaceId);
      match Encapsulate(q, r.SourceRid(), m.mappedRid, spaceId)
      case None => Ends(Oversize)
      case Some(pkt) => SendIntoCore(r.tables, pkt)
  }

  lemma EncapsulatesAs(r: Router, q: AidPdu, m: Mapping, spaceId: U16, pkt: RidPdu)
    requires LookupAny(r.tables.local, r.tables.remote, q.dst) == Some(m) && CoreSpace(r.tables, m.spaceId) == spaceId
    requires Encapsulate(q, r.SourceRid(), m.mappedRid, spaceId) == Some(pkt)
    ensures EncapsulateForCore(r, q) == SendIntoCore(r.tables, pkt)
  {}

  function SendIntoCore(t: Tables, pkt: RidPdu): (o: Outcome)
    ensures o.learned.None? && o.alert.None?
  {
    match NextHop(t.routes, pkt.dst, pkt.spaceId)
    case None => Ends(NoRoute)
    case Some(hop) => Sends(Encapsulated, ForwardTo(t, hop, pkt))
  }

  // ------------------------------------------------------------------------ RID packets

  function HandleRid(c: TextCodec, r: Router, p: RidPdu): Outcome {
    match Decremented(p.ttl)
    case None => Ends(Expired)
    case Some(ttl) => Dispatch(c, r, p.(ttl := ttl))
  }

  function Dispatch(c: TextCodec, r: Router, q: RidPdu): Outcome {
    if IsLocalRid(r.tables, q.dst) then DeliverToAp(r.tables, q)
    else if r.myRid == Some(q.dst) then ForMe(c, r, q)
    else PassOn(r, q)
  }

  function ForMe(c: TextCodec, r: Router, q: RidPdu): Outcome {
    if q.dataType.ControlSignaling? then Outcome(Control, None, None, UpdateIn(c, q.payload))
    else Decapsulate(r, q)
  }

  // The packet is for neither an associated AP nor this router.
  function PassOn(r: Router, q: RidPdu): (o: Outcome)
    ensures o.learned.None?
  {
    if CoveringSpace(r.tables.spaces, q.dst).None? then RouteOn(r.tables, q)
    else if q.dataType.ControlSignaling? then
      if NextHop(r.tables.routes, q.dst, q.spaceId).Some? then RouteOn(r.tables, q)
      else Sends(DirectHop, ForwardTo(r.tables, q.dst, q))
    else Decapsulate(r, q)
  }

  function DeliverToAp(t: Tables, q: RidPdu): (o: Outcome)
    requires IsLocalRid(t, q.dst)
    ensures o.learned.None? && o.alert.None?
  {
    var ap := ApByRid(t.aps, q.dst).value;
    Sends(ToAp, SendRid(ap.iface, ApMac(t, ap.aid), q))
  }

  function RouteOn(t: Tables, q: RidPdu): (o: Outcome)
    ensures o.learned.None? && o.alert.None?
  {
    match NextHop(t.routes, q.dst, q.spaceId)
    case None => Ends(NoRoute)
    case Some(hop) => Sends(Transit, ForwardTo(t, hop, q))
  }

  // The only control signal a router acts on.
  function UpdateIn(c: TextCodec, payload: Bytes): (r: Option<Signal>)
    ensures r.Some? ==> r.value.MappingUpdateNotification?
  {
    match DecodeSignal(c, payload)
    case Some(MappingUpdateNotification(a, m, cr, ap)) => Some(MappingUpdateNotification(a, m, cr, ap))
    case _ => None
  }

  function Decapsulate(r: Router, q: RidPdu): (o: Outcome)
    ensures o.learned.None?
  {
    match AidDeserialize(q.payload)
    case Err(_) => Ends(Undecodable)
    case Ok(inner) =>
      if inner.dst !in r.tables.users then Ends(UserOffline)
      else
        match r.tables.users[inner.dst].status
        case Offline => Ends(UserOffline)
        case MovedAway => Redirect(r, inner)
        case Online =>
          match ApByAid(r.tables.aps, r.tables.users[inner.dst].apAid)
          case None => Ends(NoServingAp)
          case Some(ap) => Sends(Delivered, SendAid(ap.iface, ApMac(r.tables, ap.aid), inner))
  }

  function Redirect(r: Router, inner: AidPdu): (o: Outcome)
    ensures o.learned.None?
  {
    match LookupAny(r.tables.local, r.tables.remote, inner.dst)
    case None => Ends(MovedUnmapped)
    case Some(m) =>
      match Encapsulate(inner, r.SourceRid(), m.remoteCrRid, m.spaceId)
      case None => Ends(Oversize)
      case Some(pkt) => RedirectVia(r, pkt, inner.dst, m)
  }

  function RedirectVia(r: Router, pkt: RidPdu, aid: AID, m: Mapping): (o: Outcome)
    ensures o.learned.None?
  {
    var hop := NextHop(r.tables.routes, m.remoteCrRid, m.spaceId);
    var sent := if hop.Some? then ForwardTo(r.tables, hop.value, pkt) else None;
    // Packing the outer packet raises, before the alert is built.
    if hop.Some? && RouteNeighborOf(r.tables.routeNeighbors, hop.value).Some? && sent.None?
    then Ends(Oversize)
    else Outcome(Redirected, sent, Some(AlertFor(r, aid, m)), None)
  }

  function AlertFor(r: Router, aid: AID, m: Mapping): Signal {
    MobilityAlert(aid, r.SourceRid(), m.mappedRid, m.remoteCrRid, "mobility_handover")
  }

  // ----------------------------------------------------------------------- all together

  function OnFrame(c: TextCodec, r: Router, f: EthernetFrame): Outcome {
    if f.etherType == ETHERTYPE_AID then
      match AidDeserialize(f.payload)
      case Err(_) => Ends(Malformed)
      case Ok(p) => HandleAid(r, p)
    else if f.etherType == ETHERTYPE_RID then
      match RidDeserialize(f.payload)
      case Err(_) => Ends(Malformed)
      case Ok(p) => HandleRid(c, r, p)
    else Ends(Malformed)
  }

  function Handle(c: TextCodec, r: Router, f: Frame): Outcome {
    match f
    case AidFrame(p) => HandleAid(r, p)
    case RidFrame(p) => HandleRid(c, r, p)
  }

  // A control signal to the first route neighbour of the management space.
  function ToControlServer(c: TextCodec, r: Router, m: Signal): Option<Emission> {
    match ManagementNeighbor(r.tables.routeNeighbors)
    case None => None
    case Some(nb) =>
      SendRid(nb.iface, nb.mac,
              RidPdu(r.SourceRid(), nb.rid, EncodeSignal(c, m), 0, 0, ControlSignaling, DEFAULT_TTL))
  }

  function OptionSeq<T>(o: Option<T>): seq<T> {
    if o.Some? then [o.value] else []
  }

  function Emissions(c: TextCodec, r: Router, o: Outcome): seq<Emission> {
    OptionSeq(o.sent) + if o.alert.Some? then OptionSeq(ToControlServer(c, r, o.alert.value)) else []
  }

  // Match the AP by the notification's AP RID; AID(0) when none matches.
  function ApFor(aps: seq<ApEntry>, apRid: RID): AID {
    match ApByRid(aps, apRid)
    case Some(ap) => ap.aid
    case None => AID(0)
  }

  /** The effect of a mapping update: every router records the mapping, the serving router
      also marks the user online. */
  function Learn(r: Router, u: Signal): Router
    requires u.MappingUpdateNotification?
  {
    var t := r.tables.(remote := UpdateRemote(r.tables.remote, u.aid, u.newMappedRid, u.newCrRid));
    if r.myRid == Some(u.newCrRid)
    then r.(tables := WithUser(t, u.aid, UserState(ApFor(t.aps, u.apRid), Online, "")))
    else r.(tables := t)
  }

  function After(r: Router, o: Outcome): Router {
    match o.learned
    case Some(MappingUpdateNotification(a, m, cr, ap)) => Learn(r, MappingUpdateNotification(a, m, cr, ap))
    case _ => r
  }

  // ------------------------------------------------------------- what a router sends on

  /** The frame is a fresh RID packet around AID packet p. */
  predicate Wraps(f: Frame, p: AidPdu) {
    f.RidFrame? && AidSerialize(p) == Some(f.rid.payload) && f.rid.ttl == DEFAULT_TTL && f.rid.dataType == p.dataType
  }

  lemma WrappedInner(f: Frame, p: AidPdu)
    requires Wraps(f, p)
    ensures AidDeserialize(f.rid.payload) == Ok(p)
  {
    AidRoundTrip(p, []);
    assert f.rid.payload + [] == f.rid.payload;
  }

  // An AID packet goes on as it is, or wrapped.
  predicate FollowsAid(q: AidPdu, branch: Branch, after: Frame) {
    branch != Redirected && if branch == Encapsulated then Wraps(after, q) else after == AidFrame(q)
  }

  // A RID packet goes on as it is, or, if it carries user data, unwrapped or wrapped afresh.
  predicate FollowsRid(q: RidPdu, branch: Branch, after: Frame) {
    && branch != Encapsulated
    && (branch == Redirected || after.AidFrame? ==> q.dataType.UserData? && AidDeserialize(q.payload).Ok?)
    && if branch == Redirected then Wraps(after, AidDeserialize(q.payload).value)
       else after == if after.AidFrame? then AidFrame(AidDeserialize(q.payload).value) else RidFrame(q)
  }

  /** How the frame a router sends on comes from the one it handled. */
  predicate Follows(before: Frame, branch: Branch, after: Frame) {
    match before
    case AidFrame(p) => p.ttl >= 2 && FollowsAid(p.(ttl := p.ttl - 1), branch, after)
    case RidFrame(q) => q.ttl >= 2 && FollowsRid(q.(ttl := q.ttl - 1), branch, after)
  }

  lemma PlacedFollows(r: Router, q: AidPdu)
    ensures var o := PlaceAid(r, q);
            o.branch != Redirected && (o.sent.Some? ==> FollowsAid(q, o.branch, o.sent.value.frame))
  {}

  lemma DecapsulatedFollows(r: Router, q: RidPdu)
    requires q.dataType.UserData?
    ensures var o := Decapsulate(r, q); o.sent.Some? ==> FollowsRid(q, o.branch, o.sent.value.frame)
  {}

  lemma DispatchedFollows(c: TextCodec, r: Router, q: RidPdu)
    ensures var o := Dispatch(c, r, q); o.sent.Some? ==> FollowsRid(q, o.branch, o.sent.value.frame)
  {
    if q.dataType.UserData? {
      DecapsulatedFollows(r, q);
    }
  }

  lemma AidHandlingFollows(r: Router, p: AidPdu)
    ensures var o := HandleAid(r, p); o.sent.Some? ==> Follows(AidFrame(p), o.branch, o.sent.value.frame)
  {
    if p.ttl >= 2 {
      var q := p.(ttl := p.ttl - 1);
      assert HandleAid(r, p) == PlaceAid(r, q);
      PlacedFollows(r, q);
    }
  }

  lemma RidHandlingFollows(c: TextCodec, r: Router, q: RidPdu)
    ensures var o := HandleRid(c, r, q); o.sent.Some? ==> Follows(RidFrame(q), o.branch, o.sent.value.frame)
  {
    if q.ttl >= 2 {
      var q' := q.(ttl := q.ttl - 1);
      assert HandleRid(c, r, q) == Dispatch(c, r, q');
      DispatchedFollows(c, r, q');
    }
  }

  lemma HandlingFollows(c: TextCodec, r: Router, f: Frame)
    ensures var o := Handle(c, r, f); o.sent.Some? ==> Follows(f, o.branch, o.sent.value.frame)
  {
    match f
    case AidFrame(p) => AidHandlingFollows(r, p);
    case RidFrame(q) => RidHandlingFollows(c, r, q);
  }

  // ------------------------------------------------------------- frames over the wire

  function Framed(e: Emission, srcMac: Mac): Option<EthernetFrame> {
    match e.frame
    case AidFrame(p) =>
      (match AidSerialize(p)
       case Some(b) => Some(EthernetFrame(e.dstMac, srcMac, ETHERTYPE_AID, b))
       case None => None)
    case RidFrame(p) =>
      (match RidSerialize(p)
       case Some(b) => Some(EthernetFrame(e.dstMac, srcMac, ETHERTYPE_RID, b))
       case None => None)
  }

  /** The wire is transparent: what a router does with the bytes of an emitted frame, padding
      included, is what it does with the packet that was sent. */
  lemma WireIsTransparent(c: TextCodec, r: Router, e: Emission, srcMac: Mac, padding: Bytes)
    requires Framed(e, srcMac).Some?
    ensures var f := Framed(e, srcMac).value;
            OnFrame(c, r, f.(payload := f.payload + padding)) == Handle(c, r, e.frame)
  {
    match e.frame
    case AidFrame(p) => AidRoundTrip(p, padding);
    case RidFrame(p) => RidRoundTrip(p, padding);
  }
}
