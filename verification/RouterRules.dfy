// What leaves a core router and what it learns, told from its tables alone.

module RouterRules {
  import opened Wrappers
  import opened Addressing
  import opened Packets
  import opened CrTables
  import opened RidRouting
  import opened MappingStore
  import opened Signaling
  import opened Forwarding

  // Which entry of each table counts, and what the packet that goes out consists of. The functions
  // of Forwarding.dfy, and with them the methods of CoreRouter.dfy, do exactly this.

  // ---------------------------------------------------------------- what the tables say

  /** The routes lead packets for r, in the space, to neighbour nb: the first that has the next hop
      of the first best entry. */
  ghost predicate Leads(t: Tables, r: RID, spaceId: U16, nb: RouteNeighbor) {
    exists i :: FirstBest(t.routes, r, spaceId, i)
                && IsFirst(t.routeNeighbors, NeighborWithRid(t.routes[i].nextHop), nb)
  }

  /** Packets for a mapping in space `wanted` enter the core in space s: that one if the router has a
      space of that id, else its first space, and 0 if it has none. */
  predicate UsesSpace(t: Tables, wanted: U16, s: U16) {
    if exists e | e in t.spaces :: e.spaceId == wanted then s == wanted
    else s == if |t.spaces| >= 1 then t.spaces[0].spaceId else 0
  }

  /** The mapping that counts for the user: a local one first, and that names router (0, 0). */
  predicate Maps(t: Tables, a: AID, m: Mapping) {
    if a in t.local then m == Mapping(t.local[a], RID(0, 0), 0) else a in t.remote && t.remote[a] == m
  }

  /** Frames for the AP go to this MAC: that of the first access neighbour with its AID, or broadcast. */
  ghost predicate MacOfAp(t: Tables, ap: AID, mac: Mac) {
    if exists nb | nb in t.accessNeighbors :: nb.aid == ap
    then exists nb :: IsFirst(t.accessNeighbors, NeighborWithAid(ap), nb) && nb.mac == mac
    else mac == [0xFF, 0xFF, 0xFF, 0xFF, 0xFF, 0xFF]
  }

  predicate OnlineHere(t: Tables, a: AID) {
    a in t.users && t.users[a].status == Online
  }

  // The router's own RID, or (0, 0) while it has none.
  predicate Own(r: Router, rid: RID) {
    r.myRid == Some(rid) || (r.myRid.None? && rid == RID(0, 0))
  }

  /** A fresh RID packet for dst around AID packet q. */
  predicate Around(r: Router, w: RidPdu, dst: RID, spaceId: U16, q: AidPdu) {
    && AidSerialize(q) == Some(w.payload) && w.dst == dst && w.spaceId == spaceId && Own(r, w.src)
    && w.qos == 0 && w.dataType == q.dataType && w.ttl == 64
  }

  // Sent to the neighbour; a packet of more than 65535 bytes cannot be packed.
  predicate GoesTo(e: Emission, nb: RouteNeighbor, w: RidPdu) {
    |w.payload| <= 65535 && e == Emission(nb.iface, nb.mac, RidFrame(w))
  }

  ghost predicate FollowsRoute(t: Tables, w: RidPdu, e: Emission) {
    exists nb :: Leads(t, w.dst, w.spaceId, nb) && GoesTo(e, nb, w)
  }

  // ------------------------------------------------------------------------ AID packets

  /** To the AP with this AID. */
  ghost predicate ReachesAp(t: Tables, ap: AID, q: AidPdu, e: Emission) {
    && |q.payload| <= 65535
    && exists x: ApEntry, mac :: IsFirst(t.aps, ApWithAid(ap), x) && MacOfAp(t, ap, mac)
                                 && e == Emission(x.iface, mac, AidFrame(q))
  }

  /** To a user online here: straight to it if it is an access neighbour, else to its AP. */
  ghost predicate ReachesUser(t: Tables, q: AidPdu, e: Emission)
    requires OnlineHere(t, q.dst)
  {
    if exists nb | nb in t.accessNeighbors :: nb.aid == q.dst
    then |q.payload| <= 65535
         && exists nb :: IsFirst(t.accessNeighbors, NeighborWithAid(q.dst), nb)
                         && e == Emission(nb.iface, nb.mac, AidFrame(q))
    else ReachesAp(t, t.users[q.dst].apAid, q, e)
  }

  /** Into the core, wrapped, towards the RID the user is mapped to. */
  ghost predicate EntersCore(r: Router, q: AidPdu, e: Emission) {
    exists m, s, w :: Maps(r.tables, q.dst, m) && UsesSpace(r.tables, m.spaceId, s)
                      && Around(r, w, m.mappedRid, s, q) && FollowsRoute(r.tables, w, e)
  }

  ghost predicate LeavesForUser(r: Router, q: AidPdu, e: Emission) {
    if OnlineHere(r.tables, q.dst) then ReachesUser(r.tables, q, e) else EntersCore(r, q, e)
  }

  ghost predicate AidLeaves(r: Router, p: AidPdu, e: Emission) {
    p.ttl >= 2 && LeavesForUser(r, AgedAid(p), e)
  }

  // ------------------------------------------------------------------------ RID packets

  ghost predicate IsForAp(t: Tables, r: RID) {
    exists ap | ap in t.aps :: ap.rid == r
  }

  ghost predicate IsCovered(t: Tables, r: RID) {
    exists s | s in t.spaces :: s.space.Contains(r)
  }

  ghost predicate HasRoute(t: Tables, r: RID, spaceId: U16) {
    exists e | e in t.routes :: Reaches(e, r, spaceId)
  }

  // To the first AP with the RID.
  ghost predicate ReachesApByRid(t: Tables, q: RidPdu, e: Emission) {
    && |q.payload| <= 65535
    && exists x: ApEntry, mac :: IsFirst(t.aps, ApWithRid(q.dst), x) && MacOfAp(t, x.aid, mac)
                                 && e == Emission(x.iface, mac, RidFrame(q))
  }

  /** User data for this router's RID, or for any RID in its spaces, is unwrapped. */
  ghost predicate Unwraps(r: Router, q: RidPdu) {
    && !IsForAp(r.tables, q.dst) && q.dataType == UserData
    && (r.myRid == Some(q.dst) || IsCovered(r.tables, q.dst))
  }

  /** A user held as moved: its packet, wrapped afresh, goes to the router the mapping names. */
  ghost predicate GoesAfterUser(r: Router, inner: AidPdu, e: Emission) {
    exists m, w :: Maps(r.tables, inner.dst, m) && Around(r, w, m.remoteCrRid, m.spaceId, inner)
                   && FollowsRoute(r.tables, w, e)
  }

  ghost predicate UnwrappedLeaves(r: Router, q: RidPdu, e: Emission) {
    && AidDeserialize(q.payload).Ok?
    && var inner := AidDeserialize(q.payload).value;
       && inner.dst in r.tables.users
       && match r.tables.users[inner.dst].status
          case Online => ReachesAp(r.tables, r.tables.users[inner.dst].apAid, inner, e)
          case MovedAway => GoesAfterUser(r, inner, e)
          case Offline => false
  }

  // Along the routes; a control packet for a covered RID without a route, straight to a neighbour.
  ghost predicate PassesOn(t: Tables, q: RidPdu, e: Emission) {
    if HasRoute(t, q.dst, q.spaceId) then FollowsRoute(t, q, e)
    else IsCovered(t, q.dst) && exists nb :: IsFirst(t.routeNeighbors, NeighborWithRid(q.dst), nb) && GoesTo(e, nb, q)
  }

  ghost predicate LeavesRouter(r: Router, q: RidPdu, e: Emission) {
    if IsForAp(r.tables, q.dst) then ReachesApByRid(r.tables, q, e)
    else if Unwraps(r, q) then UnwrappedLeaves(r, q, e)
    else r.myRid != Some(q.dst) && PassesOn(r.tables, q, e)
  }

  ghost predicate RidLeaves(r: Router, p: RidPdu, e: Emission) {
    p.ttl >= 2 && LeavesRouter(r, AgedRid(p), e)
  }

  /** The redirect of a user held as moved alerts the control server with the mapping it went by,
      unless the packet is too long for the neighbour it should go to. */
  ghost predicate Alerts(r: Router, p: RidPdu, m: Signal) {
    && p.ttl >= 2 && Unwraps(r, p) && AidDeserialize(p.payload).Ok?
    && var inner := AidDeserialize(p.payload).value;
       inner.dst in r.tables.users && r.tables.users[inner.dst].status == MovedAway && AlertsAbout(r, inner, m)
  }

  ghost predicate AlertsAbout(r: Router, inner: AidPdu, m: Signal) {
    exists at, own :: Maps(r.tables, inner.dst, at) && Own(r, own)
      && m == MobilityAlert(inner.dst, own, at.mappedRid, at.remoteCrRid, "mobility_handover")
      && ((exists nb :: Leads(r.tables, at.remoteCrRid, at.spaceId, nb)) ==> 40 + |inner.payload| <= 65535)
  }

  /** A control packet for dst with the message in it. */
  predicate IsMessage(c: TextCodec, r: Router, m: Signal, dst: RID, w: RidPdu) {
    && w.payload == c.dumps(JObj(ToDict(m))) && w.dst == dst && w.spaceId == 0 && Own(r, w.src)
    && w.qos == 0 && w.dataType == ControlSignaling && w.ttl == 64
  }

  ghost predicate LeavesForControlServer(c: TextCodec, r: Router, m: Signal, e: Emission) {
    exists nb :: IsFirst(r.tables.routeNeighbors, NeighborInSpace(0), nb)
                 && exists w :: GoesTo(e, nb, w) && IsMessage(c, r, m, nb.rid, w)
  }

  /** A mapping update is learned from a control packet for the router's own RID. */
  ghost predicate Learns(c: TextCodec, r: Router, p: RidPdu, u: Signal) {
    && p.ttl >= 2 && !IsForAp(r.tables, p.dst) && r.myRid == Some(p.dst) && p.dataType == ControlSignaling
    && u.MappingUpdateNotification? && DecodeSignal(c, p.payload) == Some(u)
  }

  // --------------------------------------------------------------------- any frame at all

  /** The bytes of the Ethernet frame are a packet. */
  predicate Holds(f: EthernetFrame, p: Frame) {
    match p
    case AidFrame(a) => f.etherType == 0x1111 && AidDeserialize(f.payload) == Ok(a)
    case RidFrame(q) => f.etherType == 0x2222 && RidDeserialize(f.payload) == Ok(q)
  }

  /** On an AID packet the router sends the packet that leaves, if one does, and nothing else. */
  ghost predicate SendsForAid(r: Router, p: AidPdu, es: seq<Emission>) {
    |es| <= 1 && forall e :: e in es <==> AidLeaves(r, p, e)
  }

  ghost predicate AlertLeaves(c: TextCodec, r: Router, q: RidPdu, e: Emission) {
    exists m :: Alerts(r, q, m) && LeavesForControlServer(c, r, m, e)
  }

  /** On a RID packet it sends the packet that leaves, if one does, then the alert that leaves, if one
      does, and nothing else. */
  ghost predicate SendsForRid(c: TextCodec, r: Router, q: RidPdu, es: seq<Emission>) {
    exists a, b: seq<Emission> ::
      && es == a + b && |a| <= 1 && |b| <= 1
      && (forall e :: e in a <==> RidLeaves(r, q, e)) && (forall e :: e in b <==> AlertLeaves(c, r, q, e))
  }

  /** On bytes that hold neither it sends nothing. */
  ghost predicate SendsExactly(c: TextCodec, r: Router, f: EthernetFrame, es: seq<Emission>) {
    && (forall p :: Holds(f, AidFrame(p)) ==> SendsForAid(r, p, es))
    && (forall q :: Holds(f, RidFrame(q)) ==> SendsForRid(c, r, q, es))
    && ((forall p :: !Holds(f, p)) ==> es == [])
  }

  ghost predicate LearnsFrom(c: TextCodec, r: Router, f: EthernetFrame, u: Signal) {
    exists q :: Holds(f, RidFrame(q)) && Learns(c, r, q, u)
  }

  /** The mapping is recorded, with the space it had or else 100; if the update names this router, the
      user is online at the first AP with the update's AP RID, or at AID 0 if there is none. Nothing
      else changes. */
  ghost predicate Records(r: Router, u: Signal, r': Router)
    requires u.MappingUpdateNotification?
  {
    var t, t' := r.tables, r'.tables;
    && r'.myRid == r.myRid && t' == t.(remote := t'.remote, users := t'.users)
    && u.aid in t'.remote
    && t'.remote[u.aid].mappedRid == u.newMappedRid && t'.remote[u.aid].remoteCrRid == u.newCrRid
    && t'.remote[u.aid].spaceId == (if u.aid in t.remote then t.remote[u.aid].spaceId else 100)
    && (forall a | a != u.aid :: (a in t'.remote <==> a in t.remote) && (a in t.remote ==> t'.remote[a] == t.remote[a]))
    && if r.myRid != Some(u.newCrRid) then t'.users == t.users
       else
         && u.aid in t'.users && t'.users[u.aid].status == Online && t'.users[u.aid].attributes == ""
         && MeansAp(t.aps, u.apRid, t'.users[u.aid].apAid)
         && forall a | a != u.aid :: (a in t'.users <==> a in t.users) && (a in t.users ==> t'.users[a] == t.users[a])
  }

  ghost predicate MeansAp(aps: seq<ApEntry>, apRid: RID, aid: AID) {
    if exists ap | ap in aps :: ap.rid == apRid
    then exists ap :: IsFirst(aps, ApWithRid(apRid), ap) && ap.aid == aid
    else aid == AID(0)
  }

  /** What becomes of the router: it records the update it learns, or stays as it is. */
  ghost predicate Becomes(c: TextCodec, r: Router, f: EthernetFrame, r': Router) {
    && (forall u :: LearnsFrom(c, r, f, u) ==> u.MappingUpdateNotification? && Records(r, u, r'))
    && ((forall u :: !LearnsFrom(c, r, f, u)) ==> r' == r)
  }

  // ------------------------------------------- the functions of the model do exactly this

  lemma LeadsIsLookup(t: Tables, r: RID, spaceId: U16, nb: RouteNeighbor)
    ensures Leads(t, r, spaceId, nb)
       <==> NextHop(t.routes, r, spaceId).Some?
            && RouteNeighborOf(t.routeNeighbors, NextHop(t.routes, r, spaceId).value) == Some(nb)
  {
    var hop := NextHop(t.routes, r, spaceId);
    if hop.Some? {
      NextHopIsOfTheFirstBest(t.routes, r, spaceId, hop.value);
      RouteNeighborIsFirst(t.routeNeighbors, hop.value, nb);
    }
    if i :| FirstBest(t.routes, r, spaceId, i)
            && IsFirst(t.routeNeighbors, NeighborWithRid(t.routes[i].nextHop), nb) {
      FirstBestIsLookup(t.routes, r, spaceId, i);
    }
  }

  lemma RouteIsFollowed(t: Tables, w: RidPdu, e: Emission)
    ensures var hop := NextHop(t.routes, w.dst, w.spaceId);
            hop.Some? && ForwardTo(t, hop.value, w) == Some(e) <==> FollowsRoute(t, w, e)
  {
    forall nb
      ensures Leads(t, w.dst, w.spaceId, nb)
         <==> NextHop(t.routes, w.dst, w.spaceId).Some?
              && RouteNeighborOf(t.routeNeighbors, NextHop(t.routes, w.dst, w.spaceId).value) == Some(nb)
    {
      LeadsIsLookup(t, w.dst, w.spaceId, nb);
    }
  }

  lemma SpaceIsUsed(t: Tables, wanted: U16, s: U16)
    ensures UsesSpace(t, wanted, s) <==> CoreSpace(t, wanted) == s
  {}

  lemma MapsIsLookup(t: Tables, a: AID, m: Mapping)
    ensures Maps(t, a, m) <==> LookupAny(t.local, t.remote, a) == Some(m)
  {}

  lemma MacIsResolved(t: Tables, ap: AID, mac: Mac)
    ensures MacOfAp(t, ap, mac) <==> ApMac(t, ap) == mac
  {
    var nb := AccessNeighborOf(t.accessNeighbors, ap);
    forall x ensures nb == Some(x) <==> IsFirst(t.accessNeighbors, NeighborWithAid(ap), x) {
      AccessNeighborIsFirst(t.accessNeighbors, ap, x);
    }
  }

  lemma ApIsReached(t: Tables, ap: AID, q: AidPdu, e: Emission)
    ensures var x := ApByAid(t.aps, ap);
            x.Some? && SendAid(x.value.iface, ApMac(t, x.value.aid), q) == Some(e) <==> ReachesAp(t, ap, q, e)
  {
    forall x ensures ApByAid(t.aps, ap) == Some(x) <==> IsFirst(t.aps, ApWithAid(ap), x) {
      ApByAidIsFirst(t.aps, ap, x);
    }
    forall mac ensures MacOfAp(t, ap, mac) <==> ApMac(t, ap) == mac {
      MacIsResolved(t, ap, mac);
    }
    if ApByAid(t.aps, ap).Some? {
      assert IsFirst(t.aps, ApWithAid(ap), ApByAid(t.aps, ap).value) && MacOfAp(t, ap, ApMac(t, ap));
    }
  }

  lemma UserIsReached(t: Tables, q: AidPdu, e: Emission)
    requires OnlineHere(t, q.dst)
    ensures DeliverLocally(t, q).sent == Some(e) <==> ReachesUser(t, q, e)
  {
    forall x ensures AccessNeighborOf(t.accessNeighbors, q.dst) == Some(x)
                <==> IsFirst(t.accessNeighbors, NeighborWithAid(q.dst), x) {
      AccessNeighborIsFirst(t.accessNeighbors, q.dst, x);
    }
    ApIsReached(t, t.users[q.dst].apAid, q, e);
  }

  lemma AroundIsEncapsulated(r: Router, w: RidPdu, dst: RID, spaceId: U16, q: AidPdu)
    ensures Around(r, w, dst, spaceId, q) <==> Encapsulate(q, r.SourceRid(), dst, spaceId) == Some(w)
  {}

  lemma CoreIsEntered(r: Router, q: AidPdu, e: Emission)
    ensures EncapsulateForCore(r, q).sent == Some(e) <==> EntersCore(r, q, e)
  {
    var t := r.tables;
    forall m, s, w | Maps(t, q.dst, m) && UsesSpace(t, m.spaceId, s) && Around(r, w, m.mappedRid, s, q)
      ensures EncapsulateForCore(r, q).sent == Some(e) <==> FollowsRoute(t, w, e)
    {
      MapsIsLookup(t, q.dst, m);
      SpaceIsUsed(t, m.spaceId, s);
      AroundIsEncapsulated(r, w, m.mappedRid, s, q);
      RouteIsFollowed(t, w, e);
    }
    if EncapsulateForCore(r, q).sent.Some? {
      var m := LookupAny(t.local, t.remote, q.dst).value;
      var s := CoreSpace(t, m.spaceId);
      var w := Encapsulate(q, r.SourceRid(), m.mappedRid, s).value;
      MapsIsLookup(t, q.dst, m);
      SpaceIsUsed(t, m.spaceId, s);
      AroundIsEncapsulated(r, w, m.mappedRid, s, q);
    }
  }

  lemma PlacedByTheRules(r: Router, q: AidPdu, e: Emission)
    ensures PlaceAid(r, q).sent == Some(e) <==> LeavesForUser(r, q, e)
  {
    if OnlineHere(r.tables, q.dst) {
      UserIsReached(r.tables, q, e);
    } else {
      CoreIsEntered(r, q, e);
    }
  }

  /** An AID packet makes the router send exactly what the rules say. */
  lemma AidPacketsLeaveByTheRules(r: Router, p: AidPdu, e: Emission)
    ensures HandleAid(r, p).sent == Some(e) <==> AidLeaves(r, p, e)
  {
    if p.ttl >= 2 {
      var q := p.(ttl := p.ttl - 1);
      assert HandleAid(r, p) == PlaceAid(r, q);
      PlacedByTheRules(r, q, e);
    }
  }

  /** A packet goes into the core in the space of its mapping if the router has a space of that id,
      else in the router's first space, and in space 0 if it has none. */
  lemma EncapsulatedInTheMappingsSpace(r: Router, p: AidPdu)
    requires HandleAid(r, p).branch == Encapsulated && HandleAid(r, p).sent.Some?
    ensures exists m :: Maps(r.tables, p.dst, m) && HandleAid(r, p).sent.value.frame.RidFrame?
              && var s := HandleAid(r, p).sent.value.frame.rid.spaceId;
                 && ((exists e | e in r.tables.spaces :: e.spaceId == m.spaceId) ==> s == m.spaceId)
                 && ((forall e | e in r.tables.spaces :: e.spaceId != m.spaceId) ==>
                       s == if r.tables.spaces == [] then 0 else r.tables.spaces[0].spaceId)
  {
    AidPacketsLeaveByTheRules(r, p, HandleAid(r, p).sent.value);
    var m, s, w :| Maps(r.tables, p.dst, m) && UsesSpace(r.tables, m.spaceId, s)
                   && Around(r, w, m.mappedRid, s, AgedAid(p)) && FollowsRoute(r.tables, w, HandleAid(r, p).sent.value);
  }

  lemma ApIsReachedByRid(t: Tables, q: RidPdu, e: Emission)
    requires IsLocalRid(t, q.dst)
    ensures DeliverToAp(t, q).sent == Some(e) <==> ReachesApByRid(t, q, e)
  {
    var ap := ApByRid(t.aps, q.dst).value;
    forall x ensures x == ap <==> IsFirst(t.aps, ApWithRid(q.dst), x) {
      ApByRidIsFirst(t.aps, q.dst, x);
    }
    forall mac ensures MacOfAp(t, ap.aid, mac) <==> ApMac(t, ap.aid) == mac {
      MacIsResolved(t, ap.aid, mac);
    }
    assert IsFirst(t.aps, ApWithRid(q.dst), ap) && MacOfAp(t, ap.aid, ApMac(t, ap.aid));
  }

  lemma RedirectFollowsRoute(r: Router, w: RidPdu, inner: AidPdu, m: Mapping, e: Emission)
    requires Maps(r.tables, inner.dst, m) && Around(r, w, m.remoteCrRid, m.spaceId, inner)
    ensures Redirect(r, inner) == RedirectVia(r, w, inner.dst, m)
    ensures Redirect(r, inner).sent == Some(e) <==> FollowsRoute(r.tables, w, e)
  {
    MapsIsLookup(r.tables, inner.dst, m);
    AroundIsEncapsulated(r, w, m.remoteCrRid, m.spaceId, inner);
    assert Redirect(r, inner) == RedirectVia(r, w, inner.dst, m);
    RouteIsFollowed(r.tables, w, e);
  }

  lemma UserIsFollowed(r: Router, inner: AidPdu, e: Emission)
    ensures Redirect(r, inner).sent == Some(e) <==> GoesAfterUser(r, inner, e)
  {
    var t := r.tables;
    forall m, w | Maps(t, inner.dst, m) && Around(r, w, m.remoteCrRid, m.spaceId, inner)
      ensures Redirect(r, inner).sent == Some(e) <==> FollowsRoute(t, w, e)
    {
      RedirectFollowsRoute(r, w, inner, m, e);
    }
    if Redirect(r, inner).sent.Some? {
      var m := LookupAny(t.local, t.remote, inner.dst).value;
      var w := Encapsulate(inner, r.SourceRid(), m.remoteCrRid, m.spaceId).value;
      MapsIsLookup(t, inner.dst, m);
      AroundIsEncapsulated(r, w, m.remoteCrRid, m.spaceId, inner);
      RedirectFollowsRoute(r, w, inner, m, e);
    }
  }

  lemma UnwrappedIsSent(r: Router, q: RidPdu, e: Emission)
    ensures Decapsulate(r, q).sent == Some(e) <==> UnwrappedLeaves(r, q, e)
  {
    if AidDeserialize(q.payload).Ok? {
      var inner := AidDeserialize(q.payload).value;
      if inner.dst in r.tables.users {
        var user := r.tables.users[inner.dst];
        if user.status == Online {
          ApIsReached(r.tables, user.apAid, inner, e);
        } else if user.status == MovedAway {
          UserIsFollowed(r, inner, e);
        }
      }
    }
  }

  lemma RouteExistsWithNextHop(t: Tables, r: RID, spaceId: U16)
    ensures HasRoute(t, r, spaceId) <==> NextHop(t.routes, r, spaceId).Some?
  {
    NextHopIsOfTheFirstBest(t.routes, r, spaceId, r);
  }

  lemma CoveredBySomeSpace(t: Tables, r: RID)
    ensures IsCovered(t, r) <==> CoveringSpace(t.spaces, r).Some?
  {}

  lemma PassedOn(r: Router, q: RidPdu, e: Emission)
    requires !IsForAp(r.tables, q.dst) && r.myRid != Some(q.dst) && !Unwraps(r, q)
    ensures PassOn(r, q).sent == Some(e) <==> PassesOn(r.tables, q, e)
  {
    var t := r.tables;
    RouteExistsWithNextHop(t, q.dst, q.spaceId);
    CoveredBySomeSpace(t, q.dst);
    RouteIsFollowed(t, q, e);
    forall nb ensures RouteNeighborOf(t.routeNeighbors, q.dst) == Some(nb)
                 <==> IsFirst(t.routeNeighbors, NeighborWithRid(q.dst), nb) {
      RouteNeighborIsFirst(t.routeNeighbors, q.dst, nb);
    }
  }

  lemma UnwrappingBranch(c: TextCodec, r: Router, q: RidPdu)
    requires !IsForAp(r.tables, q.dst)
    ensures Unwraps(r, q) ==> Dispatch(c, r, q) == Decapsulate(r, q)
    ensures !Unwraps(r, q) && r.myRid == Some(q.dst) ==>
              Dispatch(c, r, q) == Outcome(Control, None, None, UpdateIn(c, q.payload))
    ensures !Unwraps(r, q) && r.myRid != Some(q.dst) ==> Dispatch(c, r, q) == PassOn(r, q)
  {
    CoveredBySomeSpace(r.tables, q.dst);
  }

  lemma DispatchedByTheRules(c: TextCodec, r: Router, q: RidPdu, e: Emission)
    ensures Dispatch(c, r, q).sent == Some(e) <==> LeavesRouter(r, q, e)
  {
    if IsForAp(r.tables, q.dst) {
      ApIsReachedByRid(r.tables, q, e);
    } else {
      UnwrappingBranch(c, r, q);
      if Unwraps(r, q) {
        UnwrappedIsSent(r, q, e);
      } else if r.myRid != Some(q.dst) {
        PassedOn(r, q, e);
      }
    }
  }

  lemma HandledByTheRules(c: TextCodec, r: Router, p: RidPdu, q: RidPdu, e: Emission)
    requires p.ttl >= 2 && q == AgedRid(p)
    ensures HandleRid(c, r, p).sent == Some(e) <==> LeavesRouter(r, q, e)
  {
    assert HandleRid(c, r, p) == Dispatch(c, r, q);
    DispatchedByTheRules(c, r, q, e);
  }

  /** And so does a RID packet. */
  lemma RidPacketsLeaveByTheRules(c: TextCodec, r: Router, p: RidPdu, e: Emission)
    ensures HandleRid(c, r, p).sent == Some(e) <==> RidLeaves(r, p, e)
  {
    if p.ttl >= 2 {
      HandledByTheRules(c, r, p, AgedRid(p), e);
    }
  }

  lemma MovedIsAlerted(r: Router, inner: AidPdu, m: Signal)
    requires |inner.payload| <= 65535
    ensures Redirect(r, inner).alert == Some(m) <==> AlertsAbout(r, inner, m)
  {
    var at := LookupAny(r.tables.local, r.tables.remote, inner.dst);
    forall x ensures Maps(r.tables, inner.dst, x) <==> at == Some(x) {
      MapsIsLookup(r.tables, inner.dst, x);
    }
    if at.Some? {
      NeighborExists(r.tables, at.value.remoteCrRid, at.value.spaceId);
      assert Maps(r.tables, inner.dst, at.value) && Own(r, r.SourceRid());
    }
  }

  lemma AlertWhenUnwrapped(r: Router, q: RidPdu, m: Signal)
    ensures Decapsulate(r, q).alert == Some(m)
       <==> && AidDeserialize(q.payload).Ok?
            && var inner := AidDeserialize(q.payload).value;
               inner.dst in r.tables.users && r.tables.users[inner.dst].status == MovedAway && AlertsAbout(r, inner, m)
  {
    if AidDeserialize(q.payload).Ok? {
      MovedIsAlerted(r, AidDeserialize(q.payload).value, m);
    }
  }

  lemma NeighborExists(t: Tables, r: RID, spaceId: U16)
    ensures (exists nb :: Leads(t, r, spaceId, nb))
       <==> NextHop(t.routes, r, spaceId).Some?
            && RouteNeighborOf(t.routeNeighbors, NextHop(t.routes, r, spaceId).value).Some?
  {
    forall nb
      ensures Leads(t, r, spaceId, nb)
         <==> NextHop(t.routes, r, spaceId).Some?
              && RouteNeighborOf(t.routeNeighbors, NextHop(t.routes, r, spaceId).value) == Some(nb)
    {
      LeadsIsLookup(t, r, spaceId, nb);
    }
  }

  /** The alerts it raises. */
  lemma AlertsAreRaisedByTheRules(c: TextCodec, r: Router, p: RidPdu, m: Signal)
    ensures HandleRid(c, r, p).alert == Some(m) <==> Alerts(r, p, m)
  {
    if p.ttl >= 2 {
      var q := p.(ttl := p.ttl - 1);
      assert HandleRid(c, r, p) == Dispatch(c, r, q);
      if !IsForAp(r.tables, q.dst) {
        UnwrappingBranch(c, r, q);
        AlertWhenUnwrapped(r, q, m);
      }
    }
  }

  /** And the updates it learns. */
  lemma UpdatesAreLearnedByTheRules(c: TextCodec, r: Router, p: RidPdu, u: Signal)
    ensures HandleRid(c, r, p).learned == Some(u) <==> Learns(c, r, p, u)
  {
    if p.ttl >= 2 {
      var q := p.(ttl := p.ttl - 1);
      assert HandleRid(c, r, p) == Dispatch(c, r, q);
      if !IsForAp(r.tables, q.dst) {
        UnwrappingBranch(c, r, q);
      }
    }
  }

  lemma ControlMessage(c: TextCodec, r: Router, m: Signal, nb: RouteNeighbor, e: Emission)
    requires ManagementNeighbor(r.tables.routeNeighbors) == Some(nb)
    ensures ToControlServer(c, r, m) == Some(e) <==> exists w :: GoesTo(e, nb, w) && IsMessage(c, r, m, nb.rid, w)
  {
    var w := RidPdu(r.SourceRid(), nb.rid, c.dumps(JObj(ToDict(m))), 0, 0, ControlSignaling, 64);
    assert ToControlServer(c, r, m) == SendRid(nb.iface, nb.mac, w);
    assert IsMessage(c, r, m, nb.rid, w);
    forall w' | IsMessage(c, r, m, nb.rid, w') ensures w' == w {}
  }

  /** An alert, or any message for the control server, leaves for the first neighbour in space 0,
      which can read it. */
  lemma MessagesLeaveForTheControlServer(c: TextCodec, r: Router, m: Signal, e: Emission)
    ensures ToControlServer(c, r, m) == Some(e) <==> LeavesForControlServer(c, r, m, e)
    ensures ToControlServer(c, r, m) == Some(e) && c.Keeps(JObj(ToDict(m))) ==>
              e.frame.RidFrame? && DecodeSignal(c, e.frame.rid.payload) == Some(m)
  {
    var nbs := r.tables.routeNeighbors;
    forall nb ensures ManagementNeighbor(nbs) == Some(nb) <==> IsFirst(nbs, NeighborInSpace(0), nb) {
      ManagementNeighborIsFirst(nbs, nb);
    }
    if ManagementNeighbor(nbs).Some? {
      ControlMessage(c, r, m, ManagementNeighbor(nbs).value, e);
      if c.Keeps(JObj(ToDict(m))) {
        SignalRoundTrip(c, m);
      }
    }
  }

  // ------------------------------------------------------------------- frames as bytes

  lemma AidPacketIsHandled(c: TextCodec, r: Router, p: AidPdu)
    ensures SendsForAid(r, p, Emissions(c, r, HandleAid(r, p)))
  {
    forall e ensures HandleAid(r, p).sent == Some(e) <==> AidLeaves(r, p, e) {
      AidPacketsLeaveByTheRules(r, p, e);
    }
  }

  // The alert part of what a router sends.
  function AlertPart(c: TextCodec, r: Router, o: Outcome): Option<Emission> {
    if o.alert.Some? then ToControlServer(c, r, o.alert.value) else None
  }

  lemma AlertLeavesByTheRules(c: TextCodec, r: Router, q: RidPdu, e: Emission)
    ensures AlertPart(c, r, HandleRid(c, r, q)) == Some(e) <==> AlertLeaves(c, r, q, e)
  {
    forall m ensures HandleRid(c, r, q).alert == Some(m) <==> Alerts(r, q, m) {
      AlertsAreRaisedByTheRules(c, r, q, m);
    }
    forall m ensures ToControlServer(c, r, m) == Some(e) <==> LeavesForControlServer(c, r, m, e) {
      MessagesLeaveForTheControlServer(c, r, m, e);
    }
  }

  lemma RidPacketIsHandled(c: TextCodec, r: Router, q: RidPdu)
    ensures SendsForRid(c, r, q, Emissions(c, r, HandleRid(c, r, q)))
  {
    var o := HandleRid(c, r, q);
    var a := if o.sent.Some? then [o.sent.value] else [];
    var alert := AlertPart(c, r, o);
    var b := if alert.Some? then [alert.value] else [];
    forall e ensures (e in a <==> RidLeaves(r, q, e)) && (e in b <==> AlertLeaves(c, r, q, e)) {
      RidPacketsLeaveByTheRules(c, r, q, e);
      AlertLeavesByTheRules(c, r, q, e);
    }
    assert Emissions(c, r, o) == a + b;
  }

  /** Whatever bytes come in, what the router sends is what the rules say. */
  lemma FramesAreHandledByTheRules(c: TextCodec, r: Router, f: EthernetFrame)
    ensures SendsExactly(c, r, f, Emissions(c, r, OnFrame(c, r, f)))
  {
    forall p | Holds(f, AidFrame(p)) ensures SendsForAid(r, p, Emissions(c, r, OnFrame(c, r, f))) {
      AidPacketIsHandled(c, r, p);
    }
    forall q | Holds(f, RidFrame(q)) ensures SendsForRid(c, r, q, Emissions(c, r, OnFrame(c, r, f))) {
      RidPacketIsHandled(c, r, q);
    }
    if OnFrame(c, r, f) != Ends(Malformed) {
      PacketInside(c, r, f);
    }
  }

  lemma PacketInside(c: TextCodec, r: Router, f: EthernetFrame)
    requires OnFrame(c, r, f) != Ends(Malformed)
    ensures exists p :: Holds(f, p)
  {
    if f.etherType == ETHERTYPE_AID {
      assert Holds(f, AidFrame(AidDeserialize(f.payload).value));
    } else {
      assert Holds(f, RidFrame(RidDeserialize(f.payload).value));
    }
  }

  lemma FrameUpdatesByTheRules(c: TextCodec, r: Router, f: EthernetFrame, u: Signal)
    ensures OnFrame(c, r, f).learned == Some(u) <==> LearnsFrom(c, r, f, u)
  {
    forall q | Holds(f, RidFrame(q)) ensures OnFrame(c, r, f).learned == Some(u) <==> Learns(c, r, q, u) {
      UpdatesAreLearnedByTheRules(c, r, q, u);
    }
    if OnFrame(c, r, f).learned.Some? {
      assert Holds(f, RidFrame(RidDeserialize(f.payload).value));
    }
  }

  lemma UpdatesAreRecorded(r: Router, u: Signal)
    requires u.MappingUpdateNotification?
    ensures Records(r, u, Learn(r, u))
  {
    var aps := r.tables.aps;
    if ApByRid(aps, u.apRid).Some? {
      ApByRidIsFirst(aps, u.apRid, ApByRid(aps, u.apRid).value);
    }
    assert MeansAp(aps, u.apRid, ApFor(aps, u.apRid));
  }

  /** And so is what becomes of its tables. */
  lemma FramesAreLearnedByTheRules(c: TextCodec, r: Router, f: EthernetFrame)
    ensures Becomes(c, r, f, After(r, OnFrame(c, r, f)))
  {
    var learned := OnFrame(c, r, f).learned;
    forall u ensures learned == Some(u) <==> LearnsFrom(c, r, f, u) {
      FrameUpdatesByTheRules(c, r, f, u);
    }
    if learned.Some? {
      UpdatesAreRecorded(r, learned.value);
    }
  }
}
