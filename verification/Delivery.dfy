// End-to-end delivery: what becomes of an AID packet that a router encapsulates, hop by hop
// through a network of core routers.

module Delivery {
  import opened Wrappers
  import opened Orbits
  import opened Addressing
  import opened Packets
  import opened CrTables
  import opened RidRouting
  import opened MappingStore
  import opened Signaling
  import opened Forwarding
  import opened RouterRules

  // wire says which router is at the other end of a router's core-side interface.
  datatype Net = Net(routers: map<nat, Router>, wire: map<(nat, int), nat>)

  datatype Hop = Hop(at: nat, frame: Frame)

  /** The router that receives what router h.at sends on for frame h.frame. */
  function Next(c: TextCodec, net: Net, h: Hop): Option<Hop> {
    if h.at !in net.routers then None
    else
      match Handle(c, net.routers[h.at], h.frame).sent
      case None => None
      case Some(e) => if (h.at, e.iface) in net.wire then Some(Hop(net.wire[(h.at, e.iface)], e.frame)) else None
  }

  function Onward(c: TextCodec, net: Net): Hop -> Option<Hop> {
    h => Next(c, net, h)
  }

  function Travel(c: TextCodec, net: Net, h: Hop, n: nat): Option<Hop> {
    Orbit(Onward(c, net), h, n)
  }

  // ------------------------------------------------------------------------ hypotheses

  /** a's routes for r lead to a neighbour, and the wire to it ends at router b. */
  ghost predicate CoreNext(net: Net, a: nat, r: RID, spaceId: U16, b: nat) {
    a in net.routers && exists nb :: Leads(net.routers[a].tables, r, spaceId, nb) && WiredTo(net, a, nb.iface, b)
  }

  predicate WiredTo(net: Net, a: nat, iface: int, b: nat) {
    (a, iface) in net.wire && net.wire[(a, iface)] == b
  }

  /** r is neither this router's RID nor an associated AP's, and no space of the router covers it. */
  predicate Transits(rt: Router, r: RID) {
    !IsLocalRid(rt.tables, r) && rt.myRid != Some(r) && CoveringSpace(rt.tables.spaces, r).None?
  }

  ghost predicate CorePath(net: Net, path: seq<nat>, r: RID, spaceId: U16) {
    && |path| >= 2
    && (forall i | 0 <= i < |path| :: path[i] in net.routers)
    && (forall i | 0 <= i < |path| - 1 :: CoreNext(net, path[i], r, spaceId, path[i + 1]))
    && (forall i | 0 < i < |path| - 1 :: Transits(net.routers[path[i]], r))
  }

  /** The router sends packets for user a to r, in the given space. */
  ghost predicate SendsTo(rt: Router, a: AID, r: RID, spaceId: U16) {
    !OnlineHere(rt.tables, a)
    && exists m :: Maps(rt.tables, a, m) && m.mappedRid == r && UsesSpace(rt.tables, m.spaceId, spaceId)
  }

  /** The router unwraps user packets for r, its own RID or one in its spaces, and serves user a
      through AP ap. */
  predicate Home(rt: Router, r: RID, a: AID, ap: ApEntry) {
    && (rt.myRid == Some(r) || CoveringSpace(rt.tables.spaces, r).Some?) && !IsLocalRid(rt.tables, r)
    && ServedBy(rt.tables, a, ap)
  }

  // A user packet that fits into a RID packet.
  predicate Carriable(p: AidPdu) {
    p.dataType.UserData? && |p.payload| <= MAX_PAYLOAD - AID_HEADER_BYTES
  }

  predicate Sendable(p: AidPdu) {
    Carriable(p) && p.ttl >= 2
  }

  // ------------------------------------------------------------------------- hop by hop

  // The RID packet that an origin, or a redirect, makes of p.
  function Wrapped(rt: Router, p: AidPdu, r: RID, spaceId: U16): RidPdu
    requires Carriable(p)
  {
    RidPdu(rt.SourceRid(), r, AidSerialize(p).value, 0, spaceId, UserData, DEFAULT_TTL)
  }

  // What the routes and the wire do with a packet for r.
  lemma ForwardedTo(net: Net, a: nat, b: nat, w: RidPdu) returns (nb: RouteNeighbor)
    requires CoreNext(net, a, w.dst, w.spaceId, b) && |w.payload| <= MAX_PAYLOAD
    ensures WiredTo(net, a, nb.iface, b)
    ensures var t := net.routers[a].tables; var hop := NextHop(t.routes, w.dst, w.spaceId);
            hop.Some? && ForwardTo(t, hop.value, w) == Some(Emission(nb.iface, nb.mac, RidFrame(w)))
  {
    nb :| Leads(net.routers[a].tables, w.dst, w.spaceId, nb) && WiredTo(net, a, nb.iface, b);
    LeadsIsLookup(net.routers[a].tables, w.dst, w.spaceId, nb);
  }

  lemma OriginWraps(rt: Router, p: AidPdu, q: AidPdu, r: RID, spaceId: U16)
    requires Sendable(p) && q == AgedAid(p) && SendsTo(rt, p.dst, r, spaceId)
    ensures HandleAid(rt, p) == SendIntoCore(rt.tables, Wrapped(rt, q, r, spaceId))
  {
    var m :| Maps(rt.tables, p.dst, m) && m.mappedRid == r && UsesSpace(rt.tables, m.spaceId, spaceId);
    MapsIsLookup(rt.tables, p.dst, m);
    SpaceIsUsed(rt.tables, m.spaceId, spaceId);
    assert Encapsulate(q, rt.SourceRid(), m.mappedRid, spaceId) == Some(Wrapped(rt, q, r, spaceId));
    assert HandleAid(rt, p) == EncapsulateForCore(rt, q);
  }

  lemma FirstHop(c: TextCodec, net: Net, a: nat, b: nat, p: AidPdu, r: RID, spaceId: U16)
    requires Sendable(p) && a in net.routers && SendsTo(net.routers[a], p.dst, r, spaceId)
    requires CoreNext(net, a, r, spaceId, b)
    ensures Next(c, net, Hop(a, AidFrame(p))) == Some(Hop(b, RidFrame(Wrapped(net.routers[a], AgedAid(p), r, spaceId))))
  {
    var w := Wrapped(net.routers[a], AgedAid(p), r, spaceId);
    OriginWraps(net.routers[a], p, AgedAid(p), r, spaceId);
    var nb := ForwardedTo(net, a, b, w);
    assert Handle(c, net.routers[a], AidFrame(p)).sent == Some(Emission(nb.iface, nb.mac, RidFrame(w)));
  }

  lemma TransitSends(c: TextCodec, rt: Router, q: RidPdu)
    requires Transits(rt, q.dst)
    ensures HandleRid(c, rt, q) == if q.ttl >= 2 then RouteOn(rt.tables, AgedRid(q)) else Ends(Expired)
  {
    if q.ttl >= 2 {
      assert HandleRid(c, rt, q) == Dispatch(c, rt, AgedRid(q));
    }
  }

  lemma TransitHop(c: TextCodec, net: Net, a: nat, b: nat, q: RidPdu)
    requires a in net.routers && Transits(net.routers[a], q.dst) && |q.payload| <= MAX_PAYLOAD
    requires CoreNext(net, a, q.dst, q.spaceId, b)
    ensures q.ttl >= 2 ==> Next(c, net, Hop(a, RidFrame(q))) == Some(Hop(b, RidFrame(AgedRid(q))))
    ensures q.ttl < 2 ==> Handle(c, net.routers[a], RidFrame(q)) == Ends(Expired)
  {
    TransitSends(c, net.routers[a], q);
    if q.ttl >= 2 {
      var nb := ForwardedTo(net, a, b, AgedRid(q));
      assert Handle(c, net.routers[a], RidFrame(q)).sent == Some(Emission(nb.iface, nb.mac, RidFrame(AgedRid(q))));
    }
  }

  // The router at the start of the path sends w on, towards w.dst.
  ghost predicate Launches(c: TextCodec, net: Net, path: seq<nat>, start: Hop, w: RidPdu) {
    && CorePath(net, path, w.dst, w.spaceId) && |w.payload| <= MAX_PAYLOAD && w.ttl == DEFAULT_TTL
    && Next(c, net, start) == Some(Hop(path[1], RidFrame(w)))
  }

  /** After k hops the packet is at the k-th router of the path with k - 1 less TTL, as long as
      TTL lasts. */
  lemma {:induction false} OnThePath(c: TextCodec, net: Net, path: seq<nat>, start: Hop, w: RidPdu, k: nat)
    requires Launches(c, net, path, start, w)
    requires 1 <= k < |path| && k <= 64
    ensures Travel(c, net, start, k) == Some(Hop(path[k], RidFrame(w.(ttl := 65 - k))))
    decreases k
  {
    if k == 1 {
      assert Travel(c, net, start, 0) == Some(start);
    } else {
      OnThePath(c, net, path, start, w, k - 1);
      TransitHop(c, net, path[k - 1], path[k], w.(ttl := 66 - k));
    }
  }

  lemma HomeDelivers(c: TextCodec, rt: Router, q: RidPdu, inner: AidPdu, ap: ApEntry)
    requires Home(rt, q.dst, inner.dst, ap) && q.dataType.UserData? && q.ttl >= 2
    requires |inner.payload| <= MAX_PAYLOAD && AidSerialize(inner) == Some(q.payload)
    ensures HandleRid(c, rt, q)
         == Sends(Delivered, Some(Emission(ap.iface, ApMac(rt.tables, ap.aid), AidFrame(inner))))
  {
    AidRoundTrip(inner, []);
    assert q.payload + [] == q.payload;
    assert HandleRid(c, rt, q) == Dispatch(c, rt, AgedRid(q));
    assert Dispatch(c, rt, AgedRid(q)) == Decapsulate(rt, AgedRid(q));
  }

  /** After n hops the frame is at router `at`, which then decides o. */
  predicate EndsAs(c: TextCodec, net: Net, start: Hop, n: nat, at: nat, o: Outcome) {
    var last := Travel(c, net, start, n);
    last.Some? && last.value.at == at && at in net.routers && Handle(c, net.routers[at], last.value.frame) == o
  }

  /** The packet goes to the AP. */
  function ToTheAp(rt: Router, p: AidPdu, ap: ApEntry): Outcome {
    Sends(Delivered, Some(Emission(ap.iface, ApMac(rt.tables, ap.aid), AidFrame(p))))
  }

  /** The packet goes to the AP unchanged but for one TTL. */
  function HandedOver(rt: Router, p: AidPdu, ap: ApEntry): Outcome
    requires p.ttl >= 2
  {
    ToTheAp(rt, AgedAid(p), ap)
  }

  /** A packet launched towards a router at most 63 hops away ends at the AP of its user there. */
  lemma LaunchedIsDelivered(c: TextCodec, net: Net, path: seq<nat>, start: Hop, w: RidPdu, inner: AidPdu,
                            ap: ApEntry, home: nat)
    requires Launches(c, net, path, start, w) && |path| <= 64 && home == path[|path| - 1]
    requires w.dataType.UserData? && |inner.payload| <= MAX_PAYLOAD && AidSerialize(inner) == Some(w.payload)
    requires Home(net.routers[home], w.dst, inner.dst, ap)
    ensures EndsAs(c, net, start, |path| - 1, home, ToTheAp(net.routers[home], inner, ap))
  {
    var hops := |path| - 1;
    OnThePath(c, net, path, start, w, hops);
    HomeDelivers(c, net.routers[home], w.(ttl := 65 - hops), inner, ap);
  }

  lemma OriginLaunches(c: TextCodec, net: Net, path: seq<nat>, p: AidPdu, r: RID, spaceId: U16, start: Hop)
    requires CorePath(net, path, r, spaceId) && Sendable(p)
    requires SendsTo(net.routers[path[0]], p.dst, r, spaceId) && start == Hop(path[0], AidFrame(p))
    ensures Launches(c, net, path, start, Wrapped(net.routers[path[0]], AgedAid(p), r, spaceId))
  {
    FirstHop(c, net, path[0], path[1], p, r, spaceId);
  }

  lemma NearbyIsDelivered(c: TextCodec, net: Net, path: seq<nat>, p: AidPdu, r: RID, spaceId: U16, ap: ApEntry,
                          start: Hop, home: nat)
    requires CorePath(net, path, r, spaceId) && Sendable(p)
    requires SendsTo(net.routers[path[0]], p.dst, r, spaceId)
    requires start == Hop(path[0], AidFrame(p)) && home == path[|path| - 1]
    requires Home(net.routers[home], r, p.dst, ap)
    requires |path| <= 64
    ensures EndsAs(c, net, start, |path| - 1, home, HandedOver(net.routers[home], p, ap))
  {
    var w, q := Wrapped(net.routers[path[0]], AgedAid(p), r, spaceId), AgedAid(p);
    OriginLaunches(c, net, path, p, r, spaceId, start);
    LaunchedIsDelivered(c, net, path, start, w, q, ap, home);
  }

  lemma FarIsExpired(c: TextCodec, net: Net, path: seq<nat>, p: AidPdu, r: RID, spaceId: U16, start: Hop)
    requires CorePath(net, path, r, spaceId) && Sendable(p)
    requires SendsTo(net.routers[path[0]], p.dst, r, spaceId)
    requires start == Hop(path[0], AidFrame(p)) && |path| > 64
    ensures EndsAs(c, net, start, 64, path[64], Ends(Expired))
    ensures Travel(c, net, start, 65).None?
  {
    OriginLaunches(c, net, path, p, r, spaceId, start);
    var w := Wrapped(net.routers[path[0]], AgedAid(p), r, spaceId);
    OnThePath(c, net, path, start, w, 64);
    assert Next(c, net, Hop(path[64], RidFrame(w.(ttl := 1)))).None?;
  }

  /** A user packet of at most 65495 bytes, encapsulated for the router that serves its user,
      is handed to the serving AP, unchanged but for one TTL, exactly when that router is at
      most 63 core hops away; otherwise its TTL runs out at the 64th router. */
  lemma DeliveredExactlyWithin63Hops(c: TextCodec, net: Net, path: seq<nat>, p: AidPdu, r: RID, spaceId: U16,
                                     ap: ApEntry, start: Hop, home: nat)
    requires CorePath(net, path, r, spaceId) && Sendable(p)
    requires SendsTo(net.routers[path[0]], p.dst, r, spaceId)
    requires start == Hop(path[0], AidFrame(p)) && home == path[|path| - 1]
    requires Home(net.routers[home], r, p.dst, ap)
    ensures EndsAs(c, net, start, |path| - 1, home, HandedOver(net.routers[home], p, ap)) <==> |path| - 1 <= 63
    ensures |path| - 1 > 63 ==> EndsAs(c, net, start, 64, path[64], Ends(Expired))
  {
    if |path| <= 64 {
      NearbyIsDelivered(c, net, path, p, r, spaceId, ap, start, home);
    } else {
      FarIsExpired(c, net, path, p, r, spaceId, start);
      var expired := Ends(Expired);
      assert HandedOver(net.routers[home], p, ap) != expired;
      if |path| > 65 {
        StoppedStaysStopped(Onward(c, net), start, 65, |path| - 1);
      }
    }
  }

  // ------------------------------------------------------------------------- redirects

  /** Router rt takes a RID packet that carries p, holds p's user as moved, and its mapping
      names router r, in the given space. */
  predicate RedirectsTo(rt: Router, q: RidPdu, p: AidPdu, r: RID, spaceId: U16) {
    && rt.myRid == Some(q.dst) && !IsLocalRid(rt.tables, q.dst)
    && q.dataType.UserData? && q.ttl >= 2 && AidDeserialize(q.payload) == Ok(p)
    && p.dst in rt.tables.users && rt.tables.users[p.dst].status == MovedAway
    && var m := LookupAny(rt.tables.local, rt.tables.remote, p.dst);
       m.Some? && m.value.remoteCrRid == r && m.value.spaceId == spaceId
  }

  lemma RedirectLaunches(c: TextCodec, net: Net, path: seq<nat>, q: RidPdu, p: AidPdu, r: RID, spaceId: U16, start: Hop)
    requires CorePath(net, path, r, spaceId) && Carriable(p)
    requires RedirectsTo(net.routers[path[0]], q, p, r, spaceId) && start == Hop(path[0], RidFrame(q))
    ensures Launches(c, net, path, start, Wrapped(net.routers[path[0]], p, r, spaceId))
    ensures Handle(c, net.routers[path[0]], start.frame).branch == Redirected
  {
    var rt := net.routers[path[0]];
    var w := Wrapped(rt, p, r, spaceId);
    var m := LookupAny(rt.tables.local, rt.tables.remote, p.dst).value;
    assert Encapsulate(p, rt.SourceRid(), m.remoteCrRid, m.spaceId) == Some(w);
    assert HandleRid(c, rt, q) == RedirectVia(rt, w, p.dst, m);
    var nb := ForwardedTo(net, path[0], path[1], w);
  }

  /** A user packet for u inside a RID packet for r, with TTL to spare. */
  predicate Carries(f: Frame, r: RID, p: AidPdu) {
    && f.RidFrame? && f.rid.dst == r && f.rid.dataType.UserData? && f.rid.ttl >= 2
    && AidDeserialize(f.rid.payload) == Ok(p)
  }

  lemma WrappedCarries(rt: Router, p: AidPdu, r: RID, spaceId: U16, ttl: nat)
    requires Carriable(p) && 2 <= ttl <= DEFAULT_TTL
    ensures Carries(RidFrame(Wrapped(rt, p, r, spaceId).(ttl := ttl)), r, p)
  {
    AidRoundTrip(p, []);
    assert AidSerialize(p).value + [] == AidSerialize(p).value;
  }

  /** A redirected packet arrives, unchanged, at the router the mapping names if that is at most
      63 hops away, however many hops it has come before. */
  lemma RedirectedArrives(c: TextCodec, net: Net, path: seq<nat>, q: RidPdu, p: AidPdu, r: RID, spaceId: U16,
                          start: Hop)
    requires CorePath(net, path, r, spaceId) && |path| <= 64 && Carriable(p)
    requires RedirectsTo(net.routers[path[0]], q, p, r, spaceId) && start == Hop(path[0], RidFrame(q))
    ensures var last := Travel(c, net, start, |path| - 1);
            last.Some? && last.value.at == path[|path| - 1] && Carries(last.value.frame, r, p)
  {
    RedirectLaunches(c, net, path, q, p, r, spaceId, start);
    OnThePath(c, net, path, start, Wrapped(net.routers[path[0]], p, r, spaceId), |path| - 1);
    WrappedCarries(net.routers[path[0]], p, r, spaceId, 66 - |path|);
  }

  /** At a router that serves the user, it is then handed to the AP. */
  lemma RedirectedIsDelivered(c: TextCodec, net: Net, path: seq<nat>, q: RidPdu, p: AidPdu, r: RID, spaceId: U16,
                              ap: ApEntry, start: Hop, home: nat)
    requires CorePath(net, path, r, spaceId) && |path| <= 64
    requires RedirectsTo(net.routers[path[0]], q, p, r, spaceId) && Carriable(p)
    requires start == Hop(path[0], RidFrame(q)) && home == path[|path| - 1]
    requires Home(net.routers[home], r, p.dst, ap)
    ensures EndsAs(c, net, start, |path| - 1, home, ToTheAp(net.routers[home], p, ap))
  {
    RedirectLaunches(c, net, path, q, p, r, spaceId, start);
    LaunchedIsDelivered(c, net, path, start, Wrapped(net.routers[path[0]], p, r, spaceId), p, ap, home);
  }

  // --------------------------------------------------------------------- paths by rank

  /** At a the rank is 0, and a is the home router; or a is in transit for r, and its routes lead to
      a router of lower rank. */
  ghost predicate RankFalls(net: Net, rank: map<nat, nat>, home: nat, r: RID, spaceId: U16, a: nat)
    requires a in rank
  {
    && a in net.routers
    && (rank[a] == 0 ==> a == home)
    && (rank[a] > 0 ==>
          Transits(net.routers[a], r)
          && exists b :: CoreNext(net, a, r, spaceId, b) && b in rank && rank[b] < rank[a])
  }

  /** Along the routes towards r the rank falls, to 0 at the home router only, through routers
      that are in transit for r. */
  ghost predicate RanksTowards(net: Net, rank: map<nat, nat>, home: nat, r: RID, spaceId: U16) {
    forall a {:trigger RankFalls(net, rank, home, r, spaceId, a)} | a in rank ::
      RankFalls(net, rank, home, r, spaceId, a)
  }

  lemma {:induction false} FollowRank(net: Net, rank: map<nat, nat>, home: nat, r: RID, spaceId: U16, a: nat)
    returns (path: seq<nat>)
    requires RanksTowards(net, rank, home, r, spaceId) && a in rank
    ensures 1 <= |path| <= rank[a] + 1 && path[0] == a && path[|path| - 1] == home
    ensures forall i | 0 <= i < |path| :: path[i] in net.routers
    ensures forall i | 0 <= i < |path| - 1 :: CoreNext(net, path[i], r, spaceId, path[i + 1])
    ensures forall i | 0 <= i < |path| - 1 :: Transits(net.routers[path[i]], r)
    decreases rank[a]
  {
    assert RankFalls(net, rank, home, r, spaceId, a);
    if rank[a] == 0 {
      path := [a];
    } else {
      var b :| CoreNext(net, a, r, spaceId, b) && b in rank && rank[b] < rank[a];
      var rest := FollowRank(net, rank, home, r, spaceId, b);
      path := [a] + rest;
    }
  }

  lemma PathByRank(net: Net, rank: map<nat, nat>, origin: nat, first: nat, home: nat, r: RID, spaceId: U16)
    returns (path: seq<nat>)
    requires RanksTowards(net, rank, home, r, spaceId) && origin in net.routers
    requires CoreNext(net, origin, r, spaceId, first) && first in rank
    ensures CorePath(net, path, r, spaceId) && path[0] == origin && path[|path| - 1] == home
    ensures |path| <= rank[first] + 2
  {
    var rest := FollowRank(net, rank, home, r, spaceId, first);
    path := [origin] + rest;
    assert forall i | 0 < i < |path| :: path[i] == rest[i - 1];
  }

  /** Wherever a rank of at most 62 falls along the next hops from the origin's neighbour to the
      home router, the packet is delivered. */
  lemma DeliveredByRank(c: TextCodec, net: Net, rank: map<nat, nat>, origin: nat, first: nat, home: nat,
                        p: AidPdu, r: RID, spaceId: U16, ap: ApEntry, start: Hop) returns (hops: nat)
    requires RanksTowards(net, rank, home, r, spaceId) && Sendable(p)
    requires origin in net.routers && SendsTo(net.routers[origin], p.dst, r, spaceId)
    requires CoreNext(net, origin, r, spaceId, first) && first in rank && rank[first] <= 62
    requires home in net.routers && Home(net.routers[home], r, p.dst, ap)
    requires start == Hop(origin, AidFrame(p))
    ensures 1 <= hops <= 63
    ensures EndsAs(c, net, start, hops, home, HandedOver(net.routers[home], p, ap))
  {
    var path := PathByRank(net, rank, origin, first, home, r, spaceId);
    hops := |path| - 1;
    NearbyIsDelivered(c, net, path, p, r, spaceId, ap, start, home);
  }
}
