// The control plane and the data plane together: registered users can be reached.

module Reachability {
  import opened Wrappers
  import opened Orbits
  import opened Addressing
  import opened Packets
  import opened CrTables
  import opened MappingStore
  import opened Signaling
  import opened Forwarding
  import opened RouterRules
  import opened ControlService
  import opened AccessPoints
  import opened Replication
  import opened Delivery
  import opened Lifetimes
  import opened Redirection

  // A registration, once its notifications have been taken, makes the user reachable from any managed
  // router, directly or by way of the router the user has left.

  /** A run of the control plane that leaves serving routers alone and whose latest event for the
      user is registration m, made by an AP of the router it maps the user to. */
  ghost predicate Registers(g: Config, s: Plane, es: seq<Event>, m: Signal) {
    && WellFormed(g, s) && s.registry == map[] && CanRun(g, s, es) && LeavesServingAlone(g, s, es)
    && m.MappingRegisterRequest? && LastNotice(g, es, m.aid) == NotificationFor(g.apToCr, m)
    && Belongs(g.apToCr, m.apRid, m.mappedRid)
  }

  /** The router has no notification left to take. */
  predicate Drained(t: Plane, c: RID) {
    c in t.routers && c in t.channels && t.channels[c] == []
  }

  /** ap is the only AP with the registering RID, and no AP has the router's own. */
  predicate HasAp(rt: Router, own: RID, apRid: RID, ap: ApEntry) {
    var aps := rt.tables.aps;
    && UniqueAps(aps) && ap in aps && ap.rid == apRid
    && (forall other | other in aps && other.rid == apRid :: other == ap)
    && (forall other | other in aps :: other.rid != own)
  }

  lemma {:induction false} RegisteredIsRecorded(g: Config, s: Plane, es: seq<Event>, a: AID)
    requires CanRun(g, s, es) && LastNotice(g, es, a).Some?
    ensures a in Run(g, s, es).registry
    decreases |es|
  {
    var e := es[|es| - 1];
    var u := if e.CsReceives? then NotificationFor(g.apToCr, e.m) else None;
    if !(u.Some? && Concerns(u.value, a)) {
      RegisteredIsRecorded(g, s, es[..|es| - 1], a);
    }
  }

  lemma HomeServes(g: Config, s: Plane, es: seq<Event>, m: Signal, ap: ApEntry)
    requires Registers(g, s, es, m) && m.aid in Run(g, s, es).registry && Drained(Run(g, s, es), m.mappedRid)
    requires HasAp(Run(g, s, es).routers[m.mappedRid], m.mappedRid, m.apRid, ap)
    ensures Home(Run(g, s, es).routers[m.mappedRid], m.mappedRid, m.aid, ap)
  {
    ServingInvariant(g, s, es, m.aid);
    ReplicationInvariant(g, s, es);
    DrainedRouterRecordsTheAp(g, s, es, m.aid, m, ap);
    ApByAidOfUnique(Run(g, s, es).routers[m.mappedRid].tables.aps, ap);
  }

  lemma DrainedRouterKnows(g: Config, s: Plane, es: seq<Event>, m: Signal, c: RID)
    requires Registers(g, s, es, m) && m.aid in Run(g, s, es).registry && Drained(Run(g, s, es), c)
    ensures Run(g, s, es).routers[c].myRid == Some(c)
    ensures var remote := Run(g, s, es).routers[c].tables.remote;
            m.aid in remote && remote[m.aid].mappedRid == m.mappedRid && remote[m.aid].remoteCrRid == m.mappedRid
  {
    ServingInvariant(g, s, es, m.aid);
    ReplicationInvariant(g, s, es);
    DrainedRoutersAgree(g, s, es, c, c, m.aid);
  }

  /** The router does not serve the user, its local mapping, if it has one, names RID r, and the
      space it would send the user's packets in is spaceId. */
  predicate FreeToSend(rt: Router, a: AID, r: RID, spaceId: U16) {
    && !IsLocalAid(rt.tables, a) && (a in rt.tables.local ==> rt.tables.local[a] == r)
    && var m := MappingOf(rt, a);
       m.Some? ==> UsesSpace(rt.tables, m.value.spaceId, spaceId)
  }

  /** Of the drained routers that do not serve the user, those send to the registered RID whose local
      mapping does not say otherwise; the others send to the RID of their local mapping. */
  lemma DrainedRouterSendsExactlyUnlessShadowed(g: Config, s: Plane, es: seq<Event>, m: Signal, c: RID, spaceId: U16)
    requires Registers(g, s, es, m) && m.aid in Run(g, s, es).registry && Drained(Run(g, s, es), c)
    requires var rt := Run(g, s, es).routers[c];
             !IsLocalAid(rt.tables, m.aid)
             && (MappingOf(rt, m.aid).Some? ==> UsesSpace(rt.tables, MappingOf(rt, m.aid).value.spaceId, spaceId))
    ensures var rt := Run(g, s, es).routers[c];
            && (SendsTo(rt, m.aid, m.mappedRid, spaceId) <==> FreeToSend(rt, m.aid, m.mappedRid, spaceId))
            && (m.aid in rt.tables.local ==> SendsTo(rt, m.aid, rt.tables.local[m.aid], spaceId))
  {
    DrainedRouterKnows(g, s, es, m, c);
  }

  lemma OriginSends(g: Config, s: Plane, es: seq<Event>, m: Signal, c: RID, spaceId: U16)
    requires Registers(g, s, es, m) && m.aid in Run(g, s, es).registry && Drained(Run(g, s, es), c)
    requires FreeToSend(Run(g, s, es).routers[c], m.aid, m.mappedRid, spaceId)
    ensures SendsTo(Run(g, s, es).routers[c], m.aid, m.mappedRid, spaceId)
  {
    DrainedRouterSendsExactlyUnlessShadowed(g, s, es, m, c, spaceId);
  }

  // ----------------------------------------------------------------- a drained origin

  /** After such a run, if the origin and the home router have no notification left to take, a
      user packet that enters the core at the origin leaves, at most 63 hops on, at the
      registering AP's interface, unchanged but for one TTL. */
  lemma RegisteredUserIsReachable(
      g: Config, s: Plane, es: seq<Event>, m: Signal, ap: ApEntry,
      c: TextCodec, net: Net, name: map<nat, RID>, path: seq<nat>, p: AidPdu, spaceId: U16)
    requires Registers(g, s, es, m) && IsMadeOf(net, Run(g, s, es), name)
    requires CorePath(net, path, m.mappedRid, spaceId) && |path| <= 64 && name[path[|path| - 1]] == m.mappedRid
    requires Drained(Run(g, s, es), name[path[0]]) && Drained(Run(g, s, es), m.mappedRid)
    requires HasAp(net.routers[path[|path| - 1]], m.mappedRid, m.apRid, ap)
    // the user is not attached at the origin, whose mapping's space leads to spaceId
    requires FreeToSend(net.routers[path[0]], m.aid, m.mappedRid, spaceId)
    requires Sendable(p) && p.dst == m.aid
    ensures var home := path[|path| - 1];
            EndsAs(c, net, Hop(path[0], AidFrame(p)), |path| - 1, home, HandedOver(net.routers[home], p, ap))
  {
    RegisteredIsRecorded(g, s, es, m.aid);
    HomeServes(g, s, es, m, ap);
    OriginSends(g, s, es, m, name[path[0]], spaceId);
    NearbyIsDelivered(c, net, path, p, m.mappedRid, spaceId, ap, Hop(path[0], AidFrame(p)), path[|path| - 1]);
  }

  /** Access points behind the routers' interfaces. */
  datatype Access = Access(wire: map<(nat, int), nat>, aps: map<nat, ApState>)

  /** n hops on, the home router hands the packet to access point `at`, which sends it to the user. */
  predicate ReachesUser(c: TextCodec, net: Net, start: Hop, n: nat, home: nat, access: Access, at: nat, mac: Mac,
                        q: AidPdu) {
    var last := Travel(c, net, start, n);
    && last.Some? && last.value.at == home && home in net.routers
    && var e := Handle(c, net.routers[home], last.value.frame).sent;
       && e.Some? && (home, e.value.iface) in access.wire && access.wire[(home, e.value.iface)] == at
       && at in access.aps
       && Bridge(access.aps[at], e.value.frame) == Some(Emission(access.aps[at].accessIface, mac, AidFrame(q)))
  }

  lemma HandedDown(c: TextCodec, net: Net, start: Hop, n: nat, home: nat, access: Access, at: nat, ap: ApEntry,
                   p: AidPdu, q: AidPdu, mac: Mac)
    requires Sendable(p) && q == AgedAid(p)
    requires home in net.routers && EndsAs(c, net, start, n, home, HandedOver(net.routers[home], p, ap))
    requires (home, ap.iface) in access.wire && access.wire[(home, ap.iface)] == at && at in access.aps
    requires p.dst in access.aps[at].users && access.aps[at].users[p.dst] == mac
    ensures ReachesUser(c, net, start, n, home, access, at, mac, q)
  {
    var e := Emission(ap.iface, ApMac(net.routers[home].tables, ap.aid), AidFrame(q));
    assert HandedOver(net.routers[home], p, ap).sent == Some(e);
  }

  /** An access point that activates a user makes it reachable. If the registration in the first
      packet of the activation is the latest that the control server has acted on, and the access
      point is behind the interface of the router's entry for it, the user's packets, from a
      drained origin, come to the access point, which sends them to the user. */
  lemma ActivatedUserIsReachable(
      g: Config, s: Plane, es: seq<Event>, id: Identity, m: Signal, ap: ApEntry, access: Access, at: nat,
      users: map<AID, LocalUser>, user: LocalUser,
      c: TextCodec, net: Net, name: map<nat, RID>, path: seq<nat>, p: AidPdu, q: AidPdu, spaceId: U16)
    requires id.crRid.Some? && id.rid.Some? && c.Keeps(JObj(ToDict(RegisterRequest(id, p.dst))))
    requires Belongs(g.apToCr, id.rid.value, id.crRid.value)
    requires DecodeSignal(c, ActivationPdus(c, id, p.dst)[0].payload) == Some(m)
    requires WellFormed(g, s) && s.registry == map[] && CanRun(g, s, es) && LeavesServingAlone(g, s, es)
    requires LastNotice(g, es, p.dst) == NotificationFor(g.apToCr, m) && IsMadeOf(net, Run(g, s, es), name)
    requires CorePath(net, path, id.crRid.value, spaceId) && |path| <= 64 && name[path[|path| - 1]] == id.crRid.value
    requires Drained(Run(g, s, es), name[path[0]]) && Drained(Run(g, s, es), id.crRid.value)
    requires HasAp(net.routers[path[|path| - 1]], id.crRid.value, id.rid.value, ap)
    requires FreeToSend(net.routers[path[0]], p.dst, id.crRid.value, spaceId)
    requires Sendable(p) && q == AgedAid(p)
    // the access point, its users being those after the activation, which stores this one
    requires (path[|path| - 1], ap.iface) in access.wire && access.wire[(path[|path| - 1], ap.iface)] == at
    requires at in access.aps
             && var st := access.aps[at];
                st == BridgeState(users[p.dst := user], st.accessIface, st.crIface, st.crMac)
    ensures ReachesUser(c, net, Hop(path[0], AidFrame(p)), |path| - 1, path[|path| - 1], access, at, MacOf(user), q)
  {
    ActivationNamesTheAp(c, id, p.dst, g.apToCr);
    RegisteredUserIsReachable(g, s, es, m, ap, c, net, name, path, p, spaceId);
    HandedDown(c, net, Hop(path[0], AidFrame(p)), |path| - 1, path[|path| - 1], access, at, ap, p, q, MacOf(user));
  }

  // ------------------------------------------------- by way of the router the user left

  lemma {:induction false} RedirectsOnThePath(c: TextCodec, net: Net, path: seq<nat>, start: Hop, w: RidPdu, k: nat)
    requires Launches(c, net, path, start, w) && 1 <= k < |path| && k <= 64
    ensures RedirectsOnTheWay(c, net, start, k) == if RedirectsAt(c, net, start) then 1 else 0
    decreases k
  {
    if k > 1 {
      RedirectsOnThePath(c, net, path, start, w, k - 1);
      OnThePath(c, net, path, start, w, k - 1);
      TransitDoesNotRedirect(c, net, path[k - 1], w.(ttl := 66 - k));
    } else {
      assert Travel(c, net, start, 0) == Some(start);
    }
  }

  lemma TransitDoesNotRedirect(c: TextCodec, net: Net, a: nat, q: RidPdu)
    requires a in net.routers && Transits(net.routers[a], q.dst)
    ensures !RedirectsAt(c, net, Hop(a, RidFrame(q)))
  {}

  /** The packet comes, n hops on, to the router at the end of the path, which then holds it. */
  predicate ComesTo(c: TextCodec, net: Net, start: Hop, n: nat, at: nat, r: RID, p: AidPdu) {
    var last := Travel(c, net, start, n);
    last.Some? && last.value.at == at && Carries(last.value.frame, r, p)
  }

  lemma ComesToTheRouterLeft(c: TextCodec, net: Net, path: seq<nat>, p: AidPdu, r: RID, spaceId: U16,
                             start: Hop, n: nat, left: nat, q: AidPdu)
    requires CorePath(net, path, r, spaceId) && |path| <= 64 && Sendable(p)
    requires SendsTo(net.routers[path[0]], p.dst, r, spaceId) && start == Hop(path[0], AidFrame(p))
    requires n == |path| - 1 && left == path[n] && q == AgedAid(p)
    ensures ComesTo(c, net, start, n, left, r, q) && RedirectsOnTheWay(c, net, start, n) == 0
  {
    var rt := net.routers[path[0]];
    OriginLaunches(c, net, path, p, r, spaceId, start);
    OnThePath(c, net, path, start, Wrapped(rt, q, r, spaceId), n);
    WrappedCarries(rt, q, r, spaceId, 65 - n);
    AidHandlingNeverRedirects(rt, p);
    RedirectsOnThePath(c, net, path, start, Wrapped(rt, q, r, spaceId), n);
  }

  /** n hops on, the router at hand decides o about the packet, which was redirected once. */
  predicate EndsAfterOneRedirect(c: TextCodec, net: Net, start: Hop, n: nat, at: nat, o: Outcome) {
    EndsAs(c, net, start, n, at, o) && RedirectsOnTheWay(c, net, start, n) == 1
  }

  lemma LeavesTheRouterLeft(c: TextCodec, net: Net, path: seq<nat>, q: RidPdu, p: AidPdu, r: RID, spaceId: U16,
                           ap: ApEntry, start: Hop, home: nat, o: Outcome)
    requires CorePath(net, path, r, spaceId) && |path| <= 64 && Carriable(p) && home == path[|path| - 1]
    requires RedirectsTo(net.routers[path[0]], q, p, r, spaceId) && start == Hop(path[0], RidFrame(q))
    requires Home(net.routers[home], r, p.dst, ap) && o == ToTheAp(net.routers[home], p, ap)
    ensures EndsAfterOneRedirect(c, net, start, |path| - 1, home, o)
  {
    RedirectedIsDelivered(c, net, path, q, p, r, spaceId, ap, start, home);
    RedirectLaunches(c, net, path, q, p, r, spaceId, start);
    RedirectsOnThePath(c, net, path, start, Wrapped(net.routers[path[0]], p, r, spaceId), |path| - 1);
  }

  lemma TwoLegs(c: TextCodec, net: Net, start: Hop, n: nat, k: nat, hops: nat, at: nat, o: Outcome)
    requires hops == n + k && Travel(c, net, start, n).Some? && RedirectsOnTheWay(c, net, start, n) == 0
    requires EndsAfterOneRedirect(c, net, Travel(c, net, start, n).value, k, at, o)
    ensures EndsAfterOneRedirect(c, net, start, hops, at, o)
  {
    OrbitFrom(Onward(c, net), start, n, k);
    MarkedFrom(Onward(c, net), Redirecting(c, net), start, n, k);
  }

  /** The router has RID r and refers packets for user a to router r', in the given space. */
  predicate Refers(rt: Router, r: RID, a: AID, r': RID, spaceId: U16) {
    && rt.myRid == Some(r) && !IsLocalRid(rt.tables, r) && IsMoved(rt, a)
    && var m := LookupAny(rt.tables.local, rt.tables.remote, a);
       m.Some? && m.value.remoteCrRid == r' && m.value.spaceId == spaceId
  }

  /** The router at the start of the path, with RID r, refers packets for user a to the one at
      its end, which has RID r' and serves the user through AP ap. */
  ghost predicate RefersHome(net: Net, path: seq<nat>, a: AID, r: RID, r': RID, spaceId: U16, ap: ApEntry) {
    && CorePath(net, path, r', spaceId) && |path| <= 64
    && Refers(net.routers[path[0]], r, a, r', spaceId) && Home(net.routers[path[|path| - 1]], r', a, ap)
  }

  lemma SecondLeg(c: TextCodec, net: Net, start: Hop, n: nat, path: seq<nat>, r: RID, r': RID, spaceId: U16, q: AidPdu,
                  ap: ApEntry, hops: nat, home: nat, o: Outcome)
    requires RefersHome(net, path, q.dst, r, r', spaceId, ap) && Carriable(q)
    requires ComesTo(c, net, start, n, path[0], r, q) && RedirectsOnTheWay(c, net, start, n) == 0
    requires home == path[|path| - 1] && hops == n + |path| - 1 && o == ToTheAp(net.routers[home], q, ap)
    ensures EndsAfterOneRedirect(c, net, start, hops, home, o)
  {
    var there := Travel(c, net, start, n).value;
    LeavesTheRouterLeft(c, net, path, there.frame.rid, q, r', spaceId, ap, there, home, o);
    TwoLegs(c, net, start, n, |path| - 1, hops, home, o);
  }

  /** A packet sent to a router that refers its user elsewhere is redirected once and handed to
      the AP at the router that serves the user. */
  lemma RedirectedOnceIsDelivered(c: TextCodec, net: Net, toLeft: seq<nat>, r: RID, spaceId: U16,
                                  toHome: seq<nat>, r': RID, spaceId': U16, p: AidPdu, q: AidPdu, ap: ApEntry,
                                  start: Hop, hops: nat, home: nat)
    requires CorePath(net, toLeft, r, spaceId) && |toLeft| <= 64
    requires SendsTo(net.routers[toLeft[0]], p.dst, r, spaceId) && Sendable(p) && q == AgedAid(p)
    requires RefersHome(net, toHome, q.dst, r, r', spaceId', ap) && toLeft[|toLeft| - 1] == toHome[0]
    requires start == Hop(toLeft[0], AidFrame(p)) && hops == |toLeft| - 1 + |toHome| - 1 && home == toHome[|toHome| - 1]
    ensures EndsAfterOneRedirect(c, net, start, hops, home, ToTheAp(net.routers[home], q, ap))
  {
    var n, o := |toLeft| - 1, ToTheAp(net.routers[home], q, ap);
    ComesToTheRouterLeft(c, net, toLeft, p, r, spaceId, start, n, toHome[0], q);
    SecondLeg(c, net, start, n, toHome, r, r', spaceId', q, ap, hops, home, o);
  }

  /** A drained router that holds the user as moved refers it to the registering router exactly
      when it has no local mapping for it, or that router is (0, 0). */
  lemma DrainedRouterRefersExactlyUnlessShadowed(g: Config, s: Plane, es: seq<Event>, m: Signal, c: RID)
    requires Registers(g, s, es, m) && m.aid in Run(g, s, es).registry && Drained(Run(g, s, es), c)
    ensures var rt := Run(g, s, es).routers[c];
            && MappingOf(rt, m.aid).Some?
            && (MappingOf(rt, m.aid).value.remoteCrRid == m.mappedRid
                <==> m.aid !in rt.tables.local || m.mappedRid == NO_RID)
  {
    DrainedRouterKnows(g, s, es, m, c);
  }

  /** The mobility case: after such a run, a user packet that enters the core at a router that
      still maps the user to the router it has left is redirected there, once, and leaves at the
      registering AP's interface, unchanged but for one TTL. The router the user has left holds
      it as moved, has no local mapping for it (or the new router is (0, 0)), and, like the new
      one, no notification left. */
  lemma MovedUserIsReachable(
      g: Config, s: Plane, es: seq<Event>, m: Signal, ap: ApEntry, c: TextCodec, net: Net, name: map<nat, RID>,
      toLeft: seq<nat>, left: nat, toHome: seq<nat>, home: nat, p: AidPdu, q: AidPdu, spaceId: U16,
      start: Hop, hops: nat)
    requires Registers(g, s, es, m) && IsMadeOf(net, Run(g, s, es), name)
    requires Sendable(p) && p.dst == m.aid && q == AgedAid(p)
    requires left in net.routers && home in net.routers && name[home] == m.mappedRid
    // from the origin to the router the user has left
    requires CorePath(net, toLeft, name[left], spaceId) && |toLeft| <= 64 && left == toLeft[|toLeft| - 1]
    requires SendsTo(net.routers[toLeft[0]], m.aid, name[left], spaceId)
    requires Drained(Run(g, s, es), name[left])
    requires var rt := net.routers[left];
             && IsMoved(rt, m.aid) && !IsLocalRid(rt.tables, name[left])
             && (m.aid in rt.tables.local ==> m.mappedRid == NO_RID) && MappingOf(rt, m.aid).Some?
    // from there to the new router
    requires CorePath(net, toHome, m.mappedRid, MappingOf(net.routers[left], m.aid).value.spaceId) && |toHome| <= 64
    requires toHome[0] == left && toHome[|toHome| - 1] == home
    requires Drained(Run(g, s, es), m.mappedRid) && HasAp(net.routers[home], m.mappedRid, m.apRid, ap)
    requires start == Hop(toLeft[0], AidFrame(p)) && hops == |toLeft| - 1 + |toHome| - 1
    ensures EndsAfterOneRedirect(c, net, start, hops, home, ToTheAp(net.routers[home], q, ap))
  {
    RegisteredIsRecorded(g, s, es, m.aid);
    HomeServes(g, s, es, m, ap);
    DrainedRouterKnows(g, s, es, m, name[left]);
    DrainedRouterRefersExactlyUnlessShadowed(g, s, es, m, name[left]);
    RedirectedOnceIsDelivered(c, net, toLeft, name[left], spaceId, toHome, m.mappedRid,
                              MappingOf(net.routers[left], m.aid).value.spaceId, p, q, ap, start, hops, home);
  }
}
