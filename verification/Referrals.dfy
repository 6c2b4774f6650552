// Packets that go round for ever among core routers whose tables do not change: what they have
// in common, and how to tell them from the tables.

module Referrals {
  import opened Wrappers
  import opened Orbits
  import opened Addressing
  import opened ByteStrings
  import opened Packets
  import opened CrTables
  import opened RidRouting
  import opened MappingStore
  import opened Signaling
  import opened Forwarding
  import opened RouterRules
  import opened Delivery
  import opened Lifetimes

  // --------------------------------------------------------- one packet, redirected twice

  // The AID packet that a frame is or carries.
  function InnerOf(f: Frame): Option<AidPdu> {
    match f
    case AidFrame(p) => Some(p)
    case RidFrame(q) =>
      match AidDeserialize(q.payload)
      case Ok(p) => Some(p)
      case Err(_) => None
  }

  // Where a frame is, and the AID packet in it.
  function WhereAndWhat(): Hop -> (nat, Option<AidPdu>) {
    (h: Hop) => (h.at, InnerOf(h.frame))
  }

  lemma RedirectDependsOnPacket(c: TextCodec, r: Router, f: Frame)
    requires Handle(c, r, f).branch == Redirected
    ensures InnerOf(f).Some? && Handle(c, r, f) == Redirect(r, InnerOf(f).value)
  {
    match f
    case AidFrame(p) =>
    case RidFrame(q) =>
      assert Handle(c, r, f) == Decapsulate(r, q.(ttl := q.ttl - 1));
  }

  lemma RedirectsAreDetermined(c: TextCodec, net: Net)
    ensures Determined(Onward(c, net), Redirecting(c, net), WhereAndWhat())
  {
    forall y: Hop, z: Hop | RedirectsAt(c, net, y) && RedirectsAt(c, net, z) && WhereAndWhat()(y) == WhereAndWhat()(z)
      ensures Next(c, net, y) == Next(c, net, z)
    {
      RedirectDependsOnPacket(c, net.routers[y.at], y.frame);
      RedirectDependsOnPacket(c, net.routers[z.at], z.frame);
    }
  }

  /** The packet, if there is one, is the original with the same or a lower TTL. */
  predicate IsCopy(origin: Option<AidPdu>, p: Option<AidPdu>) {
    p.Some? ==>
      origin.Some? && p.value.ttl <= origin.value.ttl && p.value == origin.value.(ttl := p.value.ttl)
  }

  lemma FollowingCopies(f: Frame, branch: Branch, g: Frame, origin: Option<AidPdu>)
    requires Follows(f, branch, g) && IsCopy(origin, InnerOf(f))
    ensures IsCopy(origin, InnerOf(g))
  {
    match f
    case AidFrame(p) =>
      if branch == Encapsulated {
        WrappedInner(g, p.(ttl := p.ttl - 1));
      }
    case RidFrame(q) =>
      if branch == Redirected {
        WrappedInner(g, AidDeserialize(q.payload).value);
      }
  }

  lemma {:induction false} TravelCopies(c: TextCodec, net: Net, h: Hop, n: nat)
    requires Travel(c, net, h, n).Some?
    ensures IsCopy(InnerOf(h.frame), InnerOf(Travel(c, net, h, n).value.frame))
    decreases n
  {
    if n > 0 {
      TravelCopies(c, net, h, n - 1);
      var before := Travel(c, net, h, n - 1).value;
      var o := Handle(c, net.routers[before.at], before.frame);
      HandlingFollows(c, net.routers[before.at], before.frame);
      FollowingCopies(before.frame, o.branch, o.sent.value.frame, InnerOf(h.frame));
    }
  }

  function KeyFor(a: nat, p: AidPdu, ttl: Byte): (nat, Option<AidPdu>) {
    (a, Some(p.(ttl := ttl)))
  }

  // Router a with the packet, at any of the n lowest TTLs.
  function KeysAt(a: nat, p: AidPdu, n: nat): (keys: set<(nat, Option<AidPdu>)>)
    requires n <= 256
    ensures |keys| <= n && forall k | 0 <= k < n :: KeyFor(a, p, k) in keys
  {
    if n == 0 then {} else KeysAt(a, p, n - 1) + {KeyFor(a, p, n - 1)}
  }

  ghost function Keys(routers: set<nat>, p: AidPdu, n: nat): (keys: set<(nat, Option<AidPdu>)>)
    requires n <= 256
    ensures |keys| <= |routers| * n
    ensures forall a, k | a in routers && 0 <= k < n :: KeyFor(a, p, k) in keys
  {
    if routers == {} then {}
    else
      var a :| a in routers;
      OneMoreRow(|routers|, n);
      KeysAt(a, p, n) + Keys(routers - {a}, p, n)
  }

  lemma OneMoreRow(rows: nat, n: nat)
    requires rows > 0
    ensures rows * n == n + (rows - 1) * n
  {}

  // More redirects than this, and one of them repeats.
  function MostRedirects(net: Net, f: Frame): nat {
    |net.routers| * (AidTtl(f) + 1)
  }

  ghost function PossibleKeys(net: Net, origin: Option<AidPdu>): set<(nat, Option<AidPdu>)> {
    if origin.Some? then Keys(net.routers.Keys, origin.value, origin.value.ttl + 1) else {}
  }

  lemma RedirectIsKeyed(c: TextCodec, net: Net, h: Hop, i: nat)
    requires Travel(c, net, h, i).Some? && RedirectsAt(c, net, Travel(c, net, h, i).value)
    ensures WhereAndWhat()(Travel(c, net, h, i).value) in PossibleKeys(net, InnerOf(h.frame))
  {
    var there := Travel(c, net, h, i).value;
    TravelCopies(c, net, h, i);
    RedirectDependsOnPacket(c, net.routers[there.at], there.frame);
    var inner := InnerOf(there.frame).value;
    assert KeyFor(there.at, InnerOf(h.frame).value, inner.ttl) == (there.at, Some(inner));
  }

  lemma RedirectsAreKeyed(c: TextCodec, net: Net, h: Hop)
    ensures KeyedIn(Onward(c, net), Redirecting(c, net), WhereAndWhat(), h, PossibleKeys(net, InnerOf(h.frame)))
  {
    forall i: nat, k | MarkedAt(Onward(c, net), Redirecting(c, net), WhereAndWhat(), h, i, k)
      ensures k in PossibleKeys(net, InnerOf(h.frame))
    {
      RedirectIsKeyed(c, net, h, i);
    }
  }

  lemma FewKeys(net: Net, f: Frame)
    ensures |PossibleKeys(net, InnerOf(f))| <= MostRedirects(net, f)
  {
    NoFewer(|net.routers|, AidTtl(f) + 1);
  }

  lemma NoFewer(a: nat, b: nat)
    ensures a * b >= 0
  {}

  lemma EndlessWithin(c: TextCodec, net: Net, h: Hop, most: nat)
    requires |PossibleKeys(net, InnerOf(h.frame))| <= most
    ensures var onward, mark := Onward(c, net), Redirecting(c, net);
            && (Endless(onward, h) <==> exists i, j :: Repeats(onward, mark, WhereAndWhat(), h, i, j))
            && (Endless(onward, h) <==> MarkedBeyond(onward, mark, h, most))
            && (Endless(onward, h) <==> Orbit(onward, h, Enough(HopWeight(), 63, h, most)).Some?)
  {
    HopsTire(c, net);
    RedirectsAreDetermined(c, net);
    RedirectsAreKeyed(c, net, h);
    EndlessExactlyWhenRepeated(Onward(c, net), Redirecting(c, net), HopWeight(), 63, WhereAndWhat(), h,
                               PossibleKeys(net, InnerOf(h.frame)), most);
  }

  lemma TravelIsOrbit(c: TextCodec, net: Net, h: Hop, most: nat)
    ensures (forall n: nat :: Travel(c, net, h, n).Some?) <==> Endless(Onward(c, net), h)
    ensures (exists n: nat :: RedirectsOnTheWay(c, net, h, n) > most)
       <==> MarkedBeyond(Onward(c, net), Redirecting(c, net), h, most)
  {
    assert forall n: nat :: Travel(c, net, h, n) == Orbit(Onward(c, net), h, n);
    assert forall n: nat :: RedirectsOnTheWay(c, net, h, n) == Marked(Onward(c, net), Redirecting(c, net), h, n);
  }

  // A step more than its TTLs and that many redirects allow.
  function OneStepTooMany(f: Frame, most: nat): nat {
    StepsLeft(f) + 63 * most + 1
  }

  /** Among routers whose tables do not change, a frame goes round for ever exactly when some
      router redirects the same AID packet twice; exactly when there are more redirects than
      routers times AID TTLs; and exactly when it is still going after a number of steps that
      its TTLs and the number of routers give beforehand. */
  lemma EndlessExactlyWhenARedirectRepeats(c: TextCodec, net: Net, h: Hop)
    ensures var most := MostRedirects(net, h.frame);
            var endless := forall n: nat :: Travel(c, net, h, n).Some?;
            && (endless <==> exists i, j :: Repeats(Onward(c, net), Redirecting(c, net), WhereAndWhat(), h, i, j))
            && (endless <==> exists n: nat :: RedirectsOnTheWay(c, net, h, n) > most)
            && (endless <==> Travel(c, net, h, OneStepTooMany(h.frame, most)).Some?)
  {
    var most := MostRedirects(net, h.frame);
    FewKeys(net, h.frame);
    EndlessWithin(c, net, h, most);
    TravelIsOrbit(c, net, h, most);
    assert OneStepTooMany(h.frame, most) == Enough(HopWeight(), 63, h, most);
  }

  // ------------------------------------------------------------ what the tables say

  // The mapping by which router a sends packets for u elsewhere, if it does.
  function Referral(net: Net, a: nat, u: AID): Option<Mapping> {
    if a in net.routers && IsMoved(net.routers[a], u)
    then LookupAny(net.routers[a].tables.local, net.routers[a].tables.remote, u)
    else None
  }

  /** A packet addressed to RID r is for this router. */
  predicate AnswersTo(rt: Router, r: RID) {
    rt.myRid == Some(r) && !IsLocalRid(rt.tables, r)
  }

  /** If router a refers u elsewhere, its road leads, in at most 63 hops, to a router that answers
      to the RID its mapping names. */
  ghost predicate HasRoad(net: Net, u: AID, roads: map<nat, seq<nat>>, a: nat)
    requires a in roads
  {
    var m := Referral(net, a, u);
    m.Some? ==>
      var road := roads[a];
      && CorePath(net, road, m.value.remoteCrRid, m.value.spaceId) && |road| <= 64 && road[0] == a
      && road[|road| - 1] in roads && AnswersTo(net.routers[road[|road| - 1]], m.value.remoteCrRid)
  }

  /** The roads lead from every router listed to a router listed. */
  ghost predicate Roads(net: Net, u: AID, roads: map<nat, seq<nat>>) {
    forall a {:trigger HasRoad(net, u, roads, a)} | a in roads :: HasRoad(net, u, roads, a)
  }

  function Referred(net: Net, u: AID, roads: map<nat, seq<nat>>): nat -> Option<nat> {
    a => if a in roads && roads[a] != [] && Referral(net, a, u).Some? then Some(roads[a][|roads[a]| - 1]) else None
  }

  /** The frame is at a router and carries p to it. */
  predicate HasArrived(net: Net, h: Hop, p: AidPdu) {
    h.at in net.routers && net.routers[h.at].myRid.Some?
    && AnswersTo(net.routers[h.at], net.routers[h.at].myRid.value)
    && Carries(h.frame, net.routers[h.at].myRid.value, p)
  }

  lemma ReferralIsRedirect(net: Net, h: Hop, p: AidPdu)
    requires HasArrived(net, h, p) && Referral(net, h.at, p.dst).Some?
    ensures var m := Referral(net, h.at, p.dst).value;
            RedirectsTo(net.routers[h.at], h.frame.rid, p, m.remoteCrRid, m.spaceId)
  {}

  /** After n hops the packet has arrived at router a, one of those listed. */
  predicate HasCome(c: TextCodec, net: Net, roads: map<nat, seq<nat>>, h: Hop, n: nat, a: nat, p: AidPdu) {
    var last := Travel(c, net, h, n);
    a in roads && last.Some? && last.value.at == a && HasArrived(net, last.value, p)
  }

  lemma FollowReferral(c: TextCodec, net: Net, roads: map<nat, seq<nat>>, h: Hop, a: nat, b: nat, p: AidPdu)
    returns (n: nat)
    requires Roads(net, p.dst, roads) && h.at == a && a in roads && HasArrived(net, h, p) && Carriable(p)
    requires Referred(net, p.dst, roads)(a) == Some(b)
    ensures n >= 1 && HasCome(c, net, roads, h, n, b, p)
  {
    assert HasRoad(net, p.dst, roads, a);
    var m := Referral(net, a, p.dst).value;
    ReferralIsRedirect(net, h, p);
    RedirectedArrives(c, net, roads[a], h.frame.rid, p, m.remoteCrRid, m.spaceId, h);
    n := |roads[a]| - 1;
  }

  lemma ComeFurther(c: TextCodec, net: Net, roads: map<nat, seq<nat>>, h: Hop, n: nat, there: Hop, k: nat, m: nat,
                    b: nat, p: AidPdu)
    requires Travel(c, net, h, n) == Some(there) && HasCome(c, net, roads, there, k, b, p) && m == n + k
    ensures HasCome(c, net, roads, h, m, b, p)
  {
    OrbitFrom(Onward(c, net), h, n, k);
  }

  lemma ComeToNext(c: TextCodec, net: Net, roads: map<nat, seq<nat>>, h: Hop, n: nat, there: Hop, b: nat, p: AidPdu)
    returns (m: nat)
    requires Travel(c, net, h, n) == Some(there) && there.at in roads && HasArrived(net, there, p)
    requires Roads(net, p.dst, roads) && Carriable(p) && Referred(net, p.dst, roads)(there.at) == Some(b)
    ensures m > n && HasCome(c, net, roads, h, m, b, p)
  {
    var k := FollowReferral(c, net, roads, there, there.at, b, p);
    m := n + k;
    ComeFurther(c, net, roads, h, n, there, k, m, b, p);
  }

  lemma {:induction false} FollowReferrals(c: TextCodec, net: Net, roads: map<nat, seq<nat>>, h: Hop, p: AidPdu, k: nat)
    returns (n: nat)
    requires Roads(net, p.dst, roads) && Carriable(p) && HasCome(c, net, roads, h, 0, h.at, p)
    requires Orbit(Referred(net, p.dst, roads), h.at, k).Some?
    ensures n >= k && HasCome(c, net, roads, h, n, Orbit(Referred(net, p.dst, roads), h.at, k).value, p)
    decreases k
  {
    if k == 0 {
      n := 0;
    } else {
      var before := FollowReferrals(c, net, roads, h, p, k - 1);
      var b := Orbit(Referred(net, p.dst, roads), h.at, k).value;
      n := ComeToNext(c, net, roads, h, before, Travel(c, net, h, before).value, b, p);
    }
  }

  /** Where the walk along the referrals never stops, the packet never stops. */
  lemma EndlessReferrals(c: TextCodec, net: Net, roads: map<nat, seq<nat>>, h: Hop, p: AidPdu)
    requires Roads(net, p.dst, roads) && h.at in roads && HasArrived(net, h, p) && Carriable(p)
    requires Endless(Referred(net, p.dst, roads), h.at)
    ensures forall n: nat :: Travel(c, net, h, n).Some?
  {
    assert HasCome(c, net, roads, h, 0, h.at, p);
    forall n: nat ensures Travel(c, net, h, n).Some? {
      var m := FollowReferrals(c, net, roads, h, p, n);
      if Travel(c, net, h, n).None? {
        StoppedStaysStopped(Onward(c, net), h, n, m);
      }
    }
  }

  /** What a router hands to its access points leaves the core. */
  predicate ApsOutside(net: Net) {
    forall a, ap | a in net.routers && ap in net.routers[a].tables.aps :: (a, ap.iface) !in net.wire
  }

  lemma StopsWithoutReferral(c: TextCodec, net: Net, h: Hop, p: AidPdu)
    requires HasArrived(net, h, p) && Referral(net, h.at, p.dst).None? && ApsOutside(net)
    ensures Next(c, net, h).None?
  {
    var rt, q := net.routers[h.at], h.frame.rid.(ttl := h.frame.rid.ttl - 1);
    assert Handle(c, rt, h.frame) == Decapsulate(rt, q);
  }

  lemma {:induction false} ReferredStaysListed(net: Net, roads: map<nat, seq<nat>>, u: AID, a: nat, k: nat)
    requires Roads(net, u, roads) && a in roads
    ensures Orbit(Referred(net, u, roads), a, k).Some? ==> Orbit(Referred(net, u, roads), a, k).value in roads
    decreases k
  {
    if k > 0 {
      ReferredStaysListed(net, roads, u, a, k - 1);
      var before := Orbit(Referred(net, u, roads), a, k - 1);
      if before.Some? {
        assert HasRoad(net, u, roads, before.value);
      }
    }
  }

  /** A user packet for u that has arrived at one of a group of routers, each of which, if it
      holds u as moved, has a road to the router its mapping names, goes round for ever exactly
      when following the mappings leads from one such router to the next as many times as there
      are routers in the group. */
  lemma EndlessExactlyWhenReferralsGoOn(c: TextCodec, net: Net, roads: map<nat, seq<nat>>, h: Hop, p: AidPdu)
    requires Roads(net, p.dst, roads) && h.at in roads && HasArrived(net, h, p) && Carriable(p) && ApsOutside(net)
    ensures (forall n: nat :: Travel(c, net, h, n).Some?)
       <==> Orbit(Referred(net, p.dst, roads), h.at, |roads|).Some?
  {
    var step := Referred(net, p.dst, roads);
    if Orbit(step, h.at, |roads|).Some? {
      forall k: nat ensures Orbit(step, h.at, k).Some? ==> Orbit(step, h.at, k).value in roads.Keys {
        ReferredStaysListed(net, roads, p.dst, h.at, k);
      }
      StayingIsEndless(step, h.at, roads.Keys);
      EndlessReferrals(c, net, roads, h, p);
    } else {
      var k := LastPoint(step, h.at, |roads|);
      assert HasCome(c, net, roads, h, 0, h.at, p);
      var n := FollowReferrals(c, net, roads, h, p, k);
      var last := Travel(c, net, h, n).value;
      assert HasRoad(net, p.dst, roads, last.at);
      StopsWithoutReferral(c, net, last, p);
      assert Travel(c, net, h, n + 1).None?;
    }
  }

  lemma {:induction false} LastPoint(step: nat -> Option<nat>, a: nat, stop: nat) returns (k: nat)
    requires Orbit(step, a, stop).None?
    ensures Orbit(step, a, k).Some? && step(Orbit(step, a, k).value).None?
  {
    if Orbit(step, a, stop - 1).Some? {
      k := stop - 1;
    } else {
      k := LastPoint(step, a, stop - 1);
    }
  }

  // ------------------------------------------------------------- two routers at ping-pong

  /** Router a, with RID ra, holds u as moved to the router rb, and its routes lead straight to b. */
  ghost predicate RefersTo(net: Net, a: nat, ra: RID, b: nat, rb: RID, u: AID) {
    && a in net.routers && AnswersTo(net.routers[a], ra)
    && var m := Referral(net, a, u);
       m.Some? && m.value.remoteCrRid == rb && CoreNext(net, a, rb, m.value.spaceId, b)
  }

  lemma NeighborIsReferred(net: Net, roads: map<nat, seq<nat>>, a: nat, ra: RID, b: nat, rb: RID, u: AID)
    requires RefersTo(net, a, ra, b, rb, u) && b in net.routers && AnswersTo(net.routers[b], rb)
    requires a in roads && roads[a] == [a, b] && b in roads
    ensures HasRoad(net, u, roads, a) && Referred(net, u, roads)(a) == Some(b)
  {}

  lemma BackAndForth(step: nat -> Option<nat>, a: nat, b: nat)
    requires step(a) == Some(b) && step(b) == Some(a)
    ensures Endless(step, a)
  {
    forall n: nat ensures Orbit(step, a, n).Some? {
      ReturningIsEndless(step, a, 0, 2, n);
    }
  }

  lemma MutualRoads(net: Net, roads: map<nat, seq<nat>>, a: nat, ra: RID, b: nat, rb: RID, u: AID)
    requires RefersTo(net, a, ra, b, rb, u) && RefersTo(net, b, rb, a, ra, u)
    requires roads.Keys == {a, b} && roads[a] == [a, b] && roads[b] == [b, a]
    ensures Roads(net, u, roads) && Endless(Referred(net, u, roads), a)
  {
    NeighborIsReferred(net, roads, a, ra, b, rb, u);
    NeighborIsReferred(net, roads, b, rb, a, ra, u);
    BackAndForth(Referred(net, u, roads), a, b);
  }

  /** Two routers that each hold a user as moved to the other send a packet for that user back
      and forth for ever: redirecting resets the TTL and leaves the AID TTL alone. */
  lemma MutualReferralNeverEnds(c: TextCodec, net: Net, a: nat, ra: RID, b: nat, rb: RID, p: AidPdu, f: Frame)
    requires RefersTo(net, a, ra, b, rb, p.dst) && RefersTo(net, b, rb, a, ra, p.dst) && Carriable(p)
    requires Carries(f, ra, p)
    ensures forall n: nat :: Travel(c, net, Hop(a, f), n).Some?
  {
    var roads: map<nat, seq<nat>> := map[a := [a, b], b := [b, a]];
    MutualRoads(net, roads, a, ra, b, rb, p.dst);
    EndlessReferrals(c, net, roads, Hop(a, f), p);
  }

  // A router with RID (own, 0) that holds AID 7 as moved to RID (other, 0).
  function ReferringRouter(own: U32, other: U32): Router {
    Router(Some(RID(own, 0)),
           Tables([], [RouteNeighbor(0, RID(other, 0), BROADCAST, 0)], [],
                  [RouteEntry(0, RIDSpace(0, 0, 0, 0), RID(other, 0))],
                  map[], map[AID(7) := Mapping(RID(other, 0), RID(other, 0), 0)], [],
                  map[AID(7) := UserState(AID(0), MovedAway, "")]))
  }

  /** Such a pair of routers: a concrete network in which a packet never stops. */
  lemma AnEndlessPacket(c: TextCodec)
    ensures var net := Net(map[0 := ReferringRouter(1, 2), 1 := ReferringRouter(2, 1)], map[(0, 0) := 1, (1, 0) := 0]);
            var p := AidPdu(AID(1), AID(7), [], 0, UserData, 64);
            var f := RidFrame(RidPdu(RID(9, 9), RID(1, 0), AidSerialize(p).value, 0, 0, UserData, 64));
            forall n: nat :: Travel(c, net, Hop(0, f), n).Some?
  {
    var net := Net(map[0 := ReferringRouter(1, 2), 1 := ReferringRouter(2, 1)], map[(0, 0) := 1, (1, 0) := 0]);
    var p := AidPdu(AID(1), AID(7), [], 0, UserData, 64);
    var f := RidFrame(RidPdu(RID(9, 9), RID(1, 0), AidSerialize(p).value, 0, 0, UserData, 64));
    ReferringRouterRefers(net, 0, 1, 1, 2);
    ReferringRouterRefers(net, 1, 2, 0, 1);
    WrappedInner(f, p);
    MutualReferralNeverEnds(c, net, 0, RID(1, 0), 1, RID(2, 0), p, f);
  }

  lemma ReferringRouterRefers(net: Net, a: nat, own: U32, b: nat, other: U32)
    requires a in net.routers && net.routers[a] == ReferringRouter(own, other)
    requires (a, 0) in net.wire && net.wire[(a, 0)] == b
    ensures RefersTo(net, a, RID(own, 0), b, RID(other, 0), AID(7))
  {
    var t := net.routers[a].tables;
    assert Covers(t.routes[0], RID(other, 0), 0);
    assert FirstBest(t.routes, RID(other, 0), 0, 0);
    assert t.routeNeighbors[0].rid == RID(other, 0);
    assert IsFirst(t.routeNeighbors, NeighborWithRid(RID(other, 0)), t.routeNeighbors[0]);
    assert Leads(t, RID(other, 0), 0, t.routeNeighbors[0]);
  }
}
