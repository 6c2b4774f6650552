// The two core routers of the deployment, with the tables of config/cr1.yaml and config/cr2.yaml:
// what becomes of a packet from one side to the other.

module Deployment {
  import opened Wrappers
  import opened Numbers
  import opened Addressing
  import opened Packets
  import opened CrTables
  import opened RidRouting
  import opened Signaling
  import opened Forwarding
  import opened RouterRules
  import opened Delivery

  const HOST1: AID := AID(0xcad3c29a3a629280e686cf8d969eef6e)
  const HOST2: AID := AID(0x969eef6ecad3c29a3a629280e686cf8d)
  const AP1: AID := AID(0x8d969eef6ecad3c29a3a629280e686cf)
  const AP2: AID := AID(0x280e686cf8d969eef6ecad3c29a3a629)
  const TS: AID := AID(0xd3c29a3a629280e686cf8d969eef6eca)

  const CR1_RID: RID := RID(10001, 36191)  // and that of the first access point
  const CR2_RID: RID := RID(12360, 34280)
  const AP2_RID: RID := RID(10002, 36192)
  const TS_RID: RID := RID(10003, 36193)
  const CS_RID: RID := RID(10028, 36181)

  const CS_MAC: Mac := [0x00, 0x1a, 0x2b, 0x3c, 0x4d, 0x01]
  const AP1_MAC: Mac := [0x00, 0x04, 0xab, 0x1f, 0x40, 0xa6]
  const TO_CR1_MAC: Mac := [0x00, 0x0c, 0xab, 0x1e, 0x76, 0x8a]
  const TO_CR2_MAC: Mac := [0x00, 0x0c, 0xab, 0x1e, 0x76, 0x8c]

  const SPACES := [SpaceEntry(0, RIDSpace(10028, 36181, 20, 20)), SpaceEntry(100, RIDSpace(12345, 34267, 20, 24))]

  function Cr1(): Router {
    Router(Some(CR1_RID), Tables(
      SPACES,
      [RouteNeighbor(0, CS_RID, CS_MAC, 0), RouteNeighbor(100, CR2_RID, TO_CR2_MAC, 1)],
      [AccessNeighbor(AP1, AP1_MAC, 2), AccessNeighbor(TS, [0x00, 0x1a, 0x2b, 0x3c, 0x4d, 0x02], 2),
       AccessNeighbor(HOST1, [0x00, 0x11, 0x22, 0x33, 0x44, 0x01], 2)],
      [RouteEntry(100, RIDSpace(12345, 34267, 20, 24), CR2_RID)],
      map[AP1 := CR1_RID, HOST1 := CR1_RID, TS := TS_RID],
      map[HOST2 := Mapping(AP2_RID, CR2_RID, 100)],
      [ApEntry(AP1, CR1_RID, 2)],
      map[TS := UserState(AP1, Online, ""), HOST1 := UserState(AP1, Online, "")]))
  }

  function Cr2(): Router {
    Router(Some(CR2_RID), Tables(
      SPACES,
      [RouteNeighbor(0, CS_RID, CS_MAC, 0), RouteNeighbor(100, CR1_RID, TO_CR1_MAC, 1)],
      [AccessNeighbor(AP2, [0x00, 0x05, 0xdc, 0x12, 0x33, 0x28], 2),
       AccessNeighbor(HOST2, [0x00, 0x11, 0x22, 0x33, 0x44, 0x02], 2)],
      [RouteEntry(100, RIDSpace(10001, 36191, 20, 20), CR1_RID)],
      map[AP2 := AP2_RID, HOST2 := AP2_RID],
      map[HOST1 := Mapping(CR1_RID, CR1_RID, 100), TS := Mapping(TS_RID, CR1_RID, 100)],
      [ApEntry(AP2, AP2_RID, 2)],
      map[]))
  }

  // Interface 1 of either is the core side.
  function TwoRouters(): Net {
    Net(map[1 := Cr1(), 2 := Cr2()], map[(1, 1) := 2, (2, 1) := 1])
  }

  lemma InBlock(s: RIDSpace, r: RID)
    requires s.xMask == s.yMask == 20 && r.x / 4096 == s.x / 4096 && r.y / 4096 == s.y / 4096
    ensures s.Contains(r)
  {
    assert Power(2, 12) == 4096;
    BlockIsARectangle(s, r);
  }

  /** The one route is for a block around CR-1, with CR-1 as next hop: it leads packets for the test
      server's RID to CR-1, although CR-1's RID is another. */
  lemma Cr2LeadsToCr1()
    ensures CoreNext(TwoRouters(), 2, TS_RID, 100, 1)
  {
    var t := Cr2().tables;
    InBlock(t.routes[0].dest, TS_RID);
    FirstBestIsChosen(t.routes, TS_RID, 100, 0);
    var nb := t.routeNeighbors[1];
    assert t.routeNeighbors[0].rid != CR1_RID;
    assert IsFirst(t.routeNeighbors, NeighborWithRid(CR1_RID), nb);
    assert Leads(t, TS_RID, 100, nb);
    assert WiredTo(TwoRouters(), 2, nb.iface, 1);
  }

  lemma Cr2SendsToTs()
    ensures SendsTo(Cr2(), TS, TS_RID, 100)
  {
    var t := Cr2().tables;
    assert Maps(t, TS, Mapping(TS_RID, CR1_RID, 100));
    assert t.spaces[1].spaceId == 100 && t.spaces[1] in t.spaces;
    assert UsesSpace(t, 100, 100);
  }

  lemma Cr1IsHomeOfTs()
    ensures Home(Cr1(), TS_RID, TS, ApEntry(AP1, CR1_RID, 2))
    ensures ApMac(Cr1().tables, AP1) == AP1_MAC
  {
    var t := Cr1().tables;
    InBlock(t.spaces[0].space, TS_RID);
    assert t.spaces[0] in t.spaces;
    assert t.aps[0].rid != TS_RID;
    assert ApByAid(t.aps, AP1) == Some(t.aps[0]);
  }

  lemma CarriedToTs(c: TextCodec, net: Net, path: seq<nat>, p: AidPdu, ap: ApEntry, mac: Mac, start: Hop, hops: nat,
                    home: nat, o: Outcome)
    requires CorePath(net, path, TS_RID, 100) && |path| <= 64 && hops == |path| - 1 && home == path[hops]
    requires Sendable(p) && p.dst == TS && start == Hop(path[0], AidFrame(p))
    requires SendsTo(net.routers[path[0]], TS, TS_RID, 100) && Home(net.routers[home], TS_RID, TS, ap)
    requires ApMac(net.routers[home].tables, ap.aid) == mac
    requires o == Sends(Delivered, Some(Emission(ap.iface, mac, AidFrame(AgedAid(p)))))
    ensures EndsAs(c, net, start, hops, home, o)
  {
    NearbyIsDelivered(c, net, path, p, TS_RID, 100, ap, start, home);
  }

  lemma ThePath()
    ensures CorePath(TwoRouters(), [2, 1], TS_RID, 100)
  {
    Cr2LeadsToCr1();
  }

  /** A packet for the test server from the users of CR-2 leaves CR-2 in space 100 on interface 1,
      and CR-1 hands it, unchanged but for one TTL, to the first access point on interface 2. */
  lemma TestServerIsReached(c: TextCodec, p: AidPdu)
    requires Sendable(p) && p.dst == TS
    ensures EndsAs(c, TwoRouters(), Hop(2, AidFrame(p)), 1, 1,
                   Sends(Delivered, Some(Emission(2, AP1_MAC, AidFrame(AgedAid(p))))))
  {
    ThePath();
    Cr2SendsToTs();
    Cr1IsHomeOfTs();
    CarriedToTs(c, TwoRouters(), [2, 1], p, ApEntry(AP1, CR1_RID, 2), AP1_MAC, Hop(2, AidFrame(p)), 1, 1,
                Sends(Delivered, Some(Emission(2, AP1_MAC, AidFrame(AgedAid(p))))));
  }

  // ------------------------------------------------------------------ a router in between

  // The test server behind a router of its own, which has its RID.
  function TsRouter(): Router {
    Router(Some(TS_RID), Tables([], [], [AccessNeighbor(AP1, AP1_MAC, 2)], [], map[TS := TS_RID], map[],
                                [ApEntry(AP1, CR1_RID, 2)], map[TS := UserState(AP1, Online, "")]))
  }

  // In CR-1's place a router that only passes packets for the test server on.
  function Between(): Router {
    Router(Some(CR1_RID),
           Tables([], [RouteNeighbor(100, CR2_RID, TO_CR2_MAC, 1), RouteNeighbor(100, TS_RID, TO_CR1_MAC, 0)],
                  [], [RouteEntry(100, RIDSpace(10003, 36193, 20, 20), TS_RID)], map[], map[], [], map[]))
  }

  function ThreeRouters(): Net {
    Net(map[2 := Cr2(), 3 := Between(), 4 := TsRouter()], map[(2, 1) := 3, (3, 1) := 2, (3, 0) := 4])
  }

  lemma Cr2LeadsToBetween()
    ensures CoreNext(ThreeRouters(), 2, TS_RID, 100, 3)
  {
    Cr2LeadsToCr1();
    var nb :| Leads(Cr2().tables, TS_RID, 100, nb) && WiredTo(TwoRouters(), 2, nb.iface, 1);
    assert WiredTo(ThreeRouters(), 2, nb.iface, 3);
  }

  lemma BetweenLeadsOn()
    ensures CoreNext(ThreeRouters(), 3, TS_RID, 100, 4)
    ensures Transits(Between(), TS_RID)
  {
    var t := Between().tables;
    InBlock(t.routes[0].dest, TS_RID);
    FirstBestIsChosen(t.routes, TS_RID, 100, 0);
    var nb := t.routeNeighbors[1];
    assert t.routeNeighbors[0].rid != TS_RID;
    assert IsFirst(t.routeNeighbors, NeighborWithRid(TS_RID), nb);
    assert Leads(t, TS_RID, 100, nb);
    assert WiredTo(ThreeRouters(), 3, nb.iface, 4);
  }

  lemma TwoHops(net: Net, a: nat, b: nat, d: nat, r: RID, spaceId: U16)
    requires a in net.routers && b in net.routers && d in net.routers && Transits(net.routers[b], r)
    requires CoreNext(net, a, r, spaceId, b) && CoreNext(net, b, r, spaceId, d)
    ensures CorePath(net, [a, b, d], r, spaceId)
  {}

  lemma ThePathInTransit()
    ensures CorePath(ThreeRouters(), [2, 3, 4], TS_RID, 100)
  {
    Cr2LeadsToBetween();
    BetweenLeadsOn();
    TwoHops(ThreeRouters(), 2, 3, 4, TS_RID, 100);
  }

  lemma TsRouterIsHome()
    ensures Home(TsRouter(), TS_RID, TS, ApEntry(AP1, CR1_RID, 2))
    ensures ApMac(TsRouter().tables, AP1) == AP1_MAC
  {
    var t := TsRouter().tables;
    assert t.aps[0].rid != TS_RID;
    assert ApByAid(t.aps, AP1) == Some(t.aps[0]);
  }

  /** Over such a router, whose RID is not the packet's destination, it takes two hops. */
  lemma TestServerIsReachedInTransit(c: TextCodec, p: AidPdu)
    requires Sendable(p) && p.dst == TS
    ensures EndsAs(c, ThreeRouters(), Hop(2, AidFrame(p)), 2, 4,
                   Sends(Delivered, Some(Emission(2, AP1_MAC, AidFrame(AgedAid(p))))))
  {
    ThePathInTransit();
    Cr2SendsToTs();
    TsRouterIsHome();
    CarriedToTs(c, ThreeRouters(), [2, 3, 4], p, ApEntry(AP1, CR1_RID, 2), AP1_MAC, Hop(2, AidFrame(p)), 2, 4,
                Sends(Delivered, Some(Emission(2, AP1_MAC, AidFrame(AgedAid(p))))));
  }
}
