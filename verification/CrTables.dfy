// The tables of a core router (src/tables/cr_tables.py): their value, and the mutable
// container whose mapping and status entries are objects updated in place.

module CrTables {
  import opened Wrappers
  import opened Addressing
  import opened Packets

  // ------------------------------------------------------------------- table values

  datatype SpaceEntry = SpaceEntry(spaceId: U16, space: RIDSpace)

  datatype RouteNeighbor = RouteNeighbor(spaceId: U16, rid: RID, mac: Mac, iface: int)

  datatype AccessNeighbor = AccessNeighbor(aid: AID, mac: Mac, iface: int)

  datatype RouteEntry = RouteEntry(spaceId: U16, dest: RIDSpace, nextHop: RID)

  datatype Mapping = Mapping(mappedRid: RID, remoteCrRid: RID, spaceId: U16)

  datatype ApEntry = ApEntry(aid: AID, rid: RID, iface: int)

  datatype UserStatus = Online | MovedAway | Offline

  datatype UserState = UserState(apAid: AID, status: UserStatus, attributes: string)

  /** The value of all tables. The dictionaries that the router iterates over, spaces and
      aps, are kept as sequences in insertion order. */
  datatype Tables = Tables(
    spaces: seq<SpaceEntry>,
    routeNeighbors: seq<RouteNeighbor>,
    accessNeighbors: seq<AccessNeighbor>,
    routes: seq<RouteEntry>,
    local: map<AID, RID>,
    remote: map<AID, Mapping>,
    aps: seq<ApEntry>,
    users: map<AID, UserState>)

  // -------------------------------------------------- first matches in insertion order

  function CoveringSpace(spaces: seq<SpaceEntry>, rid: RID): (r: Option<SpaceEntry>)
    ensures r.None? <==> forall e | e in spaces :: !e.space.Contains(rid)
    ensures r.Some? ==> r.value in spaces && r.value.space.Contains(rid)
  {
    if spaces == [] then None
    else if spaces[0].space.Contains(rid) then Some(spaces[0])
    else CoveringSpace(spaces[1..], rid)
  }

  function ApByRid(aps: seq<ApEntry>, rid: RID): (r: Option<ApEntry>)
    ensures r.None? <==> forall ap | ap in aps :: ap.rid != rid
    ensures r.Some? ==> r.value in aps && r.value.rid == rid
  {
    if aps == [] then None
    else if aps[0].rid == rid then Some(aps[0])
    else ApByRid(aps[1..], rid)
  }

  function ApByAid(aps: seq<ApEntry>, aid: AID): (r: Option<ApEntry>)
    ensures r.None? <==> forall ap | ap in aps :: ap.aid != aid
    ensures r.Some? ==> r.value in aps && r.value.aid == aid
  {
    if aps == [] then None
    else if aps[0].aid == aid then Some(aps[0])
    else ApByAid(aps[1..], aid)
  }

  function AccessNeighborOf(nbs: seq<AccessNeighbor>, aid: AID): (r: Option<AccessNeighbor>)
    ensures r.None? <==> forall nb | nb in nbs :: nb.aid != aid
    ensures r.Some? ==> r.value in nbs && r.value.aid == aid
  {
    if nbs == [] then None
    else if nbs[0].aid == aid then Some(nbs[0])
    else AccessNeighborOf(nbs[1..], aid)
  }

  function RouteNeighborOf(nbs: seq<RouteNeighbor>, rid: RID): (r: Option<RouteNeighbor>)
    ensures r.None? <==> forall nb | nb in nbs :: nb.rid != rid
    ensures r.Some? ==> r.value in nbs && r.value.rid == rid
  {
    if nbs == [] then None
    else if nbs[0].rid == rid then Some(nbs[0])
    else RouteNeighborOf(nbs[1..], rid)
  }

  // The control server is the first neighbour in the management space.
  function ManagementNeighbor(nbs: seq<RouteNeighbor>): (r: Option<RouteNeighbor>)
    ensures r.None? <==> forall nb | nb in nbs :: nb.spaceId != 0
    ensures r.Some? ==> r.value in nbs && r.value.spaceId == 0
  {
    if nbs == [] then None
    else if nbs[0].spaceId == 0 then Some(nbs[0])
    else ManagementNeighbor(nbs[1..])
  }

  // What the searches look for.

  function Covering(rid: RID): SpaceEntry -> bool {
    (e: SpaceEntry) => e.space.Contains(rid)
  }

  function ApWithRid(rid: RID): ApEntry -> bool {
    (ap: ApEntry) => ap.rid == rid
  }

  function ApWithAid(aid: AID): ApEntry -> bool {
    (ap: ApEntry) => ap.aid == aid
  }

  function NeighborWithAid(aid: AID): AccessNeighbor -> bool {
    (nb: AccessNeighbor) => nb.aid == aid
  }

  function NeighborWithRid(rid: RID): RouteNeighbor -> bool {
    (nb: RouteNeighbor) => nb.rid == rid
  }

  function NeighborInSpace(spaceId: U16): RouteNeighbor -> bool {
    (nb: RouteNeighbor) => nb.spaceId == spaceId
  }

  /** x is the element of s that satisfies p and has none before it that does. */
  ghost predicate IsFirst<T>(s: seq<T>, p: T -> bool, x: T) {
    exists i | 0 <= i < |s| :: s[i] == x && p(s[i]) && forall j | 0 <= j < i :: !p(s[j])
  }

  lemma FirstOfRest<T>(s: seq<T>, p: T -> bool, x: T)
    requires s != []
    ensures IsFirst(s, p, x) <==> if p(s[0]) then x == s[0] else IsFirst(s[1..], p, x)
  {
    if !p(s[0]) && IsFirst(s[1..], p, x) {
      var i :| 0 <= i < |s[1..]| && s[1..][i] == x && p(s[1..][i]) && forall j | 0 <= j < i :: !p(s[1..][j]);
      assert s[i + 1] == x && forall j | 0 <= j < i + 1 :: !p(s[j]);
    }
    if !p(s[0]) && IsFirst(s, p, x) {
      var i :| 0 <= i < |s| && s[i] == x && p(s[i]) && forall j | 0 <= j < i :: !p(s[j]);
      assert s[1..][i - 1] == x && forall j | 0 <= j < i - 1 :: s[1..][j] == s[j + 1];
    }
  }

  lemma {:induction false} CoveringSpaceIsFirst(spaces: seq<SpaceEntry>, rid: RID, e: SpaceEntry)
    ensures CoveringSpace(spaces, rid) == Some(e) <==> IsFirst(spaces, Covering(rid), e)
  {
    if spaces != [] {
      FirstOfRest(spaces, Covering(rid), e);
      CoveringSpaceIsFirst(spaces[1..], rid, e);
    }
  }

  lemma {:induction false} ApByRidIsFirst(aps: seq<ApEntry>, rid: RID, ap: ApEntry)
    ensures ApByRid(aps, rid) == Some(ap) <==> IsFirst(aps, ApWithRid(rid), ap)
  {
    if aps != [] {
      FirstOfRest(aps, ApWithRid(rid), ap);
      ApByRidIsFirst(aps[1..], rid, ap);
    }
  }

  lemma {:induction false} ApByAidIsFirst(aps: seq<ApEntry>, aid: AID, ap: ApEntry)
    ensures ApByAid(aps, aid) == Some(ap) <==> IsFirst(aps, ApWithAid(aid), ap)
  {
    if aps != [] {
      FirstOfRest(aps, ApWithAid(aid), ap);
      ApByAidIsFirst(aps[1..], aid, ap);
    }
  }

  lemma {:induction false} AccessNeighborIsFirst(nbs: seq<AccessNeighbor>, aid: AID, nb: AccessNeighbor)
    ensures AccessNeighborOf(nbs, aid) == Some(nb) <==> IsFirst(nbs, NeighborWithAid(aid), nb)
  {
    if nbs != [] {
      FirstOfRest(nbs, NeighborWithAid(aid), nb);
      AccessNeighborIsFirst(nbs[1..], aid, nb);
    }
  }

  lemma {:induction false} RouteNeighborIsFirst(nbs: seq<RouteNeighbor>, rid: RID, nb: RouteNeighbor)
    ensures RouteNeighborOf(nbs, rid) == Some(nb) <==> IsFirst(nbs, NeighborWithRid(rid), nb)
  {
    if nbs != [] {
      FirstOfRest(nbs, NeighborWithRid(rid), nb);
      RouteNeighborIsFirst(nbs[1..], rid, nb);
    }
  }

  lemma {:induction false} ManagementNeighborIsFirst(nbs: seq<RouteNeighbor>, nb: RouteNeighbor)
    ensures ManagementNeighbor(nbs) == Some(nb) <==> IsFirst(nbs, NeighborInSpace(0), nb)
  {
    if nbs != [] {
      FirstOfRest(nbs, NeighborInSpace(0), nb);
      ManagementNeighborIsFirst(nbs[1..], nb);
    }
  }

  predicate IsLocalRid(t: Tables, rid: RID) {
    ApByRid(t.aps, rid).Some?
  }

  predicate IsLocalAid(t: Tables, aid: AID) {
    aid in t.users && t.users[aid].status.Online?
  }

  /** The user is online here, at an AP of this router. */
  predicate ServedBy(t: Tables, aid: AID, ap: ApEntry) {
    IsLocalAid(t, aid) && ApByAid(t.aps, t.users[aid].apAid) == Some(ap)
  }

  function WithUser(t: Tables, aid: AID, state: UserState): Tables {
    t.(users := t.users[aid := state])
  }

  lemma LastStateCounts(t: Tables, aid: AID, first: UserState, second: UserState)
    ensures WithUser(WithUser(t, aid, first), aid, second) == WithUser(t, aid, second)
  {}

  predicate UniqueAps(aps: seq<ApEntry>) {
    forall i, j | 0 <= i < j < |aps| :: aps[i].aid != aps[j].aid
  }

  lemma {:induction false} ApByAidOfUnique(aps: seq<ApEntry>, ap: ApEntry)
    requires UniqueAps(aps) && ap in aps
    ensures ApByAid(aps, ap.aid) == Some(ap)
  {
    if aps[0] != ap {
      assert ap in aps[1..];
      var j :| 0 <= j < |aps| && aps[j] == ap;
      assert aps[0].aid != aps[j].aid;
      ApByAidOfUnique(aps[1..], ap);
    }
  }

  // Assignment to a dictionary: an existing key keeps its place.
  function PutAp(aps: seq<ApEntry>, e: ApEntry): (r: seq<ApEntry>)
    ensures e in r
    ensures forall ap | ap in aps && ap.aid != e.aid :: ap in r
    ensures forall ap | ap in r :: ap == e || (ap in aps && (UniqueAps(aps) ==> ap.aid != e.aid))
    ensures UniqueAps(aps) ==> UniqueAps(r)
  {
    if aps == [] then [e]
    else if aps[0].aid == e.aid then [e] + aps[1..]
    else
      assert UniqueAps(aps) ==> UniqueAps(aps[1..]);
      [aps[0]] + PutAp(aps[1..], e)
  }

  /** The two list the same APs in the same order, up to the RIDs and interfaces of an AP. */
  predicate SameOrder(aps: seq<ApEntry>, aps': seq<ApEntry>) {
    |aps| == |aps'| && forall i | 0 <= i < |aps| :: aps[i].aid == aps'[i].aid
  }

  /** What looking an AP up finds after the assignment. */
  lemma {:induction false} PutApFound(aps: seq<ApEntry>, e: ApEntry, a: AID)
    ensures ApByAid(PutAp(aps, e), a) == if a == e.aid then Some(e) else ApByAid(aps, a)
  {
    if aps != [] {
      if aps[0].aid == e.aid {
        assert PutAp(aps, e)[1..] == aps[1..];
      } else {
        PutApFound(aps[1..], e, a);
        assert PutAp(aps, e)[1..] == PutAp(aps[1..], e);
      }
    }
  }

  lemma {:induction false} PutKnownAp(aps: seq<ApEntry>, e: ApEntry)
    requires ApByAid(aps, e.aid).Some?
    ensures SameOrder(aps, PutAp(aps, e))
  {
    if aps[0].aid != e.aid {
      PutKnownAp(aps[1..], e);
      SameOrderBehind(aps[0], aps[1..], PutAp(aps[1..], e));
      assert aps == [aps[0]] + aps[1..];
      assert PutAp(aps, e) == [aps[0]] + PutAp(aps[1..], e);
    }
  }

  lemma SameOrderBehind(ap: ApEntry, aps: seq<ApEntry>, aps': seq<ApEntry>)
    requires SameOrder(aps, aps')
    ensures SameOrder([ap] + aps, [ap] + aps')
  {}

  lemma {:induction false} PutNewAp(aps: seq<ApEntry>, e: ApEntry)
    requires ApByAid(aps, e.aid).None?
    ensures PutAp(aps, e) == aps + [e]
  {
    if aps != [] {
      PutNewAp(aps[1..], e);
      assert [aps[0]] + (aps[1..] + [e]) == aps + [e];
    }
  }

  // -------------------------------------------------------------- entries on the heap

  class MappingEntry {
    const aid: AID
    var mappedRid: RID
    var remoteCrRid: RID
    var spaceId: U16

    constructor (aid: AID, mappedRid: RID, remoteCrRid: RID, spaceId: U16)
      ensures this.aid == aid && View() == Mapping(mappedRid, remoteCrRid, spaceId)
    {
      this.aid := aid;
      this.mappedRid, this.remoteCrRid, this.spaceId := mappedRid, remoteCrRid, spaceId;
    }

    function View(): Mapping
      reads this
    {
      Mapping(mappedRid, remoteCrRid, spaceId)
    }
  }

  class UserStatusEntry {
    const userAid: AID
    var apAid: AID
    var status: UserStatus
    var attributes: string

    constructor (userAid: AID, apAid: AID, status: UserStatus, attributes: string)
      ensures this.userAid == userAid && View() == UserState(apAid, status, attributes)
    {
      this.userAid := userAid;
      this.apAid, this.status, this.attributes := apAid, status, attributes;
    }

    function View(): UserState
      reads this
    {
      UserState(apAid, status, attributes)
    }
  }

  class CRTables {
    var ridSpaces: seq<SpaceEntry>
    var routeNeighbors: seq<RouteNeighbor>
    var accessNeighbors: seq<AccessNeighbor>
    var ridRoutes: seq<RouteEntry>
    var localMappings: map<AID, RID>
    var remoteMappings: map<AID, MappingEntry>
    var associatedAps: seq<ApEntry>
    var userStatuses: map<AID, UserStatusEntry>

    constructor ()
      ensures Valid()
      ensures Snapshot() == Tables([], [], [], [], map[], map[], [], map[])
    {
      ridSpaces, routeNeighbors, accessNeighbors, ridRoutes := [], [], [], [];
      localMappings, remoteMappings, associatedAps, userStatuses := map[], map[], [], map[];
    }

    /** No two AIDs share an entry object, and every entry is filed under its own AID. */
    ghost predicate Valid()
      reads this
    {
      && (forall a | a in remoteMappings :: remoteMappings[a].aid == a)
      && (forall a | a in userStatuses :: userStatuses[a].userAid == a)
      && UniqueAps(associatedAps)
    }

    ghost function RemoteView(): map<AID, Mapping>
      reads this`remoteMappings, remoteMappings.Values
    {
      map a | a in remoteMappings :: remoteMappings[a].View()
    }

    ghost function UsersView(): map<AID, UserState>
      reads this`userStatuses, userStatuses.Values
    {
      map a | a in userStatuses :: userStatuses[a].View()
    }

    ghost function Snapshot(): Tables
      reads this, remoteMappings.Values, userStatuses.Values
    {
      Tables(ridSpaces, routeNeighbors, accessNeighbors, ridRoutes,
             localMappings, RemoteView(), associatedAps, UsersView())
    }

    lemma EntriesNeverAlias(a: AID, b: AID)
      requires Valid() && a != b
      ensures a in remoteMappings && b in remoteMappings ==> remoteMappings[a] != remoteMappings[b]
      ensures a in userStatuses && b in userStatuses ==> userStatuses[a] != userStatuses[b]
    {}

    method MatchingRidSpace(rid: RID) returns (r: Option<SpaceEntry>)
      ensures r == CoveringSpace(ridSpaces, rid)
    {
      for i := 0 to |ridSpaces|
        invariant CoveringSpace(ridSpaces, rid) == CoveringSpace(ridSpaces[i..], rid)
      {
        if ridSpaces[i].space.Contains(rid) {
          return Some(ridSpaces[i]);
        }
      }
      return None;
    }

    method LocalRid(rid: RID) returns (found: bool)
      ensures found <==> exists ap | ap in associatedAps :: ap.rid == rid
    {
      for i := 0 to |associatedAps|
        invariant ApByRid(associatedAps, rid) == ApByRid(associatedAps[i..], rid)
      {
        if associatedAps[i].rid == rid {
          return true;
        }
      }
      return false;
    }

    method LocalAid(aid: AID) returns (found: bool)
      requires Valid()
      ensures found <==> IsLocalAid(Snapshot(), aid)
    {
      return aid in userStatuses && userStatuses[aid].status.Online?;
    }

    method UserApAid(aid: AID) returns (r: Option<AID>)
      ensures r == if IsLocalAid(Snapshot(), aid) then Some(UsersView()[aid].apAid) else None
    {
      if aid in userStatuses && userStatuses[aid].status.Online? {
        return Some(userStatuses[aid].apAid);
      }
      return None;
    }

    method AssociatedAp(aid: AID) returns (r: Option<ApEntry>)
      ensures r == ApByAid(associatedAps, aid)
    {
      for i := 0 to |associatedAps|
        invariant ApByAid(associatedAps, aid) == ApByAid(associatedAps[i..], aid)
      {
        if associatedAps[i].aid == aid {
          return Some(associatedAps[i]);
        }
      }
      return None;
    }

    /** The AP's AID leads to the new entry and every other AID to what it led to; a known AP keeps
        its place among the APs, a new one comes last. */
    method AddAssociatedAp(e: ApEntry)
      requires Valid()
      modifies this`associatedAps
      ensures Valid()
      ensures ApByAid(associatedAps, e.aid) == Some(e)
      ensures forall a | a != e.aid :: ApByAid(associatedAps, a) == ApByAid(old(associatedAps), a)
      ensures if ApByAid(old(associatedAps), e.aid).Some? then SameOrder(old(associatedAps), associatedAps)
              else associatedAps == old(associatedAps) + [e]
    {
      forall a
        ensures ApByAid(PutAp(associatedAps, e), a) == if a == e.aid then Some(e) else ApByAid(associatedAps, a)
      {
        PutApFound(associatedAps, e, a);
      }
      if ApByAid(associatedAps, e.aid).Some? {
        PutKnownAp(associatedAps, e);
      } else {
        PutNewAp(associatedAps, e);
      }
      associatedAps := PutAp(associatedAps, e);
    }

    method SetUserStatus(userAid: AID, apAid: AID, status: UserStatus, attributes: string)
      requires Valid()
      modifies this`userStatuses
      ensures Valid()
      ensures Snapshot() == WithUser(old(Snapshot()), userAid, UserState(apAid, status, attributes))
      ensures forall a | a in old(userStatuses) && a != userAid ::
                a in userStatuses && userStatuses[a] == old(userStatuses[a])
      ensures userAid in userStatuses && fresh(userStatuses[userAid])
      ensures userStatuses[userAid].View() == UserState(apAid, status, attributes)
      ensures userStatuses.Keys == old(userStatuses.Keys) + {userAid}
    {
      var e := new UserStatusEntry(userAid, apAid, status, attributes);
      userStatuses := userStatuses[userAid := e];
      assert UsersView() == old(UsersView())[userAid := UserState(apAid, status, attributes)];
      assert RemoteView() == old(RemoteView());
    }

    method SetServingAp(userAid: AID, apAid: AID)
      requires Valid() && userAid in userStatuses
      modifies userStatuses[userAid]
      ensures Valid()
      ensures Snapshot() == WithUser(old(Snapshot()), userAid, old(userStatuses[userAid].View()).(apAid := apAid))
    {
      forall a | a in userStatuses && a != userAid
        ensures userStatuses[a] != userStatuses[userAid]
      {
        EntriesNeverAlias(a, userAid);
      }
      userStatuses[userAid].apAid := apAid;
      assert UsersView() == old(UsersView())[userAid := old(userStatuses[userAid].View()).(apAid := apAid)];
      assert RemoteView() == old(RemoteView());
    }
  }
}
