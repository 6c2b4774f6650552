// Two-dimensional prefix-product routing (src/routing/rid_routing.py).

module RidRouting {
  import opened Wrappers
  import opened Addressing
  import opened CrTables

  // The scan's two filters: the space id, then the two prefix lengths.
  predicate Covers(e: RouteEntry, dst: RID, spaceId: int) {
    && e.spaceId == spaceId
    && CommonPrefixBits(dst.x, e.dest.x, 32) >= e.dest.xMask
    && CommonPrefixBits(dst.y, e.dest.y, 32) >= e.dest.yMask
  }

  function Product(s: RIDSpace): nat {
    s.xMask * s.yMask
  }

  /** a is preferred to b: a larger mask product, then a larger X mask, then a larger Y mask. */
  predicate Better(a: RIDSpace, b: RIDSpace) {
    || Product(a) > Product(b)
    || (Product(a) == Product(b) && a.xMask > b.xMask)
    || (Product(a) == Product(b) && a.xMask == b.xMask && a.yMask > b.yMask)
  }

  /** What the scan computes, from the first entry to the last. */
  function Lookup(routes: seq<RouteEntry>, dst: RID, spaceId: int): Option<RouteEntry> {
    if routes == [] then None
    else
      var best := Lookup(routes[..|routes| - 1], dst, spaceId);
      var e := routes[|routes| - 1];
      if Covers(e, dst, spaceId) && (best.Some? ==> Better(e.dest, best.value.dest)) then Some(e) else best
  }

  function NextHop(routes: seq<RouteEntry>, dst: RID, spaceId: int): Option<RID> {
    match Lookup(routes, dst, spaceId)
    case None => None
    case Some(e) => Some(e.nextHop)
  }

  /** Entry i is the first one, in table order, that is maximal among those covering dst. */
  ghost predicate FirstBest(routes: seq<RouteEntry>, dst: RID, spaceId: int, i: int) {
    && 0 <= i < |routes|
    && Covers(routes[i], dst, spaceId)
    && (forall j | 0 <= j < |routes| && Covers(routes[j], dst, spaceId) :: !Better(routes[j].dest, routes[i].dest))
    && (forall j | 0 <= j < i && Covers(routes[j], dst, spaceId) :: Better(routes[i].dest, routes[j].dest))
  }

  method RidLookup(tables: CRTables, dst: RID, spaceId: int) returns (best: Option<RouteEntry>)
    ensures best == Lookup(tables.ridRoutes, dst, spaceId)
  {
    best := None;
    var bestProduct: int, bestX: int, bestY: int := -1, -1, -1;
    var routes := tables.ridRoutes;
    for i := 0 to |routes|
      invariant best == Lookup(routes[..i], dst, spaceId)
      invariant best.None? ==> bestProduct == bestX == bestY == -1
      invariant best.Some? ==>
        bestProduct == Product(best.value.dest) && bestX == best.value.dest.xMask && bestY == best.value.dest.yMask
    {
      var e := routes[i];
      assert routes[..i + 1][..i] == routes[..i];
      if e.spaceId != spaceId {
        continue;
      }
      var xp := CommonPrefixBits(dst.x, e.dest.x, 32);
      var yp := CommonPrefixBits(dst.y, e.dest.y, 32);
      if xp < e.dest.xMask || yp < e.dest.yMask {
        continue;
      }
      var product := e.dest.xMask * e.dest.yMask;
      if product > bestProduct
         || (product == bestProduct && e.dest.xMask > bestX)
         || (product == bestProduct && e.dest.xMask == bestX && e.dest.yMask > bestY)
      {
        best := Some(e);
        bestProduct, bestX, bestY := product, e.dest.xMask, e.dest.yMask;
      }
    }
    assert routes[..|routes|] == routes;
  }

  method RidLookupNextHop(tables: CRTables, dst: RID, spaceId: int) returns (hop: Option<RID>)
    ensures hop == NextHop(tables.ridRoutes, dst, spaceId)
    ensures hop.None? <==> forall e | e in tables.ridRoutes :: !Reaches(e, dst, spaceId)
    ensures forall n :: hop == Some(n) <==>
              exists i :: FirstBest(tables.ridRoutes, dst, spaceId, i) && tables.ridRoutes[i].nextHop == n
  {
    var e := RidLookup(tables, dst, spaceId);
    hop := if e.Some? then Some(e.value.nextHop) else None;
    forall n
      ensures hop == Some(n) <==>
                exists i :: FirstBest(tables.ridRoutes, dst, spaceId, i) && tables.ridRoutes[i].nextHop == n
    {
      NextHopIsOfTheFirstBest(tables.ridRoutes, dst, spaceId, n);
    }
    NextHopIsOfTheFirstBest(tables.ridRoutes, dst, spaceId, dst);
  }

  method RidRouteAdd(tables: CRTables, e: RouteEntry)
    modifies tables`ridRoutes
    ensures tables.ridRoutes == old(tables.ridRoutes) + [e]
  {
    tables.ridRoutes := tables.ridRoutes + [e];
  }

  method RidRouteRemove(tables: CRTables, spaceId: int, target: RIDSpace) returns (found: bool)
    modifies tables`ridRoutes
    ensures found <==> exists e | e in old(tables.ridRoutes) :: e.spaceId == spaceId && e.dest == target
    ensures !found ==> tables.ridRoutes == old(tables.ridRoutes)
    ensures found ==> exists i | 0 <= i < |old(tables.ridRoutes)| ::
              && old(tables.ridRoutes)[i].spaceId == spaceId && old(tables.ridRoutes)[i].dest == target
              && (forall e | e in old(tables.ridRoutes)[..i] :: !(e.spaceId == spaceId && e.dest == target))
              && tables.ridRoutes == old(tables.ridRoutes)[..i] + old(tables.ridRoutes)[i + 1..]
  {
    for i := 0 to |tables.ridRoutes|
      invariant tables.ridRoutes == old(tables.ridRoutes)
      invariant forall e | e in tables.ridRoutes[..i] :: !(e.spaceId == spaceId && e.dest == target)
    {
      if tables.ridRoutes[i].spaceId == spaceId && tables.ridRoutes[i].dest == target {
        tables.ridRoutes := Without(tables.ridRoutes, i);
        return true;
      }
    }
    return false;
  }

  function Without<T>(s: seq<T>, i: int): seq<T>
    requires 0 <= i < |s|
  {
    s[..i] + s[i + 1..]
  }

  // --------------------------------------------------------- what the scan computes

  lemma {:induction false} LookupIsFirstBest(routes: seq<RouteEntry>, dst: RID, spaceId: int)
    ensures Lookup(routes, dst, spaceId).None? <==> forall e | e in routes :: !Covers(e, dst, spaceId)
    ensures Lookup(routes, dst, spaceId).Some? ==>
              exists i :: FirstBest(routes, dst, spaceId, i) && routes[i] == Lookup(routes, dst, spaceId).value
    decreases |routes|
  {
    if routes != [] {
      var n := |routes| - 1;
      var front := routes[..n];
      LookupIsFirstBest(front, dst, spaceId);
      assert routes == front + [routes[n]];
      var best := Lookup(front, dst, spaceId);
      if best.Some? {
        var k :| FirstBest(front, dst, spaceId, k) && front[k] == best.value;
        LastEntryDecides(routes, dst, spaceId, k);
      } else if Covers(routes[n], dst, spaceId) {
        assert forall j | 0 <= j < n :: routes[j] == front[j] && front[j] in front;
        assert FirstBest(routes, dst, spaceId, n);
      }
    }
  }

  lemma LastEntryDecides(routes: seq<RouteEntry>, dst: RID, spaceId: int, k: int)
    requires routes != [] && FirstBest(routes[..|routes| - 1], dst, spaceId, k)
    ensures var n := |routes| - 1;
            FirstBest(routes, dst, spaceId,
              if Covers(routes[n], dst, spaceId) && Better(routes[n].dest, routes[k].dest) then n else k)
  {
    var front := routes[..|routes| - 1];
    assert forall j | 0 <= j < |front| :: routes[j] == front[j];
  }

  lemma FirstBestIsUnique(routes: seq<RouteEntry>, dst: RID, spaceId: int, i: int, j: int)
    requires FirstBest(routes, dst, spaceId, i) && FirstBest(routes, dst, spaceId, j)
    ensures i == j
  {}

  /** A first-best entry is what the lookup returns: the two characterise each other. */
  lemma FirstBestIsLookup(routes: seq<RouteEntry>, dst: RID, spaceId: int, i: int)
    requires FirstBest(routes, dst, spaceId, i)
    ensures Lookup(routes, dst, spaceId) == Some(routes[i])
  {
    LookupIsFirstBest(routes, dst, spaceId);
    assert routes[i] in routes;
    var k :| FirstBest(routes, dst, spaceId, k) && routes[k] == Lookup(routes, dst, spaceId).value;
    FirstBestIsUnique(routes, dst, spaceId, i, k);
  }

  /** The next hop is that of the first best entry, and there is none exactly when no entry of the
      space has a block with the destination in it. */
  lemma NextHopIsOfTheFirstBest(routes: seq<RouteEntry>, dst: RID, spaceId: int, n: RID)
    ensures NextHop(routes, dst, spaceId) == Some(n)
       <==> exists i :: FirstBest(routes, dst, spaceId, i) && routes[i].nextHop == n
    ensures NextHop(routes, dst, spaceId).None? <==> forall e | e in routes :: !Reaches(e, dst, spaceId)
  {
    LookupIsFirstBest(routes, dst, spaceId);
    forall i | FirstBest(routes, dst, spaceId, i) ensures Lookup(routes, dst, spaceId) == Some(routes[i]) {
      FirstBestIsLookup(routes, dst, spaceId, i);
    }
    forall e | e in routes ensures Covers(e, dst, spaceId) <==> Reaches(e, dst, spaceId) {
      ScanFilterIsContains(e.dest, dst);
    }
  }

  predicate Reaches(e: RouteEntry, dst: RID, spaceId: int) {
    e.spaceId == spaceId && e.dest.Contains(dst)
  }

  /** Entry i has the destination in its block, and of the entries that do it comes first by
      decreasing mask product, X mask, Y mask, and then by position. */
  ghost predicate Chosen(routes: seq<RouteEntry>, dst: RID, spaceId: int, i: int) {
    && 0 <= i < |routes| && Reaches(routes[i], dst, spaceId)
    && forall j | 0 <= j < |routes| && j != i && Reaches(routes[j], dst, spaceId) ::
         var a, b := routes[i].dest, routes[j].dest;
         var more := a.xMask * a.yMask - b.xMask * b.yMask;
         more > 0 || (more == 0 && (a.xMask > b.xMask
           || (a.xMask == b.xMask && (a.yMask > b.yMask || (a.yMask == b.yMask && i < j)))))
  }

  /** The filters and comparisons of the scan choose by that order. */
  lemma FirstBestIsChosen(routes: seq<RouteEntry>, dst: RID, spaceId: int, i: int)
    ensures FirstBest(routes, dst, spaceId, i) <==> Chosen(routes, dst, spaceId, i)
  {
    forall j | 0 <= j < |routes|
      ensures Covers(routes[j], dst, spaceId) <==> Reaches(routes[j], dst, spaceId)
    {
      ScanFilterIsContains(routes[j].dest, dst);
    }
  }

  // ------------------------------------------------------------- independence of order

  /** No two entries of the space denote the same set of RIDs. */
  ghost predicate DistinctBlocks(routes: seq<RouteEntry>, spaceId: int) {
    forall i, j | 0 <= i < j < |routes| && routes[i].spaceId == spaceId == routes[j].spaceId ::
      !SameBlock(routes[i].dest, routes[j].dest)
  }

  lemma TiesAreOneBlock(a: RouteEntry, b: RouteEntry, dst: RID, spaceId: int)
    requires Covers(a, dst, spaceId) && Covers(b, dst, spaceId)
    requires !Better(a.dest, b.dest) && !Better(b.dest, a.dest)
    ensures SameBlock(a.dest, b.dest)
  {
    ScanFilterIsContains(a.dest, dst);
    ScanFilterIsContains(b.dest, dst);
    SameMasksSameBlock(a.dest, b.dest, dst);
  }

  lemma TiedEntriesAreOne(a: seq<RouteEntry>, i: int, j: int, dst: RID, spaceId: int)
    requires DistinctBlocks(a, spaceId) && 0 <= i < |a| && 0 <= j < |a|
    requires Covers(a[i], dst, spaceId) && Covers(a[j], dst, spaceId)
    requires !Better(a[i].dest, a[j].dest) && !Better(a[j].dest, a[i].dest)
    ensures i == j
  {
    TiesAreOneBlock(a[i], a[j], dst, spaceId);
    TiesAreOneBlock(a[j], a[i], dst, spaceId);
  }

  // The first best of one table is, with distinct blocks, the first best of the other.
  lemma SameFirstBest(a: seq<RouteEntry>, b: seq<RouteEntry>, i: int, k: int, dst: RID, spaceId: int)
    requires DistinctBlocks(a, spaceId) && forall e :: e in a <==> e in b
    requires FirstBest(a, dst, spaceId, i) && FirstBest(b, dst, spaceId, k)
    ensures a[i] == b[k]
  {
    assert a[i] in b && b[k] in a;
    var j :| 0 <= j < |a| && a[j] == b[k];
    var l :| 0 <= l < |b| && b[l] == a[i];
    assert !Better(a[j].dest, a[i].dest) && !Better(b[l].dest, b[k].dest);
    TiedEntriesAreOne(a, i, j, dst, spaceId);
  }

  /** With distinct blocks, every permutation of the table answers alike. */
  lemma LookupIgnoresOrder(a: seq<RouteEntry>, b: seq<RouteEntry>, dst: RID, spaceId: int)
    requires multiset(a) == multiset(b)
    requires DistinctBlocks(a, spaceId)
    ensures Lookup(a, dst, spaceId) == Lookup(b, dst, spaceId)
  {
    LookupIsFirstBest(a, dst, spaceId);
    LookupIsFirstBest(b, dst, spaceId);
    forall e ensures e in a <==> e in b {
      assert e in multiset(a) <==> e in multiset(b);
    }
    if Lookup(a, dst, spaceId).Some? {
      var i :| FirstBest(a, dst, spaceId, i) && a[i] == Lookup(a, dst, spaceId).value;
      var k :| FirstBest(b, dst, spaceId, k) && b[k] == Lookup(b, dst, spaceId).value;
      SameFirstBest(a, b, i, k, dst, spaceId);
    }
  }

  /** Appending an entry can change the answer only to that entry, and the answer after it is
      beaten neither by the old answer nor, if it covers, by the new entry. */
  lemma AddedEntryWinsOrChangesNothing(routes: seq<RouteEntry>, e: RouteEntry, dst: RID, spaceId: int)
    ensures var before, after := Lookup(routes, dst, spaceId), Lookup(routes + [e], dst, spaceId);
            && (after == before || after == Some(e))
            && (Covers(e, dst, spaceId) ==> after.Some? && !Better(e.dest, after.value.dest))
            && (before.Some? ==> after.Some? && !Better(before.value.dest, after.value.dest))
  {
    assert (routes + [e])[..|routes|] == routes;
  }

  /** Removing any entry other than the winner leaves the answer as it was. */
  lemma RemovingALoserChangesNothing(routes: seq<RouteEntry>, i: int, dst: RID, spaceId: int)
    requires 0 <= i < |routes|
    requires !FirstBest(routes, dst, spaceId, i)
    ensures Lookup(Without(routes, i), dst, spaceId) == Lookup(routes, dst, spaceId)
  {
    LookupIsFirstBest(routes, dst, spaceId);
    if Lookup(routes, dst, spaceId).None? {
      assert forall e | e in Without(routes, i) :: e in routes;
      LookupIsFirstBest(Without(routes, i), dst, spaceId);
    } else {
      var k :| FirstBest(routes, dst, spaceId, k) && routes[k] == Lookup(routes, dst, spaceId).value;
      WinnerSurvivesRemoval(routes, i, k, dst, spaceId);
    }
  }

  lemma WinnerSurvivesRemoval(routes: seq<RouteEntry>, i: int, k: int, dst: RID, spaceId: int)
    requires 0 <= i < |routes| && i != k
    requires FirstBest(routes, dst, spaceId, k)
    ensures Lookup(Without(routes, i), dst, spaceId) == Some(routes[k])
  {
    var rest, m := Without(routes, i), if k < i then k else k - 1;
    assert forall j | 0 <= j < |rest| :: rest[j] == routes[if j < i then j else j + 1];
    FirstBestIsLookup(rest, dst, spaceId, m);
  }

  // -------------------------------------------------------------------- specificity

  lemma MorePreciseIsBetter(inner: RIDSpace, outer: RIDSpace)
    requires inner.xMask >= outer.xMask && inner.yMask >= outer.yMask
    requires inner.xMask > outer.xMask || inner.yMask > outer.yMask
    ensures Better(inner, outer)
  {
    ProductIsMonotone(inner.xMask, inner.yMask, outer.xMask, outer.yMask);
  }

  lemma ProductIsMonotone(a: nat, b: nat, c: nat, d: nat)
    requires a >= c && b >= d
    ensures a * b >= c * d
  {
    assert a * b - c * d == (a - c) * b + c * (b - d);
  }

  /** No covering entry's block lies strictly inside the block of the chosen entry. */
  lemma WinnerIsMostSpecific(routes: seq<RouteEntry>, dst: RID, spaceId: int, e: RouteEntry)
    requires Lookup(routes, dst, spaceId).Some?
    requires e in routes && Covers(e, dst, spaceId)
    ensures !StrictlyInside(e.dest, Lookup(routes, dst, spaceId).value.dest)
  {
    var w := Lookup(routes, dst, spaceId).value;
    LookupIsFirstBest(routes, dst, spaceId);
    var k :| FirstBest(routes, dst, spaceId, k) && routes[k] == w;
    var j :| 0 <= j < |routes| && routes[j] == e;
    if StrictlyInside(e.dest, w.dest) {
      InsideLengthensMasks(e.dest, w.dest);
      ScanFilterIsContains(e.dest, dst);
      ScanFilterIsContains(w.dest, dst);
      if e.dest.xMask == w.dest.xMask && e.dest.yMask == w.dest.yMask {
        SameMasksSameBlock(e.dest, w.dest, dst);
      } else {
        MorePreciseIsBetter(e.dest, w.dest);
      }
    }
  }

  /** The last tie-break, on the Y mask, can decide only between entries with no X prefix. */
  lemma YTieBreakNeedsEmptyX(a: RIDSpace, b: RIDSpace)
    requires Product(a) == Product(b) && a.xMask == b.xMask && a.yMask > b.yMask
    ensures a.xMask == 0
  {
    assert a.xMask * (a.yMask - b.yMask) == Product(a) - Product(b);
  }
}
