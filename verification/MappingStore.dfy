// The mapping tables of a core router (src/routing/mapping.py): local mappings shadow remote
// ones, and a remote entry is an object that mobility updates change in place.

module MappingStore {
  import opened Wrappers
  import opened Addressing
  import opened Packets
  import opened CrTables

  const NO_RID := RID(0, 0)

  /** Local first, then remote; a local mapping names no remote router. */
  function LookupAny(local: map<AID, RID>, remote: map<AID, Mapping>, aid: AID): Option<Mapping> {
    if aid in local then Some(Mapping(local[aid], NO_RID, 0))
    else if aid in remote then Some(remote[aid])
    else None
  }

  /** The effect of a mobility update on the remote mappings. */
  function UpdateRemote(remote: map<AID, Mapping>, aid: AID, newRid: RID, newCrRid: RID): map<AID, Mapping> {
    remote[aid := Mapping(newRid, newCrRid, if aid in remote then remote[aid].spaceId else 100)]
  }

  // Removing a key from a dictionary, whether or not it is there.
  function Pop<K, V>(m: map<K, V>, k: K): map<K, V> {
    map x | x in m && x != k :: m[x]
  }

  method CrLookupAnyMapping(tables: CRTables, aid: AID) returns (m: MappingEntry?)
    requires tables.Valid()
    ensures m == null <==> LookupAny(tables.localMappings, tables.RemoteView(), aid).None?
    ensures m != null ==> LookupAny(tables.localMappings, tables.RemoteView(), aid) == Some(m.View())
    ensures m != null ==> if aid in tables.localMappings then fresh(m) else m == tables.remoteMappings[aid]
  {
    if aid in tables.localMappings {
      m := new MappingEntry(aid, tables.localMappings[aid], NO_RID, 0);
    } else if aid in tables.remoteMappings {
      m := tables.remoteMappings[aid];
    } else {
      m := null;
    }
  }

  method CrAddLocalMapping(tables: CRTables, aid: AID, mappedRid: RID)
    requires tables.Valid()
    modifies tables`localMappings
    ensures tables.Valid()
    ensures tables.localMappings == old(tables.localMappings)[aid := mappedRid]
  {
    tables.localMappings := tables.localMappings[aid := mappedRid];
  }

  method CrAddRemoteMapping(tables: CRTables, aid: AID, mappedRid: RID, remoteCrRid: RID, spaceId: U16)
    requires tables.Valid()
    modifies tables`remoteMappings
    ensures tables.Valid()
    ensures tables.RemoteView() == old(tables.RemoteView())[aid := Mapping(mappedRid, remoteCrRid, spaceId)]
    ensures aid in tables.remoteMappings && fresh(tables.remoteMappings[aid])
    ensures tables.remoteMappings.Keys == old(tables.remoteMappings.Keys) + {aid}
    ensures forall a | a in old(tables.remoteMappings) && a != aid ::
              a in tables.remoteMappings && tables.remoteMappings[a] == old(tables.remoteMappings)[a]
  {
    var e := new MappingEntry(aid, mappedRid, remoteCrRid, spaceId);
    tables.remoteMappings := tables.remoteMappings[aid := e];
  }

  /** The update changes the view of no other AID, keeps the entry object and its space. */
  method CrUpdateMapping(tables: CRTables, aid: AID, newRid: RID, newCrRid: RID)
    requires tables.Valid()
    modifies tables`remoteMappings
    modifies if aid in tables.remoteMappings then {tables.remoteMappings[aid]} else {}
    ensures tables.Valid()
    ensures tables.RemoteView() == UpdateRemote(old(tables.RemoteView()), aid, newRid, newCrRid)
    ensures aid in old(tables.remoteMappings) ==> tables.remoteMappings == old(tables.remoteMappings)
    ensures forall a | a in old(tables.remoteMappings) ::
              a in tables.remoteMappings && tables.remoteMappings[a] == old(tables.remoteMappings)[a]
    ensures aid in tables.remoteMappings && (aid !in old(tables.remoteMappings) ==> fresh(tables.remoteMappings[aid]))
    ensures tables.remoteMappings.Keys == old(tables.remoteMappings.Keys) + {aid}
  {
    if aid in tables.remoteMappings {
      forall a | a in tables.remoteMappings && a != aid
        ensures tables.remoteMappings[a] != tables.remoteMappings[aid]
      {
        tables.EntriesNeverAlias(a, aid);
      }
      tables.remoteMappings[aid].mappedRid := newRid;
      tables.remoteMappings[aid].remoteCrRid := newCrRid;
    } else {
      CrAddRemoteMapping(tables, aid, newRid, newCrRid, 100);
    }
  }

  method CrRemoveMapping(tables: CRTables, aid: AID)
    requires tables.Valid()
    modifies tables`localMappings, tables`remoteMappings
    ensures tables.Valid()
    ensures tables.localMappings == Pop(old(tables.localMappings), aid)
    ensures tables.RemoteView() == Pop(old(tables.RemoteView()), aid)
    ensures forall a | a in tables.remoteMappings ::
              a in old(tables.remoteMappings) && tables.remoteMappings[a] == old(tables.remoteMappings)[a]
  {
    tables.localMappings := Pop(tables.localMappings, aid);
    tables.remoteMappings := Pop(tables.remoteMappings, aid);
  }

  // ---------------------------------------------------------------- sequences of calls

  datatype StoreOp =
    | AddLocal(aid: AID, rid: RID)
    | AddRemote(aid: AID, rid: RID, crRid: RID, spaceId: U16)
    | Update(aid: AID, rid: RID, crRid: RID)
    | Remove(aid: AID)

  datatype Store = Store(local: map<AID, RID>, remote: map<AID, Mapping>)

  function ApplyOp(s: Store, op: StoreOp): Store {
    match op
    case AddLocal(a, r) => s.(local := s.local[a := r])
    case AddRemote(a, r, cr, sp) => s.(remote := s.remote[a := Mapping(r, cr, sp)])
    case Update(a, r, cr) => s.(remote := UpdateRemote(s.remote, a, r, cr))
    case Remove(a) => Store(Pop(s.local, a), Pop(s.remote, a))
  }

  function ApplyOps(ops: seq<StoreOp>): Store {
    if ops == [] then Store(map[], map[])
    else ApplyOp(ApplyOps(ops[..|ops| - 1]), ops[|ops| - 1])
  }

  /** Running a sequence of calls on the object store reaches the state the values predict. */
  method RunOps(tables: CRTables, ops: seq<StoreOp>)
    requires tables.Valid() && tables.localMappings == map[] && tables.remoteMappings == map[]
    modifies tables`localMappings, tables`remoteMappings
    ensures tables.Valid()
    ensures Store(tables.localMappings, tables.RemoteView()) == ApplyOps(ops)
  {
    assert tables.RemoteView() == map[];
    for i := 0 to |ops|
      invariant tables.Valid()
      invariant forall a | a in tables.remoteMappings :: fresh(tables.remoteMappings[a])
      invariant Store(tables.localMappings, tables.RemoteView()) == ApplyOps(ops[..i])
    {
      assert ops[..i + 1][..i] == ops[..i];
      match ops[i]
      case AddLocal(a, r) => CrAddLocalMapping(tables, a, r);
      case AddRemote(a, r, cr, sp) => CrAddRemoteMapping(tables, a, r, cr, sp);
      case Update(a, r, cr) => CrUpdateMapping(tables, a, r, cr);
      case Remove(a) => CrRemoveMapping(tables, a);
    }
    assert ops[..|ops|] == ops;
  }

  // What the lookup should answer, read off the history of calls: scan it backwards until
  // the AID was removed.

  function LatestLocal(ops: seq<StoreOp>, aid: AID): Option<RID> {
    if ops == [] then None
    else
      match ops[|ops| - 1]
      case Remove(a) => if a == aid then None else LatestLocal(ops[..|ops| - 1], aid)
      case AddLocal(a, r) => if a == aid then Some(r) else LatestLocal(ops[..|ops| - 1], aid)
      case _ => LatestLocal(ops[..|ops| - 1], aid)
  }

  // The space of the most recent explicit addition, or 100 if only updates created the entry.
  function LatestSpace(ops: seq<StoreOp>, aid: AID): U16 {
    if ops == [] then 100
    else
      match ops[|ops| - 1]
      case Remove(a) => if a == aid then 100 else LatestSpace(ops[..|ops| - 1], aid)
      case AddRemote(a, _, _, sp) => if a == aid then sp else LatestSpace(ops[..|ops| - 1], aid)
      case _ => LatestSpace(ops[..|ops| - 1], aid)
  }

  function LatestRemote(ops: seq<StoreOp>, aid: AID): Option<(RID, RID)> {
    if ops == [] then None
    else
      match ops[|ops| - 1]
      case Remove(a) => if a == aid then None else LatestRemote(ops[..|ops| - 1], aid)
      case AddRemote(a, r, cr, _) => if a == aid then Some((r, cr)) else LatestRemote(ops[..|ops| - 1], aid)
      case Update(a, r, cr) => if a == aid then Some((r, cr)) else LatestRemote(ops[..|ops| - 1], aid)
      case AddLocal(_, _) => LatestRemote(ops[..|ops| - 1], aid)
  }

  function ExpectedAnswer(ops: seq<StoreOp>, aid: AID): Option<Mapping> {
    match LatestLocal(ops, aid)
    case Some(r) => Some(Mapping(r, NO_RID, 0))
    case None =>
      match LatestRemote(ops, aid)
      case Some((r, cr)) => Some(Mapping(r, cr, LatestSpace(ops, aid)))
      case None => None
  }

  lemma {:induction false} StoreFollowsHistory(ops: seq<StoreOp>, aid: AID)
    ensures var s := ApplyOps(ops);
            && (aid in s.local <==> LatestLocal(ops, aid).Some?)
            && (aid in s.local ==> LatestLocal(ops, aid) == Some(s.local[aid]))
            && (aid in s.remote <==> LatestRemote(ops, aid).Some?)
            && (aid in s.remote ==>
                  LatestRemote(ops, aid) == Some((s.remote[aid].mappedRid, s.remote[aid].remoteCrRid))
                  && s.remote[aid].spaceId == LatestSpace(ops, aid))
            && (aid !in s.remote ==> LatestSpace(ops, aid) == 100)
    decreases |ops|
  {
    if ops != [] {
      StoreFollowsHistory(ops[..|ops| - 1], aid);
    }
  }

  /** After any sequence of calls the lookup answers what the history says. */
  lemma LookupFollowsHistory(ops: seq<StoreOp>, aid: AID)
    ensures LookupAny(ApplyOps(ops).local, ApplyOps(ops).remote, aid) == ExpectedAnswer(ops, aid)
  {
    StoreFollowsHistory(ops, aid);
  }
}
