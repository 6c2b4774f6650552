// The mapping control plane as a protocol.

module Replication {
  import opened Wrappers
  import opened Addressing
  import opened Packets
  import opened CrTables
  import opened Signaling
  import opened Forwarding
  import opened ControlService

  // The control server is the only writer of the registry, each managed router keeps a replica, and
  // messages to a router travel on one FIFO channel. The server's and routers' handlers are the
  // functions that ControlServer.dfy and CoreRouter.dfy compute.

  datatype Config = Config(managed: seq<RID>, apToCr: map<RID, RID>)

  datatype Plane = Plane(registry: Registry, routers: map<RID, Router>, channels: map<RID, seq<Signal>>)

  datatype Event =
    | CsReceives(m: Signal, sender: RID)             // any message, from anyone
    | Deliver(c: RID)                                // router c takes its next message
    | SetStatus(c: RID, aid: AID, state: UserState)  // a status set from outside
    | Reconfigure(c: RID, tables: Tables)            // routes, neighbours, spaces, local mappings

  ghost predicate WellFormed(g: Config, s: Plane) {
    && (forall i, j | 0 <= i < j < |g.managed| :: g.managed[i] != g.managed[j])
    && (forall c :: c in g.managed <==> c in s.routers)
    && s.channels.Keys == s.routers.Keys
    && (forall c | c in s.routers :: s.routers[c].myRid == Some(c))
  }

  predicate Enabled(s: Plane, e: Event) {
    match e
    case CsReceives(_, _) => true
    case Deliver(c) => c in s.routers && c in s.channels && s.channels[c] != []
    case SetStatus(c, _, _) => c in s.routers
    case Reconfigure(c, t) =>
      c in s.routers && t.remote == s.routers[c].tables.remote
      && t.users == s.routers[c].tables.users && t.aps == s.routers[c].tables.aps
  }

  // A router's reaction to a control message.
  function Hear(r: Router, m: Signal): Router {
    if m.MappingUpdateNotification? then Learn(r, m) else r
  }

  /** A control packet for the router reaches the handler, and has the effect above, exactly
      when no associated AP has the router's own RID; otherwise it goes out to that AP. */
  lemma ControlPacketIsHeard(c: TextCodec, r: Router, p: RidPdu, m: Signal)
    requires c.Keeps(JObj(ToDict(m))) && p.payload == EncodeSignal(c, m)
    requires r.myRid == Some(p.dst) && p.dataType.ControlSignaling? && p.ttl >= 2
    ensures HandleRid(c, r, p).branch == Control <==> forall ap | ap in r.tables.aps :: ap.rid != p.dst
    ensures HandleRid(c, r, p).branch == Control ==> After(r, HandleRid(c, r, p)) == Hear(r, m)
    ensures HandleRid(c, r, p).branch != Control ==>
              HandleRid(c, r, p).branch == ToAp && After(r, HandleRid(c, r, p)) == r
  {
    SignalRoundTrip(c, m);
  }

  /** Each frame by which the control server sends a message does that, on whatever interface. */
  lemma CopyIsHeard(server: ControlServer, e: Emission, i: int, r: Router, target: RID, m: Signal)
    requires server.IsCopy(e, i, target, m) && server.codec.Keeps(JObj(ToDict(m)))
    requires r.myRid == Some(target) && forall ap | ap in r.tables.aps :: ap.rid != target
    ensures After(r, HandleRid(server.codec, r, e.frame.rid)) == Hear(r, m)
  {
    ControlPacketIsHeard(server.codec, r, e.frame.rid, m);
  }

  // The messages for c, in order.
  function MessagesTo(out: seq<(RID, Signal)>, c: RID): seq<Signal> {
    if out == [] then []
    else MessagesTo(out[..|out| - 1], c) + if out[|out| - 1].0 == c then [out[|out| - 1].1] else []
  }

  function Apply(g: Config, s: Plane, e: Event): Plane
    requires Enabled(s, e)
  {
    match e
    case CsReceives(m, sender) =>
      var out := Replies(s.registry, g.managed, g.apToCr, m, sender);
      s.(registry := Record(s.registry, g.apToCr, m),
         channels := map c | c in s.channels :: s.channels[c] + MessagesTo(out, c))
    case Deliver(c) =>
      s.(routers := s.routers[c := Hear(s.routers[c], s.channels[c][0])],
         channels := s.channels[c := s.channels[c][1..]])
    case SetStatus(c, a, st) =>
      var r := s.routers[c];
      s.(routers := s.routers[c := r.(tables := r.tables.(users := r.tables.users[a := st]))])
    case Reconfigure(c, t) =>
      s.(routers := s.routers[c := s.routers[c].(tables := t)])
  }

  predicate CanRun(g: Config, s: Plane, es: seq<Event>)
    decreases |es|, 0
  {
    es == [] || (CanRun(g, s, es[..|es| - 1]) && Enabled(Run(g, s, es[..|es| - 1]), es[|es| - 1]))
  }

  function Run(g: Config, s: Plane, es: seq<Event>): Plane
    requires CanRun(g, s, es)
    decreases |es|, 1
  {
    if es == [] then s else Apply(g, Run(g, s, es[..|es| - 1]), es[|es| - 1])
  }

  // --------------------------------------------------------------- facts about channels

  lemma {:induction false} FanOutReaches(managed: seq<RID>, u: Signal, c: RID)
    requires forall i, j | 0 <= i < j < |managed| :: managed[i] != managed[j]
    ensures MessagesTo(FanOut(managed, u), c) == if c in managed then [u] else []
    decreases |managed|
  {
    if managed != [] {
      var front := managed[..|managed| - 1];
      FanOutReaches(front, u, c);
      var out := FanOut(managed, u);
      assert out[..|out| - 1] == FanOut(front, u);
      assert c in managed <==> c in front || c == managed[|managed| - 1];
    }
  }

  /** A notification is appended to the channel of every managed router. */
  lemma NotificationReachesAll(g: Config, s: Plane, m: Signal, sender: RID, c: RID)
    requires WellFormed(g, s) && c in s.routers
    ensures var u := NotificationFor(g.apToCr, m);
            MessagesTo(Replies(s.registry, g.managed, g.apToCr, m, sender), c)
              == if u.Some? then [u.value]
                 else if m.MappingQueryRequest? && sender == c then [Answer(s.registry, m.aid)] else []
  {
    var u := NotificationFor(g.apToCr, m);
    if u.Some? {
      FanOutReaches(g.managed, u.value, c);
    } else if m.MappingQueryRequest? {
      var out := [(sender, Answer(s.registry, m.aid))];
      assert out[..0] == [];
    }
  }

  // ------------------------------------------------------------------------- replication

  function Replay(r: Router, q: seq<Signal>): Router {
    if q == [] then r else Hear(Replay(r, q[..|q| - 1]), q[|q| - 1])
  }

  lemma {:induction false} ReplayFromHead(r: Router, q: seq<Signal>)
    requires q != []
    ensures Replay(Hear(r, q[0]), q[1..]) == Replay(r, q)
    decreases |q|
  {
    var n := |q| - 1;
    if n > 0 {
      ReplayFromHead(r, q[..n]);
      assert q[..n][1..] == q[1..][..n - 1];
    } else {
      assert q[..0] == [] && q[1..] == [];
    }
  }

  // Only the replica decides what replaying does to the replica.
  lemma {:induction false} ReplayedReplica(r: Router, r': Router, q: seq<Signal>)
    requires r.tables.remote == r'.tables.remote
    ensures Replay(r, q).tables.remote == Replay(r', q).tables.remote
    decreases |q|
  {
    if q != [] {
      ReplayedReplica(r, r', q[..|q| - 1]);
    }
  }

  predicate SamePair(m: Mapping, e: Registration) {
    m.mappedRid == e.mappedRid && m.remoteCrRid == e.remoteCrRid
  }

  predicate Agrees(remote: map<AID, Mapping>, reg: Registry) {
    forall a | a in reg :: a in remote && SamePair(remote[a], reg[a])
  }

  /** Replaying what is on its way to a router makes its replica agree with the registry. */
  ghost predicate Replicated(s: Plane) {
    forall c | c in s.routers && c in s.channels ::
      Agrees(Replay(s.routers[c], s.channels[c]).tables.remote, s.registry)
  }

  lemma HearingKeepsPace(r: Router, g: Config, reg: Registry, m: Signal)
    requires Agrees(r.tables.remote, reg)
    ensures var u := NotificationFor(g.apToCr, m);
            Agrees((if u.Some? then Hear(r, u.value) else r).tables.remote, Record(reg, g.apToCr, m))
  {}

  lemma ReplayOneMore(r: Router, q: seq<Signal>, m: Signal)
    ensures Replay(r, q + [m]) == Hear(Replay(r, q), m)
  {
    assert (q + [m])[..|q|] == q;
  }

  lemma ReplayMore(r: Router, q: seq<Signal>, u: Option<Signal>)
    ensures Replay(r, q + OptionSeq(u)) == if u.Some? then Hear(Replay(r, q), u.value) else Replay(r, q)
  {
    if u.Some? {
      ReplayOneMore(r, q, u.value);
    } else {
      assert q + [] == q;
    }
  }

  lemma RouterKeepsPace(g: Config, s: Plane, m: Signal, sender: RID, c: RID)
    requires WellFormed(g, s) && c in s.routers
    requires Agrees(Replay(s.routers[c], s.channels[c]).tables.remote, s.registry)
    ensures var more := MessagesTo(Replies(s.registry, g.managed, g.apToCr, m, sender), c);
            Agrees(Replay(s.routers[c], s.channels[c] + more).tables.remote, Record(s.registry, g.apToCr, m))
  {
    var r, q, u := s.routers[c], s.channels[c], NotificationFor(g.apToCr, m);
    NotificationReachesAll(g, s, m, sender, c);
    HearingKeepsPace(Replay(r, q), g, s.registry, m);
    if m.MappingQueryRequest? && sender == c {
      ReplayMore(r, q, Some(Answer(s.registry, m.aid)));
    } else {
      ReplayMore(r, q, u);
    }
  }

  lemma ReplicatedAfterCs(g: Config, s: Plane, m: Signal, sender: RID)
    requires WellFormed(g, s) && Replicated(s)
    ensures Replicated(Apply(g, s, CsReceives(m, sender)))
  {
    forall c | c in s.routers && c in s.channels
      ensures var more := MessagesTo(Replies(s.registry, g.managed, g.apToCr, m, sender), c);
              Agrees(Replay(s.routers[c], s.channels[c] + more).tables.remote, Record(s.registry, g.apToCr, m))
    {
      RouterKeepsPace(g, s, m, sender, c);
    }
  }

  lemma RouterStepKeepsReplay(s: Plane, g: Config, e: Event, c: RID)
    requires WellFormed(g, s) && Enabled(s, e) && !e.CsReceives? && c in s.routers
    ensures var s' := Apply(g, s, e);
            c in s'.routers && c in s'.channels
            && Replay(s'.routers[c], s'.channels[c]).tables.remote == Replay(s.routers[c], s.channels[c]).tables.remote
  {
    if e.Deliver? && e.c == c {
      ReplayFromHead(s.routers[c], s.channels[c]);
    } else {
      ReplayedReplica(s.routers[c], Apply(g, s, e).routers[c], s.channels[c]);
    }
  }

  lemma ReplicatedAfterRouterStep(g: Config, s: Plane, e: Event)
    requires WellFormed(g, s) && Replicated(s) && Enabled(s, e) && !e.CsReceives?
    ensures Replicated(Apply(g, s, e))
  {
    forall c | c in s.routers
      ensures var s' := Apply(g, s, e);
              c in s'.routers && c in s'.channels
              && Agrees(Replay(s'.routers[c], s'.channels[c]).tables.remote, s'.registry)
    {
      RouterStepKeepsReplay(s, g, e, c);
      assert Agrees(Replay(s.routers[c], s.channels[c]).tables.remote, s.registry);
    }
  }

  lemma StaysWellFormed(g: Config, s: Plane, e: Event)
    requires WellFormed(g, s) && Enabled(s, e)
    ensures WellFormed(g, Apply(g, s, e))
  {}

  /** In every state that any run reaches from an empty registry, whatever the routers held
      and whatever was in flight, replaying each channel over its replica gives the registry. */
  lemma {:induction false} ReplicationInvariant(g: Config, s: Plane, es: seq<Event>)
    requires WellFormed(g, s) && s.registry == map[] && CanRun(g, s, es)
    ensures WellFormed(g, Run(g, s, es)) && Replicated(Run(g, s, es))
    decreases |es|
  {
    if es != [] {
      var e, before := es[|es| - 1], Run(g, s, es[..|es| - 1]);
      ReplicationInvariant(g, s, es[..|es| - 1]);
      StaysWellFormed(g, before, e);
      if e.CsReceives? {
        ReplicatedAfterCs(g, before, e.m, e.sender);
      } else {
        ReplicatedAfterRouterStep(g, before, e);
      }
    }
  }

  /** Routers with nothing in flight agree with the control server, hence with each other. */
  lemma DrainedRoutersAgree(g: Config, s: Plane, es: seq<Event>, c: RID, d: RID, a: AID)
    requires WellFormed(g, s) && s.registry == map[] && CanRun(g, s, es)
    requires var t := Run(g, s, es);
             && c in t.routers && d in t.routers && c in t.channels && d in t.channels
             && t.channels[c] == [] && t.channels[d] == [] && a in t.registry
    ensures var t := Run(g, s, es); var rc, rd := t.routers[c].tables.remote, t.routers[d].tables.remote;
            && a in rc && a in rd && SamePair(rc[a], t.registry[a])
            && rc[a].mappedRid == rd[a].mappedRid && rc[a].remoteCrRid == rd[a].remoteCrRid
  {
    ReplicationInvariant(g, s, es);
    var t := Run(g, s, es);
    assert Agrees(Replay(t.routers[c], t.channels[c]).tables.remote, t.registry);
    assert Agrees(Replay(t.routers[d], t.channels[d]).tables.remote, t.registry);
  }

  // ----------------------------------------------------------------------- serving state

  predicate Concerns(m: Signal, a: AID) {
    m.MappingUpdateNotification? && m.aid == a
  }

  /** The latest update for a in a channel. */
  function LastFor(q: seq<Signal>, a: AID): Option<Signal> {
    if q == [] then None
    else if Concerns(q[|q| - 1], a) then Some(q[|q| - 1])
    else LastFor(q[..|q| - 1], a)
  }

  lemma {:induction false} LastForFromHead(q: seq<Signal>, a: AID)
    requires q != []
    ensures LastFor(q, a) == if LastFor(q[1..], a).Some? then LastFor(q[1..], a)
                             else if Concerns(q[0], a) then Some(q[0]) else None
    decreases |q|
  {
    var n := |q| - 1;
    if n > 0 {
      LastForFromHead(q[..n], a);
      assert q[..n][1..] == q[1..][..n - 1];
    } else {
      assert q[..0] == [] && q[1..] == [];
    }
  }

  // What router c takes in a run, in order.
  function Taken(g: Config, s: Plane, es: seq<Event>, c: RID): seq<Signal>
    requires CanRun(g, s, es)
    decreases |es|
  {
    if es == [] then []
    else
      var front, e := es[..|es| - 1], es[|es| - 1];
      Taken(g, s, front, c) + if e == Deliver(c) then [Run(g, s, front).channels[c][0]] else []
  }

  /** Among the messages is an update for the user that names the router. */
  predicate ToldToServe(q: seq<Signal>, c: RID, a: AID) {
    exists m | m in q :: Concerns(m, a) && m.newCrRid == c
  }

  predicate SameUser(r: Router, r': Router, a: AID) {
    (a in r.tables.users <==> a in r'.tables.users)
    && (a in r.tables.users ==> r.tables.users[a] == r'.tables.users[a])
  }

  // Router r is what became of r0 by taking the messages q, as far as user a goes.
  predicate OnlineIfTold(r0: Router, r: Router, q: seq<Signal>, c: RID, a: AID) {
    && r.myRid == Some(c)
    && (if ToldToServe(q, c, a) then IsLocalAid(r.tables, a) else SameUser(r0, r, a))
  }

  lemma TakingOneMore(r0: Router, r: Router, q: seq<Signal>, m: Signal, c: RID, a: AID)
    requires OnlineIfTold(r0, r, q, c, a)
    ensures OnlineIfTold(r0, Hear(r, m), q + [m], c, a)
  {
    assert forall x :: x in q + [m] <==> x in q || x == m;
  }

  /** In a run in which nobody sets a status, a router has a user online exactly when it had it
      from the start or has taken an update that names it: nothing retires an online user. Without
      such an update the router's state for the user is what it was. */
  lemma {:induction false} OnlineExactlyWhenTold(g: Config, s: Plane, es: seq<Event>, c: RID, a: AID)
    requires WellFormed(g, s) && CanRun(g, s, es) && c in s.routers
    requires forall e | e in es :: !e.SetStatus?
    ensures var s' := Run(g, s, es);
            && c in s'.routers && OnlineIfTold(s.routers[c], s'.routers[c], Taken(g, s, es, c), c, a)
            && (IsLocalAid(s'.routers[c].tables, a)
                <==> IsLocalAid(s.routers[c].tables, a) || ToldToServe(Taken(g, s, es, c), c, a))
    decreases |es|
  {
    if es != [] {
      var front, e := es[..|es| - 1], es[|es| - 1];
      OnlineExactlyWhenTold(g, s, front, c, a);
      var before := Run(g, s, front);
      assert e in es;
      if e == Deliver(c) {
        TakingOneMore(s.routers[c], before.routers[c], Taken(g, s, front, c), before.channels[c][0], c, a);
      }
    }
  }

  /** The latest notification about a that the events made the control server send. */
  function LastNotice(g: Config, es: seq<Event>, a: AID): Option<Signal> {
    if es == [] then None
    else
      var e := es[|es| - 1];
      var u := if e.CsReceives? then NotificationFor(g.apToCr, e.m) else None;
      if u.Some? && Concerns(u.value, a) then u else LastNotice(g, es[..|es| - 1], a)
  }

  /** Nobody sets the status of a user at the router that the registry names. */
  predicate LeavesServingAlone(g: Config, s: Plane, es: seq<Event>)
    requires CanRun(g, s, es)
    decreases |es|
  {
    es == [] ||
    var e, before := es[|es| - 1], Run(g, s, es[..|es| - 1]);
    && LeavesServingAlone(g, s, es[..|es| - 1])
    && (e.SetStatus? ==> !(e.aid in before.registry && before.registry[e.aid].remoteCrRid == e.c))
  }

  /** The registry's entry for a comes from notice u, and the router it names, if managed, has
      u or has it on the way. */
  ghost predicate Serves(s: Plane, a: AID, u: Option<Signal>) {
    a in s.registry ==>
      && u.Some? && u.value.MappingUpdateNotification? && u.value.aid == a
      && u.value.newMappedRid == s.registry[a].mappedRid && u.value.newCrRid == s.registry[a].remoteCrRid
      && var c := s.registry[a].remoteCrRid;
         c in s.routers && c in s.channels ==> HasOrAwaits(s.routers[c], s.channels[c], a, u.value)
  }

  predicate HasOrAwaits(r: Router, q: seq<Signal>, a: AID, u: Signal)
    requires u.MappingUpdateNotification?
  {
    match LastFor(q, a)
    case Some(m) => m == u
    case None => a in r.tables.users && r.tables.users[a] == UserState(ApFor(r.tables.aps, u.apRid), Online, "")
  }

  lemma LastForOneMore(q: seq<Signal>, m: Signal, a: AID)
    ensures LastFor(q + [m], a) == if Concerns(m, a) then Some(m) else LastFor(q, a)
  {
    assert (q + [m])[..|q|] == q;
  }

  // What the control server sends to a router leaves it awaiting the latest notice for a.
  lemma AwaitsAfterCs(g: Config, s: Plane, m: Signal, sender: RID, a: AID, c: RID)
    requires WellFormed(g, s) && c in s.routers
    ensures var n := NotificationFor(g.apToCr, m);
            LastFor(Apply(g, s, CsReceives(m, sender)).channels[c], a)
              == if n.Some? && Concerns(n.value, a) then n else LastFor(s.channels[c], a)
  {
    NotificationReachesAll(g, s, m, sender, c);
    var more := MessagesTo(Replies(s.registry, g.managed, g.apToCr, m, sender), c);
    if more != [] {
      LastForOneMore(s.channels[c], more[0], a);
    } else {
      assert s.channels[c] + more == s.channels[c];
    }
  }

  lemma ServesAfterCs(g: Config, s: Plane, m: Signal, sender: RID, a: AID, u: Option<Signal>)
    requires WellFormed(g, s) && Serves(s, a, u)
    ensures var n := NotificationFor(g.apToCr, m);
            Serves(Apply(g, s, CsReceives(m, sender)), a, if n.Some? && Concerns(n.value, a) then n else u)
  {
    var s' := Apply(g, s, CsReceives(m, sender));
    if a in s'.registry && s'.registry[a].remoteCrRid in s'.routers {
      AwaitsAfterCs(g, s, m, sender, a, s'.registry[a].remoteCrRid);
    }
  }

  lemma ServesAfterDelivery(g: Config, s: Plane, c: RID, a: AID, u: Option<Signal>)
    requires WellFormed(g, s) && Serves(s, a, u) && Enabled(s, Deliver(c))
    ensures Serves(Apply(g, s, Deliver(c)), a, u)
  {
    if a in s.registry && s.registry[a].remoteCrRid == c {
      LastForFromHead(s.channels[c], a);
    }
  }

  lemma ServesAfterLocalStep(g: Config, s: Plane, e: Event, a: AID, u: Option<Signal>)
    requires WellFormed(g, s) && Serves(s, a, u) && Enabled(s, e)
    requires e.SetStatus? || e.Reconfigure?
    requires e.SetStatus? ==> !(e.aid in s.registry && s.registry[e.aid].remoteCrRid == e.c)
    ensures Serves(Apply(g, s, e), a, u)
  {}

  lemma ServesAfterEvent(g: Config, s: Plane, e: Event, a: AID, u: Option<Signal>)
    requires WellFormed(g, s) && Serves(s, a, u) && Enabled(s, e)
    requires e.SetStatus? ==> !(e.aid in s.registry && s.registry[e.aid].remoteCrRid == e.c)
    ensures var n := if e.CsReceives? then NotificationFor(g.apToCr, e.m) else None;
            Serves(Apply(g, s, e), a, if n.Some? && Concerns(n.value, a) then n else u)
  {
    match e
    case CsReceives(m, sender) => ServesAfterCs(g, s, m, sender, a, u);
    case Deliver(c) => ServesAfterDelivery(g, s, c, a, u);
    case SetStatus(_, _, _) => ServesAfterLocalStep(g, s, e, a, u);
    case Reconfigure(_, _) => ServesAfterLocalStep(g, s, e, a, u);
  }

  // The last event of a run, and what comes before it.
  lemma LastStep(g: Config, s: Plane, es: seq<Event>, a: AID)
    requires es != [] && CanRun(g, s, es) && LeavesServingAlone(g, s, es)
    ensures var front, e := es[..|es| - 1], es[|es| - 1];
            && CanRun(g, s, front) && LeavesServingAlone(g, s, front)
            && var before := Run(g, s, front);
               && Enabled(before, e) && Run(g, s, es) == Apply(g, before, e)
               && (e.SetStatus? ==> !(e.aid in before.registry && before.registry[e.aid].remoteCrRid == e.c))
    ensures var e := es[|es| - 1];
            var n := if e.CsReceives? then NotificationFor(g.apToCr, e.m) else None;
            LastNotice(g, es, a) == if n.Some? && Concerns(n.value, a) then n else LastNotice(g, es[..|es| - 1], a)
  {}

  /** In every state of every run that leaves serving routers alone, the router the registry
      names for a user has the state of the latest notification or still awaits it. */
  lemma {:induction false} ServingInvariant(g: Config, s: Plane, es: seq<Event>, a: AID)
    requires WellFormed(g, s) && s.registry == map[] && CanRun(g, s, es)
    requires LeavesServingAlone(g, s, es)
    ensures Serves(Run(g, s, es), a, LastNotice(g, es, a))
    decreases |es|
  {
    if es != [] {
      var front, e := es[..|es| - 1], es[|es| - 1];
      LastStep(g, s, es, a);
      ServingInvariant(g, s, front, a);
      ReplicationInvariant(g, s, front);
      ServesAfterEvent(g, Run(g, s, front), e, a, LastNotice(g, front, a));
    }
  }

  /** The serving router has the user online, or an update that will say so is in flight. */
  lemma ServingRouterIsOnlineOrTold(g: Config, s: Plane, es: seq<Event>, a: AID)
    requires WellFormed(g, s) && s.registry == map[] && CanRun(g, s, es)
    requires LeavesServingAlone(g, s, es)
    requires var t := Run(g, s, es); a in t.registry && t.registry[a].remoteCrRid in t.routers
    ensures var t := Run(g, s, es); var c := t.registry[a].remoteCrRid;
            || IsLocalAid(t.routers[c].tables, a)
            || (c in t.channels && exists m :: m in t.channels[c] && Concerns(m, a) && m.newCrRid == c)
  {
    ServingInvariant(g, s, es, a);
    ReplicationInvariant(g, s, es);
    var t := Run(g, s, es);
    var c := t.registry[a].remoteCrRid;
    if LastFor(t.channels[c], a).Some? {
      LastForIsThere(t.channels[c], a);
    }
  }

  lemma {:induction false} LastForIsThere(q: seq<Signal>, a: AID)
    requires LastFor(q, a).Some?
    ensures exists i :: 0 <= i < |q| && Concerns(q[i], a) && Some(q[i]) == LastFor(q, a)
    decreases |q|
  {
    if !Concerns(q[|q| - 1], a) {
      LastForIsThere(q[..|q| - 1], a);
      var i :| 0 <= i < |q| - 1 && Concerns(q[..|q| - 1][i], a) && Some(q[..|q| - 1][i]) == LastFor(q, a);
      assert Concerns(q[i], a) && Some(q[i]) == LastFor(q, a);
    }
  }

  /** When the serving router is drained and the last event for the user was a registration
      through an AP whose RID exactly one of the router's APs has, that AP is the recorded one. */
  lemma DrainedRouterRecordsTheAp(g: Config, s: Plane, es: seq<Event>, a: AID, m: Signal, ap: ApEntry)
    requires WellFormed(g, s) && s.registry == map[] && CanRun(g, s, es)
    requires LeavesServingAlone(g, s, es)
    requires m.MappingRegisterRequest? && m.aid == a
    requires LastNotice(g, es, a) == NotificationFor(g.apToCr, m)
    requires var t := Run(g, s, es);
             && a in t.registry && t.registry[a].remoteCrRid in t.routers
             && t.registry[a].remoteCrRid in t.channels && t.channels[t.registry[a].remoteCrRid] == []
             && var aps := t.routers[t.registry[a].remoteCrRid].tables.aps;
                ap in aps && ap.rid == m.apRid && forall other | other in aps && other.rid == m.apRid :: other == ap
    ensures var t := Run(g, s, es); var r := t.routers[t.registry[a].remoteCrRid];
            && t.registry[a].mappedRid == m.mappedRid
            && Belongs(g.apToCr, m.apRid, t.registry[a].remoteCrRid)
            && IsLocalAid(r.tables, a) && r.tables.users[a].apAid == ap.aid
  {
    ServingInvariant(g, s, es, a);
  }
}
