// Whether what the control server has recorded for a user stands: what redirects, and messages
// already on their way, can make of it.

module Registrations {
  import opened Wrappers
  import opened Addressing
  import opened Packets
  import opened CrTables
  import opened MappingStore
  import opened Signaling
  import opened Forwarding
  import opened ControlService
  import opened Replication
  import opened Redirection
  import opened Lifetimes
  import opened Deployment

  // ------------------------------------------------------------------ what can overturn it

  /** The registry names the pair of e for the user. */
  predicate Records(s: Plane, a: AID, e: Registration) {
    a in s.registry && s.registry[a].mappedRid == e.mappedRid && s.registry[a].remoteCrRid == e.remoteCrRid
  }

  predicate NamesPair(u: Signal, e: Registration)
    requires u.MappingUpdateNotification?
  {
    u.newMappedRid == e.mappedRid && u.newCrRid == e.remoteCrRid
  }

  /** Handling the message, the control server would record another pair for the user. */
  predicate Overturns(g: Config, m: Signal, a: AID, e: Registration) {
    var n := NotificationFor(g.apToCr, m);
    n.Some? && Concerns(n.value, a) && !NamesPair(n.value, e)
  }

  /** The router would redirect the user by a mapping that names another pair. */
  predicate Disagrees(r: Router, a: AID, e: Registration) {
    IsMoved(r, a) && MappingOf(r, a).Some? && !SamePair(MappingOf(r, a).value, e)
  }

  /** At no point of taking its notifications would the router redirect by another pair. */
  ghost predicate NeverDisagrees(r: Router, q: seq<Signal>, a: AID, e: Registration) {
    forall k: nat | k <= |q| :: !Disagrees(Replay(r, q[..k]), a, e)
  }

  /** No message on its way up records another pair, and no router ever redirects by one. */
  ghost predicate NothingOverturns(g: Config, l: Loop, a: AID, e: Registration) {
    && (forall m | m in l.uplink :: !Overturns(g, m, a, e))
    && (forall c | c in l.plane.routers && c in l.plane.channels ::
          NeverDisagrees(l.plane.routers[c], l.plane.channels[c], a, e))
  }

  // ------------------------------------------------------------------------- it then stands

  lemma RecordedUnlessOverturned(g: Config, reg: Registry, m: Signal, a: AID, e: Registration)
    requires a in reg && reg[a].mappedRid == e.mappedRid && reg[a].remoteCrRid == e.remoteCrRid
    ensures var reg' := Record(reg, g.apToCr, m);
            a in reg'
            && (Overturns(g, m, a, e) <==> !(reg'[a].mappedRid == e.mappedRid && reg'[a].remoteCrRid == e.remoteCrRid))
  {}

  lemma HearingAgrees(r: Router, u: Signal, a: AID, e: Registration)
    requires !Disagrees(r, a, e) && (Concerns(u, a) ==> NamesPair(u, e))
    ensures !Disagrees(Hear(r, u), a, e)
  {}

  lemma OneMoreAgrees(r: Router, q: seq<Signal>, u: Signal, a: AID, e: Registration)
    requires NeverDisagrees(r, q, a, e) && (Concerns(u, a) ==> NamesPair(u, e))
    ensures NeverDisagrees(r, q + [u], a, e)
  {
    assert q[..|q|] == q;
    HearingAgrees(Replay(r, q), u, a, e);
    ReplayOneMore(r, q, u);
    forall k: nat | k <= |q + [u]| ensures !Disagrees(Replay(r, (q + [u])[..k]), a, e) {
      if k <= |q| {
        assert (q + [u])[..k] == q[..k];
      } else {
        assert (q + [u])[..k] == q + [u];
      }
    }
  }

  lemma OneLessAgrees(r: Router, q: seq<Signal>, a: AID, e: Registration)
    requires q != [] && NeverDisagrees(r, q, a, e)
    ensures NeverDisagrees(Hear(r, q[0]), q[1..], a, e)
  {
    forall k: nat | k <= |q[1..]| ensures !Disagrees(Replay(Hear(r, q[0]), q[1..][..k]), a, e) {
      ReplayFromHead(r, q[..k + 1]);
      assert q[..k + 1][1..] == q[1..][..k];
    }
  }

  ghost predicate Stands(g: Config, l: Loop, a: AID, e: Registration) {
    WellFormed(g, l.plane) && Records(l.plane, a, e) && NothingOverturns(g, l, a, e)
  }

  lemma AlertAgrees(g: Config, l: Loop, c: RID, p: AidPdu, a: AID, e: Registration)
    requires Stands(g, l, a, e) && Possible(l, Redirects(c, p))
    ensures forall m | m in OptionSeq(Redirect(l.plane.routers[c], p).alert) :: !Overturns(g, m, a, e)
  {
    var r := l.plane.routers[c];
    RedirectCarriesThePacket(r, p);
    assert NeverDisagrees(r, l.plane.channels[c], a, e);
    assert l.plane.channels[c][..0] == [] && Replay(r, []) == r;
  }

  lemma ChannelAgreesAfterCs(g: Config, l: Loop, c: RID, a: AID, e: Registration)
    requires Stands(g, l, a, e) && Possible(l, CsTakes) && c in l.plane.routers
    ensures NeverDisagrees(l.plane.routers[c], Step(g, l, CsTakes).plane.channels[c], a, e)
  {
    var s, m := l.plane, l.uplink[0];
    var more := MessagesTo(Replies(s.registry, g.managed, g.apToCr, m, NO_RID), c);
    assert NeverDisagrees(s.routers[c], s.channels[c], a, e) && !Overturns(g, m, a, e);
    NotificationReachesAll(g, s, m, NO_RID, c);
    if more != [] {
      OneMoreAgrees(s.routers[c], s.channels[c], more[0], a, e);
      assert more == [more[0]];
    } else {
      assert s.channels[c] + more == s.channels[c];
    }
  }

  lemma StandsAfterCs(g: Config, l: Loop, a: AID, e: Registration)
    requires Stands(g, l, a, e) && Possible(l, CsTakes)
    ensures Stands(g, Step(g, l, CsTakes), a, e)
  {
    StepStaysWellFormed(g, l, CsTakes);
    RecordedUnlessOverturned(g, l.plane.registry, l.uplink[0], a, e);
    forall c | c in l.plane.routers
      ensures NeverDisagrees(l.plane.routers[c], Step(g, l, CsTakes).plane.channels[c], a, e)
    {
      ChannelAgreesAfterCs(g, l, c, a, e);
    }
  }

  lemma StandsAfterDelivery(g: Config, l: Loop, c: RID, a: AID, e: Registration)
    requires Stands(g, l, a, e) && Possible(l, Delivers(c))
    ensures Stands(g, Step(g, l, Delivers(c)), a, e)
  {
    StepStaysWellFormed(g, l, Delivers(c));
    OneLessAgrees(l.plane.routers[c], l.plane.channels[c], a, e);
  }

  lemma StandsAfter(g: Config, l: Loop, act: Act, a: AID, e: Registration)
    requires Stands(g, l, a, e) && Possible(l, act)
    ensures Stands(g, Step(g, l, act), a, e)
  {
    match act
    case Redirects(c, p) => AlertAgrees(g, l, c, p, a, e);
    case CsTakes => StandsAfterCs(g, l, a, e);
    case Delivers(c) => StandsAfterDelivery(g, l, c, a, e);
  }

  lemma {:induction false} StandsThroughout(g: Config, l0: Loop, acts: seq<Act>, a: AID, e: Registration)
    requires Stands(g, l0, a, e) && CanAct(g, l0, acts)
    ensures Stands(g, RunActs(g, l0, acts), a, e)
    decreases |acts|
  {
    if acts != [] {
      StandsThroughout(g, l0, acts[..|acts| - 1], a, e);
      StandsAfter(g, RunActs(g, l0, acts[..|acts| - 1]), acts[|acts| - 1], a, e);
    }
  }

  // ---------------------------------------------------------------------- or it is overturned

  /** The control server takes the first n messages. */
  lemma {:induction false} TakeSome(g: Config, l0: Loop, acts: seq<Act>, n: nat) returns (all: seq<Act>)
    requires CanAct(g, l0, acts) && n <= |RunActs(g, l0, acts).uplink|
    ensures CanAct(g, l0, all)
    ensures var l, l' := RunActs(g, l0, acts), RunActs(g, l0, all);
            l'.uplink == l.uplink[n..] && l'.plane.routers == l.plane.routers
    decreases n
  {
    if n == 0 {
      all := acts;
    } else {
      var before := TakeSome(g, l0, acts, n - 1);
      ActOneMore(g, l0, before, CsTakes);
      all := before + [CsTakes];
    }
  }

  /** Router c takes its first n notifications. */
  lemma {:induction false} DeliverSome(g: Config, l0: Loop, acts: seq<Act>, c: RID, n: nat) returns (all: seq<Act>)
    requires CanAct(g, l0, acts) && c in RunActs(g, l0, acts).plane.routers
    requires c in RunActs(g, l0, acts).plane.channels && n <= |RunActs(g, l0, acts).plane.channels[c]|
    ensures CanAct(g, l0, all)
    ensures var s, s' := RunActs(g, l0, acts).plane, RunActs(g, l0, all).plane;
            && c in s'.routers && c in s'.channels
            && s'.routers[c] == Replay(s.routers[c], s.channels[c][..n]) && s'.channels[c] == s.channels[c][n..]
    decreases n
  {
    if n == 0 {
      all := acts;
    } else {
      var before := DeliverSome(g, l0, acts, c, n - 1);
      var q := RunActs(g, l0, acts).plane.channels[c];
      ActOneMore(g, l0, before, Delivers(c));
      assert q[..n][..n - 1] == q[..n - 1];
      all := before + [Delivers(c)];
    }
  }

  lemma TakeOverturning(g: Config, l0: Loop, acts: seq<Act>, i: nat, a: AID, e: Registration) returns (all: seq<Act>)
    requires CanAct(g, l0, acts) && i < |RunActs(g, l0, acts).uplink|
    requires Overturns(g, RunActs(g, l0, acts).uplink[i], a, e)
    ensures CanAct(g, l0, all) && !Records(RunActs(g, l0, all).plane, a, e)
  {
    var before := TakeSome(g, l0, acts, i);
    ActOneMore(g, l0, before, CsTakes);
    all := before + [CsTakes];
  }

  lemma RedirectOverturning(g: Config, l0: Loop, acts: seq<Act>, c: RID, a: AID, e: Registration)
    returns (all: seq<Act>)
    requires CanAct(g, l0, acts) && c in RunActs(g, l0, acts).plane.routers
    requires Disagrees(RunActs(g, l0, acts).plane.routers[c], a, e)
    ensures CanAct(g, l0, all) && !Records(RunActs(g, l0, all).plane, a, e)
  {
    var l := RunActs(g, l0, acts);
    RedirectAlerts(l.plane.routers[c], Probe(a));
    ActOneMore(g, l0, acts, Redirects(c, Probe(a)));
    all := TakeOverturning(g, l0, acts + [Redirects(c, Probe(a))], |l.uplink|, a, e);
  }

  lemma OverturnedSometime(g: Config, l0: Loop, a: AID, e: Registration) returns (acts: seq<Act>)
    requires !NothingOverturns(g, l0, a, e)
    ensures CanAct(g, l0, acts) && !Records(RunActs(g, l0, acts).plane, a, e)
  {
    assert CanAct(g, l0, []) && RunActs(g, l0, []) == l0;
    if m :| m in l0.uplink && Overturns(g, m, a, e) {
      var i :| 0 <= i < |l0.uplink| && l0.uplink[i] == m;
      acts := TakeOverturning(g, l0, [], i, a, e);
    } else {
      var c :| c in l0.plane.routers && c in l0.plane.channels
               && !NeverDisagrees(l0.plane.routers[c], l0.plane.channels[c], a, e);
      var r, q := l0.plane.routers[c], l0.plane.channels[c];
      var k: nat :| k <= |q| && Disagrees(Replay(r, q[..k]), a, e);
      var delivered := DeliverSome(g, l0, [], c, k);
      acts := RedirectOverturning(g, l0, delivered, c, a, e);
    }
  }

  /** What is recorded for a user stands in every run of redirects, alerts and notifications, from
      any state, exactly when no message on its way to the control server records another pair
      and no router that holds the user as moved, now or after notifications it has yet to take,
      redirects it by a mapping that names another. */
  lemma RecordStandsExactlyWhenNothingOverturns(g: Config, l0: Loop, a: AID)
    requires WellFormed(g, l0.plane) && a in l0.plane.registry
    ensures NothingOverturns(g, l0, a, l0.plane.registry[a])
       <==> forall acts | CanAct(g, l0, acts) :: Records(RunActs(g, l0, acts).plane, a, l0.plane.registry[a])
  {
    var e := l0.plane.registry[a];
    if NothingOverturns(g, l0, a, e) {
      forall acts | CanAct(g, l0, acts) ensures Records(RunActs(g, l0, acts).plane, a, e) {
        StandsThroughout(g, l0, acts, a, e);
      }
    } else {
      var acts := OverturnedSometime(g, l0, a, e);
    }
  }

  // ------------------------------------------------------------- registrations in particular

  // The control server handles registration m, ahead of what is on its way to it.
  function Registered(g: Config, l: Loop, m: Signal): Loop {
    l.(plane := Apply(g, l.plane, CsReceives(m, NO_RID)))
  }

  lemma OneNoticeAgrees(r: Router, u: Signal, a: AID, e: Registration)
    requires u.MappingUpdateNotification? && u.aid == a && NamesPair(u, e)
    ensures NeverDisagrees(r, [u], a, e) <==> !Disagrees(r, a, e)
  {
    assert [u][..0] == [] && Replay(r, []) == r;
    if !Disagrees(r, a, e) {
      assert NeverDisagrees(r, [], a, e);
      OneMoreAgrees(r, [], u, a, e);
      assert [] + [u] == [u];
    }
  }

  /** A registration made in a settled state stands in every run of redirects, alerts and
      notifications exactly when no router held the user as moved, at that moment, over a mapping
      that names another pair, be it its replica or a local mapping. */
  lemma RegistrationStandsExactlyWhenNobodyDisagrees(g: Config, l: Loop, m: Signal, cr: RID)
    requires Settled(g, l) && m.MappingRegisterRequest? && Belongs(g.apToCr, m.apRid, cr)
    ensures var l0, e := Registered(g, l, m), Registration(m.mappedRid, cr, m.spaceId);
            (forall acts | CanAct(g, l0, acts) :: Records(RunActs(g, l0, acts).plane, m.aid, e))
            <==> forall c | c in l.plane.routers :: !Disagrees(l.plane.routers[c], m.aid, e)
  {
    var l0, e := Registered(g, l, m), Registration(m.mappedRid, cr, m.spaceId);
    StaysWellFormed(g, l.plane, CsReceives(m, NO_RID));
    RecordStandsExactlyWhenNothingOverturns(g, l0, m.aid);
    forall c | c in l.plane.routers
      ensures NeverDisagrees(l0.plane.routers[c], l0.plane.channels[c], m.aid, e)
         <==> !Disagrees(l.plane.routers[c], m.aid, e)
    {
      NotificationReachesAll(g, l.plane, m, NO_RID, c);
      var u := NotificationFor(g.apToCr, m).value;
      assert l.plane.channels[c] == [] && l0.plane.channels[c] == [u];
      OneNoticeAgrees(l.plane.routers[c], u, m.aid, e);
    }
  }

  /** The alert of a current router can be overtaken: a registration that the control server takes
      between the redirect and its alert is undone by the alert, though nobody redirected over
      an outdated mapping. */
  lemma OvertakenAlertUndoesRegistration(g: Config, l: Loop, c: RID, p: AidPdu, m: Signal, cr: RID)
    requires Settled(g, l) && Possible(l, Redirects(c, p)) && |p.payload| <= MAX_PAYLOAD - AID_HEADER_BYTES
    requires p.dst in l.plane.registry && !Shadows(l.plane.routers[c], p.dst, l.plane.registry[p.dst])
    requires m.MappingRegisterRequest? && m.aid == p.dst && Belongs(g.apToCr, m.apRid, cr)
    ensures var registered := Registered(g, Step(g, l, Redirects(c, p)), m);
            var e := Registration(m.mappedRid, cr, m.spaceId);
            && Records(registered.plane, p.dst, e) && Possible(registered, CsTakes)
            && Records(Step(g, registered, CsTakes).plane, p.dst, l.plane.registry[p.dst])
  {
    var r := l.plane.routers[c];
    assert Agrees(r.tables.remote, l.plane.registry);
    RedirectAlerts(r, p);
    OnlyTheAlert(g, l, c, p, AlertFor(r, p.dst, MappingOf(r, p.dst).value));
    AlertRestores(g, Registered(g, Step(g, l, Redirects(c, p)), m), r, p.dst, MappingOf(r, p.dst).value,
                  l.plane.registry[p.dst]);
  }

  lemma AlertRestores(g: Config, l: Loop, r: Router, a: AID, m: Mapping, e: Registration)
    requires l.uplink == [AlertFor(r, a, m)] && SamePair(m, e)
    ensures Records(Step(g, l, CsTakes).plane, a, e)
  {}

  // ------------------------------------------------------------------- a local mapping left

  // A router as configured for its own user, after the user has moved to the other router: its
  // replica is up to date, and the local mapping is still there.
  function RouterLeft(): Router {
    Router(Some(CR1_RID),
           Tables([], [], [], [], map[HOST1 := CR1_RID], map[HOST1 := Mapping(CR2_RID, CR2_RID, 100)], [],
                  map[HOST1 := UserState(AID(0), MovedAway, "")]))
  }

  function AfterTheMove(): Loop {
    Loop(Plane(map[HOST1 := Registration(CR2_RID, CR2_RID, 100)], map[CR1_RID := RouterLeft()], map[CR1_RID := []]), [])
  }

  lemma MoveIsSettled(g: Config)
    requires g.managed == [CR1_RID]
    ensures Settled(g, AfterTheMove())
  {}

  lemma RouterLeftAlerts()
    ensures Redirect(RouterLeft(), Probe(HOST1)).alert
         == Some(AlertFor(RouterLeft(), HOST1, Mapping(CR1_RID, NO_RID, 0)))
    ensures IsMoved(RouterLeft(), HOST1)
  {
    RedirectAlerts(RouterLeft(), Probe(HOST1));
  }

  /** One redirect there, and the registry names the old place and router (0, 0). */
  lemma LocalMappingLeftBehind(g: Config)
    requires g.managed == [CR1_RID]
    ensures var l, acts := AfterTheMove(), [Redirects(CR1_RID, Probe(HOST1)), CsTakes];
            && Settled(g, l) && CanAct(g, l, acts)
            && Records(RunActs(g, l, acts).plane, HOST1, Registration(CR1_RID, NO_RID, 0))
  {
    var l := AfterTheMove();
    MoveIsSettled(g);
    RouterLeftAlerts();
    OnlyTheAlert(g, l, CR1_RID, Probe(HOST1), AlertFor(RouterLeft(), HOST1, Mapping(CR1_RID, NO_RID, 0)));
    AlertNamesOldPlace(g, Step(g, l, Redirects(CR1_RID, Probe(HOST1))));
    TwoActs(g, l, Redirects(CR1_RID, Probe(HOST1)), CsTakes);
  }

  lemma AlertNamesOldPlace(g: Config, l: Loop)
    requires l.uplink == [AlertFor(RouterLeft(), HOST1, Mapping(CR1_RID, NO_RID, 0))]
    ensures Records(Step(g, l, CsTakes).plane, HOST1, Registration(CR1_RID, NO_RID, 0))
  {}

  // ------------------------------------------------------- referrals end when they are heard

  lemma TakenNotice(g: Config, l: Loop, d: RID)
    requires WellFormed(g, l.plane) && Possible(l, CsTakes) && d in l.plane.routers
    requires NotificationFor(g.apToCr, l.uplink[0]).Some?
    ensures Step(g, l, CsTakes).plane.channels[d]
         == l.plane.channels[d] + [NotificationFor(g.apToCr, l.uplink[0]).value]
  {
    NotificationReachesAll(g, l.plane, l.uplink[0], NO_RID, d);
  }

  /** A router that redirects a user to router d makes the control server tell d so; once d has
      heard it, d redirects that user no more, whatever redirects, alerts and notifications follow.
      Routers that refer a user to each other do so only until then. */
  lemma ReferralEndsOnceHeard(g: Config, l0: Loop, c: RID, a: AID, d: RID) returns (acts: seq<Act>)
    requires WellFormed(g, l0.plane) && c in l0.plane.routers && IsMoved(l0.plane.routers[c], a)
    requires MappingOf(l0.plane.routers[c], a).Some? && MappingOf(l0.plane.routers[c], a).value.remoteCrRid == d
    requires d in l0.plane.routers
    ensures CanAct(g, l0, acts) && d in RunActs(g, l0, acts).plane.routers
    ensures forall more | CanAct(g, RunActs(g, l0, acts), more) ::
              NeverRedirects(RunActs(g, RunActs(g, l0, acts), more).plane, d, a)
  {
    var r, m := l0.plane.routers[c], MappingOf(l0.plane.routers[c], a).value;
    assert CanAct(g, l0, []) && RunActs(g, l0, []) == l0;
    RedirectAlerts(r, Probe(a));
    ActOneMore(g, l0, [], Redirects(c, Probe(a)));
    var taken := LastAlertIsTaken(g, l0, [] + [Redirects(c, Probe(a))], AlertFor(r, a, m), d);
    acts := AllIsHeard(g, l0, taken, NotificationFor(g.apToCr, AlertFor(r, a, m)).value, d);
    var l := RunActs(g, l0, acts);
    forall more | CanAct(g, l, more) ensures NeverRedirects(RunActs(g, l, more).plane, d, a) {
      ActsKeepBearings(g, l, more, d);
      NotMovedNeverRedirects(RunActs(g, l, more).plane, d, a);
    }
  }

  /** The router handles no frame for the user by redirecting it. */
  ghost predicate NeverRedirects(s: Plane, d: RID, a: AID) {
    d in s.routers && forall c: TextCodec, f: Frame | IsFor(f, a) :: Handle(c, s.routers[d], f).branch != Redirected
  }

  lemma NotMovedNeverRedirects(s: Plane, d: RID, a: AID)
    requires d in s.routers && !IsMoved(s.routers[d], a)
    ensures NeverRedirects(s, d, a)
  {
    forall c: TextCodec, f: Frame | IsFor(f, a) ensures Handle(c, s.routers[d], f).branch != Redirected {
      NoRedirectWithoutMove(c, s.routers[d], f, a);
    }
  }

  /** The last notification on its way to router d is u. */
  predicate EndsWith(s: Plane, d: RID, u: Signal) {
    d in s.routers && d in s.channels && s.channels[d] != [] && s.channels[d][|s.channels[d]| - 1] == u
  }

  lemma LastAlertIsTaken(g: Config, l0: Loop, acts: seq<Act>, alert: Signal, d: RID) returns (all: seq<Act>)
    requires WellFormed(g, l0.plane) && CanAct(g, l0, acts) && d in RunActs(g, l0, acts).plane.routers
    requires var up := RunActs(g, l0, acts).uplink; up != [] && up[|up| - 1] == alert
    requires alert.MobilityAlert?
    ensures CanAct(g, l0, all) && EndsWith(RunActs(g, l0, all).plane, d, NotificationFor(g.apToCr, alert).value)
  {
    var before := TakeSome(g, l0, acts, |RunActs(g, l0, acts).uplink| - 1);
    ActsStayWellFormed(g, l0, before);
    TakenNotice(g, RunActs(g, l0, before), d);
    ActOneMore(g, l0, before, CsTakes);
    all := before + [CsTakes];
  }

  lemma AllIsHeard(g: Config, l0: Loop, acts: seq<Act>, u: Signal, d: RID) returns (all: seq<Act>)
    requires WellFormed(g, l0.plane) && CanAct(g, l0, acts) && EndsWith(RunActs(g, l0, acts).plane, d, u)
    requires u.MappingUpdateNotification? && u.newCrRid == d
    ensures CanAct(g, l0, all) && d in RunActs(g, l0, all).plane.routers
    ensures !IsMoved(RunActs(g, l0, all).plane.routers[d], u.aid)
  {
    var s := RunActs(g, l0, acts).plane;
    ActsStayWellFormed(g, l0, acts);
    all := DeliverSome(g, l0, acts, d, |s.channels[d]|);
    assert s.channels[d][..|s.channels[d]|] == s.channels[d];
    HeardNotMoved(s.routers[d], s.channels[d], u.aid, d);
  }

  lemma {:induction false} ReplayKeepsName(r: Router, q: seq<Signal>)
    ensures Replay(r, q).myRid == r.myRid
    decreases |q|
  {
    if q != [] {
      ReplayKeepsName(r, q[..|q| - 1]);
    }
  }

  lemma HeardNotMoved(r: Router, q: seq<Signal>, a: AID, d: RID)
    requires q != [] && Concerns(q[|q| - 1], a) && q[|q| - 1].newCrRid == d && r.myRid == Some(d)
    ensures !IsMoved(Replay(r, q), a)
  {
    ReplayKeepsName(r, q[..|q| - 1]);
  }
}
