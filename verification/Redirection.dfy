// Mobility redirects and the control traffic they cause.

module Redirection {
  import opened Wrappers
  import opened Addressing
  import opened Packets
  import opened CrTables
  import opened MappingStore
  import opened Signaling
  import opened Forwarding
  import opened RouterRules
  import opened ControlService
  import opened Replication
  import opened Delivery

  // The old router wraps the packet again and alerts the control server, which records the alert and
  // notifies every router.

  // The control plane together with the alerts on their way to the control server.
  datatype Loop = Loop(plane: Plane, uplink: seq<Signal>)

  datatype Act =
    | Redirects(c: RID, p: AidPdu)  // router c redirects packet p
    | CsTakes                       // the control server handles the next alert
    | Delivers(c: RID)              // router c handles its next notification

  predicate Possible(l: Loop, act: Act) {
    match act
    case Redirects(c, p) => c in l.plane.routers && IsMoved(l.plane.routers[c], p.dst)
    case CsTakes => l.uplink != []
    case Delivers(c) => Enabled(l.plane, Deliver(c))
  }

  function Step(g: Config, l: Loop, act: Act): Loop
    requires Possible(l, act)
  {
    match act
    case Redirects(c, p) => l.(uplink := l.uplink + OptionSeq(Redirect(l.plane.routers[c], p).alert))
    case CsTakes => Loop(Apply(g, l.plane, CsReceives(l.uplink[0], NO_RID)), l.uplink[1..])
    case Delivers(c) => l.(plane := Apply(g, l.plane, Deliver(c)))
  }

  predicate CanAct(g: Config, l: Loop, acts: seq<Act>)
    decreases |acts|, 0
  {
    acts == [] || (CanAct(g, l, acts[..|acts| - 1]) && Possible(RunActs(g, l, acts[..|acts| - 1]), acts[|acts| - 1]))
  }

  function RunActs(g: Config, l: Loop, acts: seq<Act>): Loop
    requires CanAct(g, l, acts)
    decreases |acts|, 1
  {
    if acts == [] then l else Step(g, RunActs(g, l, acts[..|acts| - 1]), acts[|acts| - 1])
  }

  lemma ActOneMore(g: Config, l: Loop, acts: seq<Act>, act: Act)
    requires CanAct(g, l, acts) && Possible(RunActs(g, l, acts), act)
    ensures CanAct(g, l, acts + [act]) && RunActs(g, l, acts + [act]) == Step(g, RunActs(g, l, acts), act)
  {
    assert (acts + [act])[..|acts|] == acts;
  }

  // What no redirect, alert or notification changes at a router. None of them marks a user moved.
  ghost predicate SameBearings(r0: Router, r: Router) {
    && r.myRid == r0.myRid && r.tables.local == r0.tables.local && r.tables.aps == r0.tables.aps
    && forall a :: IsMoved(r, a) ==> IsMoved(r0, a)
  }

  lemma HearingKeepsBearings(r0: Router, r: Router, m: Signal)
    requires SameBearings(r0, r)
    ensures SameBearings(r0, Hear(r, m))
  {}

  lemma {:induction false} ActsKeepBearings(g: Config, l0: Loop, acts: seq<Act>, c: RID)
    requires CanAct(g, l0, acts) && c in l0.plane.routers
    ensures c in RunActs(g, l0, acts).plane.routers
    ensures SameBearings(l0.plane.routers[c], RunActs(g, l0, acts).plane.routers[c])
    decreases |acts|
  {
    if acts != [] {
      var front, act := acts[..|acts| - 1], acts[|acts| - 1];
      ActsKeepBearings(g, l0, front, c);
      var l := RunActs(g, l0, front);
      if act == Delivers(c) {
        HearingKeepsBearings(l0.plane.routers[c], l.plane.routers[c], l.plane.channels[c][0]);
      }
    }
  }

  lemma StepStaysWellFormed(g: Config, l: Loop, act: Act)
    requires WellFormed(g, l.plane) && Possible(l, act)
    ensures WellFormed(g, Step(g, l, act).plane)
  {
    match act
    case Redirects(_, _) =>
    case CsTakes => StaysWellFormed(g, l.plane, CsReceives(l.uplink[0], NO_RID));
    case Delivers(c) => StaysWellFormed(g, l.plane, Deliver(c));
  }

  lemma {:induction false} ActsStayWellFormed(g: Config, l0: Loop, acts: seq<Act>)
    requires WellFormed(g, l0.plane) && CanAct(g, l0, acts)
    ensures WellFormed(g, RunActs(g, l0, acts).plane)
    decreases |acts|
  {
    if acts != [] {
      ActsStayWellFormed(g, l0, acts[..|acts| - 1]);
      StepStaysWellFormed(g, RunActs(g, l0, acts[..|acts| - 1]), acts[|acts| - 1]);
    }
  }

  // ------------------------------------------------------------------------ one redirect

  // The mapping by which a router redirects: a local one comes first, and names router (0, 0).
  function MappingOf(r: Router, a: AID): Option<Mapping> {
    LookupAny(r.tables.local, r.tables.remote, a)
  }

  /** A redirect sends the packet, unchanged, to the router its own mapping names, and alerts the
      control server with that mapping. */
  lemma RedirectCarriesThePacket(r: Router, p: AidPdu)
    ensures var o, m := Redirect(r, p), MappingOf(r, p.dst);
            && (o.sent.Some? ==>
                  m.Some? && o.sent.value.frame.RidFrame?
                  && var q := o.sent.value.frame.rid;
                     q.dst == m.value.remoteCrRid && q.spaceId == m.value.spaceId && q.ttl == DEFAULT_TTL
                     && AidDeserialize(q.payload) == Ok(p))
            && (o.alert.Some? ==> m.Some? && o.alert == Some(AlertFor(r, p.dst, m.value)))
  {
    if |p.payload| <= MAX_PAYLOAD {
      AidRoundTrip(p, []);
      assert AidSerialize(p).value + [] == AidSerialize(p).value;
    }
  }

  lemma RedirectAlerts(r: Router, p: AidPdu)
    requires MappingOf(r, p.dst).Some? && |p.payload| <= MAX_PAYLOAD - AID_HEADER_BYTES
    ensures Redirect(r, p).alert == Some(AlertFor(r, p.dst, MappingOf(r, p.dst).value))
  {}

  /** The control server's step on a packet is the step on the alert it carries. */
  lemma TakingThePacketIsTheStep(g: Config, l: Loop, codec: TextCodec, q: RidPdu)
    requires l.uplink != [] && l.uplink[0].MobilityAlert?
    requires q.dataType.ControlSignaling? && DecodeSignal(codec, q.payload) == Some(l.uplink[0])
    ensures var s, (reg, out) := l.plane, Received(codec, g.managed, g.apToCr, l.plane.registry, q);
            Step(g, l, CsTakes)
              == Loop(Plane(reg, s.routers, map d | d in s.channels :: s.channels[d] + MessagesTo(out, d)),
                      l.uplink[1..])
  {}

  /** The last frame of a redirect takes its alert to the first neighbour in space 0; and when the
      control server, in whatever state, handles the packet in it, that is the step of taking the
      alert. */
  lemma AlertFrameIsTheStep(g: Config, codec: TextCodec, r: Router, p: AidPdu, e: Emission, l: Loop)
    requires var o := Redirect(r, p);
             && o.alert.Some? && Emissions(codec, r, o) == OptionSeq(o.sent) + [e]
             && codec.Keeps(JObj(ToDict(o.alert.value)))
             && l.uplink != [] && l.uplink[0] == o.alert.value
    ensures e.frame.RidFrame? && LeavesForControlServer(codec, r, Redirect(r, p).alert.value, e)
    ensures var s, (reg, out) := l.plane, Received(codec, g.managed, g.apToCr, l.plane.registry, e.frame.rid);
            Step(g, l, CsTakes)
              == Loop(Plane(reg, s.routers, map d | d in s.channels :: s.channels[d] + MessagesTo(out, d)),
                      l.uplink[1..])
  {
    RedirectCarriesThePacket(r, p);
    LastEmission(codec, r, Redirect(r, p), e);
    MessagesLeaveForTheControlServer(codec, r, Redirect(r, p).alert.value, e);
    TakingThePacketIsTheStep(g, l, codec, e.frame.rid);
  }

  lemma LastEmission(codec: TextCodec, r: Router, o: Outcome, e: Emission)
    requires o.alert.Some? && Emissions(codec, r, o) == OptionSeq(o.sent) + [e]
    ensures ToControlServer(codec, r, o.alert.value) == Some(e)
  {
    var es := Emissions(codec, r, o);
    assert es[|es| - 1] == e;
  }

  lemma AlertIsRecorded(g: Config, reg: Registry, r: Router, a: AID, m: Mapping)
    requires a in reg
    ensures Record(reg, g.apToCr, AlertFor(r, a, m)) == reg <==> SamePair(m, reg[a])
  {
    var reg' := Record(reg, g.apToCr, AlertFor(r, a, m));
    if SamePair(m, reg[a]) {
      assert reg'[a] == reg[a];
    } else {
      assert reg'[a] != reg[a];
    }
  }

  /** The alert a router sends leaves the registry as it is when the server takes it exactly when
      the mapping by which it redirected names the pair recorded then. For a user recorded at a
      router other than (0, 0) that means: there was no local mapping, and the replica agreed. */
  lemma AlertIsHarmlessExactlyWhenCurrent(g: Config, reg: Registry, r: Router, p: AidPdu)
    requires p.dst in reg && Redirect(r, p).alert.Some?
    ensures var m, t := MappingOf(r, p.dst), r.tables;
            var harmless := Record(reg, g.apToCr, Redirect(r, p).alert.value) == reg;
            && m.Some? && (harmless <==> SamePair(m.value, reg[p.dst]))
            && (reg[p.dst].remoteCrRid != NO_RID ==>
                  (harmless <==> p.dst !in t.local && p.dst in t.remote && SamePair(t.remote[p.dst], reg[p.dst])))
  {
    RedirectCarriesThePacket(r, p);
    AlertIsRecorded(g, reg, r, p.dst, MappingOf(r, p.dst).value);
  }

  // A registration, and then a router is told that the user has moved before it hears of it.
  function MovedEarly(g: Config, s: Plane, m: Signal, c: RID, ap: AID): Plane
    requires m.MappingRegisterRequest? && c in s.routers
  {
    Apply(g, Apply(g, s, CsReceives(m, NO_RID)), SetStatus(c, m.aid, UserState(ap, MovedAway, "")))
  }

  lemma EarlyAlert(g: Config, s: Plane, m: Signal, c: RID, p: AidPdu, ap: AID)
    requires c in s.routers && Agrees(s.routers[c].tables.remote, s.registry)
    requires m.MappingRegisterRequest? && m.aid == p.dst && p.dst in s.registry
    requires p.dst !in s.routers[c].tables.local && |p.payload| <= MAX_PAYLOAD - AID_HEADER_BYTES
    ensures var r := MovedEarly(g, s, m, c, ap).routers[c];
            Redirect(r, p).alert == Some(AlertFor(r, p.dst, s.routers[c].tables.remote[p.dst]))
  {
    RedirectAlerts(MovedEarly(g, s, m, c, ap).routers[c], p);
  }

  /** A registration can be undone: if the old router is told that the user has moved before it
      takes the registration's notification, its next redirect alerts the control server with
      the old mapping, and the registry names the old place again. */
  lemma EarlyRedirectUndoesRegistration(g: Config, s: Plane, m: Signal, c: RID, p: AidPdu, ap: AID)
    requires WellFormed(g, s) && c in s.routers && Agrees(s.routers[c].tables.remote, s.registry)
    requires m.MappingRegisterRequest? && m.aid == p.dst && p.dst in s.registry
    requires p.dst !in s.routers[c].tables.local && |p.payload| <= MAX_PAYLOAD - AID_HEADER_BYTES
    ensures var moved := MovedEarly(g, s, m, c, ap);
            var alert := Redirect(moved.routers[c], p).alert;
            && moved.registry[p.dst].mappedRid == m.mappedRid
            && alert.Some?
            && var after := Apply(g, moved, CsReceives(alert.value, NO_RID)).registry[p.dst];
               after.mappedRid == s.registry[p.dst].mappedRid && after.remoteCrRid == s.registry[p.dst].remoteCrRid
  {
    EarlyAlert(g, s, m, c, p, ap);
  }

  // --------------------------------------------------------------------- the fixed point

  /** The message repeats what the registry says; a notification names no AP. */
  predicate Echoes(reg: Registry, m: Signal) {
    match m
    case MappingUpdateNotification(a, r, cr, ap) =>
      a in reg && reg[a].mappedRid == r && reg[a].remoteCrRid == cr && ap == NO_RID
    case MobilityAlert(a, _, r, cr, _) => a in reg && reg[a].mappedRid == r && reg[a].remoteCrRid == cr
    case _ => false
  }

  /** Nothing is in flight and every replica agrees with the registry. */
  ghost predicate Settled(g: Config, l: Loop) {
    && WellFormed(g, l.plane)
    && l.uplink == []
    && (forall c | c in l.plane.channels :: l.plane.channels[c] == [])
    && (forall c | c in l.plane.routers :: Agrees(l.plane.routers[c].tables.remote, l.plane.registry))
  }

  predicate UplinkEchoes(reg: Registry, uplink: seq<Signal>) {
    forall m | m in uplink :: m.MobilityAlert? && Echoes(reg, m)
  }

  predicate ChannelEchoes(reg: Registry, q: seq<Signal>) {
    forall m | m in q :: m.MappingUpdateNotification? && Echoes(reg, m)
  }

  predicate SameMappings(r0: Router, r: Router) {
    r.tables.remote == r0.tables.remote && r.tables.local == r0.tables.local
  }

  ghost predicate Undisturbed(g: Config, l0: Loop, l: Loop) {
    && WellFormed(g, l.plane)
    && l.plane.routers.Keys == l0.plane.routers.Keys
    && l.plane.registry == l0.plane.registry
    && (forall c | c in l.plane.routers :: SameMappings(l0.plane.routers[c], l.plane.routers[c]))
    && UplinkEchoes(l.plane.registry, l.uplink)
    && (forall c | c in l.plane.channels :: ChannelEchoes(l.plane.registry, l.plane.channels[c]))
  }

  /** The router has a local mapping for the user that is not what the registry says. */
  predicate Shadows(r: Router, a: AID, e: Registration) {
    a in r.tables.local && !SamePair(Mapping(r.tables.local[a], NO_RID, 0), e)
  }

  /** No router that holds a registered user as moved has such a mapping for it. */
  ghost predicate Unshadowed(s: Plane) {
    forall c, a | c in s.routers && a in s.registry && IsMoved(s.routers[c], a) ::
      !Shadows(s.routers[c], a, s.registry[a])
  }

  lemma RedirectAlertEchoes(r: Router, p: AidPdu, reg: Registry)
    requires Agrees(r.tables.remote, reg) && p.dst in reg && !Shadows(r, p.dst, reg[p.dst])
    ensures UplinkEchoes(reg, OptionSeq(Redirect(r, p).alert))
  {
    RedirectCarriesThePacket(r, p);
  }

  lemma UndisturbedByRedirect(g: Config, l0: Loop, l: Loop, c: RID, p: AidPdu)
    requires Settled(g, l0) && Undisturbed(g, l0, l)
    requires Possible(l, Redirects(c, p)) && p.dst in l.plane.registry
    requires !Shadows(l0.plane.routers[c], p.dst, l0.plane.registry[p.dst])
    ensures Undisturbed(g, l0, Step(g, l, Redirects(c, p)))
  {
    assert SameMappings(l0.plane.routers[c], l.plane.routers[c]);
    RedirectAlertEchoes(l.plane.routers[c], p, l.plane.registry);
  }

  lemma EchoedAlertChangesNothing(g: Config, reg: Registry, m: Signal)
    requires m.MobilityAlert? && Echoes(reg, m)
    ensures Record(reg, g.apToCr, m) == reg
    ensures ChannelEchoes(reg, [NotificationFor(g.apToCr, m).value])
  {
    assert Record(reg, g.apToCr, m)[m.userAid] == reg[m.userAid];
  }

  lemma UndisturbedByCs(g: Config, l0: Loop, l: Loop)
    requires Settled(g, l0) && Undisturbed(g, l0, l) && Possible(l, CsTakes)
    ensures Undisturbed(g, l0, Step(g, l, CsTakes))
  {
    var s, m := l.plane, l.uplink[0];
    var s' := Apply(g, s, CsReceives(m, NO_RID));
    EchoedAlertChangesNothing(g, s.registry, m);
    StaysWellFormed(g, s, CsReceives(m, NO_RID));
    forall c | c in s'.channels
      ensures ChannelEchoes(s.registry, s'.channels[c])
    {
      NotificationReachesAll(g, s, m, NO_RID, c);
      assert ChannelEchoes(s.registry, s.channels[c]);
    }
  }

  lemma EchoIsForgotten(r: Router, reg: Registry, u: Signal)
    requires Agrees(r.tables.remote, reg) && u.MappingUpdateNotification? && Echoes(reg, u)
    ensures SameMappings(r, Hear(r, u))
  {
    var m := r.tables.remote[u.aid];
    assert m == Mapping(u.newMappedRid, u.newCrRid, m.spaceId);
  }

  lemma UndisturbedByDelivery(g: Config, l0: Loop, l: Loop, c: RID)
    requires Settled(g, l0) && Undisturbed(g, l0, l) && Possible(l, Delivers(c))
    ensures Undisturbed(g, l0, Step(g, l, Delivers(c)))
  {
    assert SameMappings(l0.plane.routers[c], l.plane.routers[c]);
    var s' := Apply(g, l.plane, Deliver(c));
    assert Preserves(g, l.plane, s') by {
      DeliveryPreserves(g, l.plane, c);
    }
    PreservedMeansUndisturbed(g, l0, l, s');
  }

  /** Same registry and mappings, and still nothing but echoes in flight. */
  ghost predicate Preserves(g: Config, s: Plane, s': Plane) {
    && WellFormed(g, s') && s'.registry == s.registry && s'.routers.Keys == s.routers.Keys
    && (forall c | c in s.routers :: SameMappings(s.routers[c], s'.routers[c]))
    && (forall c | c in s'.channels :: ChannelEchoes(s'.registry, s'.channels[c]))
  }

  lemma DeliveryPreserves(g: Config, s: Plane, c: RID)
    requires WellFormed(g, s) && Enabled(s, Deliver(c)) && Agrees(s.routers[c].tables.remote, s.registry)
    requires forall d | d in s.channels :: ChannelEchoes(s.registry, s.channels[d])
    ensures Preserves(g, s, Apply(g, s, Deliver(c)))
  {
    StaysWellFormed(g, s, Deliver(c));
    HeadEchoes(s.registry, s.channels[c]);
    EchoIsForgotten(s.routers[c], s.registry, s.channels[c][0]);
  }

  lemma PreservedMeansUndisturbed(g: Config, l0: Loop, l: Loop, s': Plane)
    requires Undisturbed(g, l0, l) && Preserves(g, l.plane, s')
    ensures Undisturbed(g, l0, l.(plane := s'))
  {}

  lemma HeadEchoes(reg: Registry, q: seq<Signal>)
    requires q != [] && ChannelEchoes(reg, q)
    ensures q[0].MappingUpdateNotification? && Echoes(reg, q[0]) && ChannelEchoes(reg, q[1..])
  {}

  /** Every redirected user is in the registry. */
  predicate RedirectsRegistered(l0: Loop, acts: seq<Act>) {
    forall i | 0 <= i < |acts| && acts[i].Redirects? :: acts[i].p.dst in l0.plane.registry
  }

  /** From a settled state in which no local mapping stands in the way, any number of redirects,
      alerts and notifications, interleaved in any way, leave the registry and every router's
      mappings exactly as they were. */
  lemma {:induction false} RedirectsAreAFixpoint(g: Config, l0: Loop, acts: seq<Act>)
    requires Settled(g, l0) && Unshadowed(l0.plane) && CanAct(g, l0, acts) && RedirectsRegistered(l0, acts)
    ensures Undisturbed(g, l0, RunActs(g, l0, acts))
    decreases |acts|
  {
    if acts != [] {
      var front, act := acts[..|acts| - 1], acts[|acts| - 1];
      RedirectsAreAFixpoint(g, l0, front);
      var l := RunActs(g, l0, front);
      match act
      case Redirects(c, p) =>
        ActsKeepBearings(g, l0, front, c);
        UndisturbedByRedirect(g, l0, l, c, p);
      case CsTakes => UndisturbedByCs(g, l0, l);
      case Delivers(c) => UndisturbedByDelivery(g, l0, l, c);
    }
  }

  /** From a settled state, the alert of a redirect leaves the registry as it is exactly when the
      router has no local mapping for the user; otherwise the packet goes to router (0, 0). */
  lemma SettledAlertIsHarmlessExactlyWithoutLocalMapping(g: Config, l0: Loop, c: RID, p: AidPdu)
    requires Settled(g, l0) && Possible(l0, Redirects(c, p)) && |p.payload| <= MAX_PAYLOAD - AID_HEADER_BYTES
    requires p.dst in l0.plane.registry && l0.plane.registry[p.dst].remoteCrRid != NO_RID
    ensures var r, reg := l0.plane.routers[c], l0.plane.registry;
            var o := Redirect(r, p);
            && o.alert.Some?
            && (Record(reg, g.apToCr, o.alert.value) == reg <==> p.dst !in r.tables.local)
            && (p.dst in r.tables.local && o.sent.Some? ==>
                  o.sent.value.frame.RidFrame? && o.sent.value.frame.rid.dst == NO_RID)
  {
    var r := l0.plane.routers[c];
    assert Agrees(r.tables.remote, l0.plane.registry);
    RedirectAlerts(r, p);
    RedirectCarriesThePacket(r, p);
    AlertIsHarmlessExactlyWhenCurrent(g, l0.plane.registry, r, p);
  }

  // A packet for the user that fits into any other.
  function Probe(a: AID): AidPdu {
    AidPdu(AID(0), a, [], 0, UserData, DEFAULT_TTL)
  }

  lemma TwoActs(g: Config, l: Loop, a: Act, b: Act)
    requires Possible(l, a) && Possible(Step(g, l, a), b)
    ensures CanAct(g, l, [a, b]) && RunActs(g, l, [a, b]) == Step(g, Step(g, l, a), b)
  {
    assert CanAct(g, l, []) && RunActs(g, l, []) == l;
    ActOneMore(g, l, [], a);
    assert [] + [a] == [a];
    ActOneMore(g, l, [a], b);
    assert [a] + [b] == [a, b];
  }

  lemma OnlyTheAlert(g: Config, l: Loop, c: RID, p: AidPdu, alert: Signal)
    requires l.uplink == [] && Possible(l, Redirects(c, p)) && Redirect(l.plane.routers[c], p).alert == Some(alert)
    ensures Step(g, l, Redirects(c, p)) == l.(uplink := [alert])
  {}

  lemma ShadowedAlert(g: Config, l0: Loop, c: RID, a: AID)
    requires Settled(g, l0) && c in l0.plane.routers && a in l0.plane.registry
    requires IsMoved(l0.plane.routers[c], a) && Shadows(l0.plane.routers[c], a, l0.plane.registry[a])
    ensures var l1 := Step(g, l0, Redirects(c, Probe(a)));
            Possible(l1, CsTakes) && Step(g, l1, CsTakes).plane.registry != l0.plane.registry
  {
    var r, p := l0.plane.routers[c], Probe(a);
    RedirectAlerts(r, p);
    AlertIsRecorded(g, l0.plane.registry, r, a, MappingOf(r, a).value);
    OnlyTheAlert(g, l0, c, p, AlertFor(r, a, MappingOf(r, a).value));
  }

  lemma TwoRegistered(l0: Loop, c: RID, a: AID)
    requires a in l0.plane.registry
    ensures RedirectsRegistered(l0, [Redirects(c, Probe(a)), CsTakes])
  {}

  lemma ShadowedRedirectDisturbs(g: Config, l0: Loop, c: RID, a: AID) returns (acts: seq<Act>)
    requires Settled(g, l0) && c in l0.plane.routers && a in l0.plane.registry
    requires IsMoved(l0.plane.routers[c], a) && Shadows(l0.plane.routers[c], a, l0.plane.registry[a])
    ensures CanAct(g, l0, acts) && RedirectsRegistered(l0, acts)
    ensures RunActs(g, l0, acts).plane.registry != l0.plane.registry
  {
    ShadowedAlert(g, l0, c, a);
    TwoActs(g, l0, Redirects(c, Probe(a)), CsTakes);
    TwoRegistered(l0, c, a);
    acts := [Redirects(c, Probe(a)), CsTakes];
  }

  /** The exact condition: from a settled state, every run of redirects, alerts and notifications
      leaves the registry and all mappings as they were exactly when no router that holds a
      registered user as moved has a local mapping for it that says otherwise. */
  lemma FixpointExactlyWhenUnshadowed(g: Config, l0: Loop)
    requires Settled(g, l0)
    ensures Unshadowed(l0.plane)
       <==> forall acts | CanAct(g, l0, acts) && RedirectsRegistered(l0, acts) ::
              Undisturbed(g, l0, RunActs(g, l0, acts))
  {
    if Unshadowed(l0.plane) {
      forall acts | CanAct(g, l0, acts) && RedirectsRegistered(l0, acts)
        ensures Undisturbed(g, l0, RunActs(g, l0, acts))
      {
        RedirectsAreAFixpoint(g, l0, acts);
      }
    } else {
      var c, a :| c in l0.plane.routers && a in l0.plane.registry && IsMoved(l0.plane.routers[c], a)
                  && Shadows(l0.plane.routers[c], a, l0.plane.registry[a]);
      var acts := ShadowedRedirectDisturbs(g, l0, c, a);
      assert !Undisturbed(g, l0, RunActs(g, l0, acts));
    }
  }

  /** Throughout, a redirect addresses the packet, unchanged, to the router the registry names. */
  lemma RedirectsNameTheRecordedRouter(g: Config, l0: Loop, acts: seq<Act>, c: RID, p: AidPdu)
    requires Settled(g, l0) && Unshadowed(l0.plane) && CanAct(g, l0, acts) && RedirectsRegistered(l0, acts)
    requires Possible(RunActs(g, l0, acts), Redirects(c, p)) && p.dst in l0.plane.registry
    ensures var m := MappingOf(RunActs(g, l0, acts).plane.routers[c], p.dst);
            m.Some? && m.value.remoteCrRid == l0.plane.registry[p.dst].remoteCrRid
    ensures var sent := Redirect(RunActs(g, l0, acts).plane.routers[c], p).sent;
            sent.Some? ==>
              && sent.value.frame.RidFrame?
              && sent.value.frame.rid.dst == l0.plane.registry[p.dst].remoteCrRid
              && AidDeserialize(sent.value.frame.rid.payload) == Ok(p)
  {
    RedirectsAreAFixpoint(g, l0, acts);
    ActsKeepBearings(g, l0, acts, c);
    assert SameMappings(l0.plane.routers[c], RunActs(g, l0, acts).plane.routers[c]);
    assert Agrees(l0.plane.routers[c].tables.remote, l0.plane.registry);
    RedirectCarriesThePacket(RunActs(g, l0, acts).plane.routers[c], p);
  }

  /** The network consists of routers of the control plane, under the names given. */
  predicate IsMadeOf(net: Net, s: Plane, name: map<nat, RID>) {
    forall n | n in net.routers :: n in name && name[n] in s.routers && net.routers[n] == s.routers[name[n]]
  }

  /** And it arrives there: a packet that comes, at any point of such a run, to a router that
      holds its user as moved is carried, unchanged, to the router the registry names, if the
      routes lead there in at most 63 hops. */
  lemma RedirectsReachTheRecordedRouter(
      g: Config, l0: Loop, acts: seq<Act>, c: TextCodec, net: Net, name: map<nat, RID>, path: seq<nat>,
      p: AidPdu, f: Frame)
    requires Settled(g, l0) && Unshadowed(l0.plane) && CanAct(g, l0, acts) && RedirectsRegistered(l0, acts)
    requires p.dst in l0.plane.registry && IsMadeOf(net, RunActs(g, l0, acts).plane, name)
    requires path != [] && path[0] in net.routers && Possible(RunActs(g, l0, acts), Redirects(name[path[0]], p))
    requires var rt := net.routers[path[0]];
             && !IsLocalRid(rt.tables, name[path[0]]) && Carries(f, name[path[0]], p) && Carriable(p)
             && MappingOf(rt, p.dst).Some? && |path| <= 64
             && CorePath(net, path, l0.plane.registry[p.dst].remoteCrRid, MappingOf(rt, p.dst).value.spaceId)
    ensures var last := Travel(c, net, Hop(path[0], f), |path| - 1);
            && last.Some? && last.value.at == path[|path| - 1]
            && Carries(last.value.frame, l0.plane.registry[p.dst].remoteCrRid, p)
  {
    ActsStayWellFormed(g, l0, acts);
    RedirectsNameTheRecordedRouter(g, l0, acts, name[path[0]], p);
    RedirectedArrives(c, net, path, f.rid, p, l0.plane.registry[p.dst].remoteCrRid,
                      MappingOf(net.routers[path[0]], p.dst).value.spaceId, Hop(path[0], f));
  }

  // ------------------------------------------------- what an update does to local delivery

  /** The AP that a router takes an update to mean: the first with the RID the update names, or
      else the one with AID 0. */
  predicate NamesAp(aps: seq<ApEntry>, apRid: RID, ap: ApEntry) {
    if ApByRid(aps, apRid).Some? then ApByRid(aps, apRid) == Some(ap) else ap in aps && ap.aid == AID(0)
  }

  /** After a router has taken an update that names it as the serving router, the user's packets
      go to an AP exactly when the update is taken to mean that AP. */
  lemma ServedExactlyByTheNamedAp(r: Router, u: Signal, ap: ApEntry, q: RidPdu, p: AidPdu)
    requires u.MappingUpdateNotification? && r.myRid == Some(u.newCrRid) && UniqueAps(r.tables.aps)
    requires AidDeserialize(q.payload) == Ok(p) && p.dst == u.aid
    ensures ServedBy(Learn(r, u).tables, u.aid, ap) <==> NamesAp(r.tables.aps, u.apRid, ap)
    ensures NamesAp(r.tables.aps, u.apRid, ap) ==> Decapsulate(Learn(r, u), q) == ToTheAp(Learn(r, u), p, ap)
  {
    var byRid := ApByRid(r.tables.aps, u.apRid);
    if byRid.Some? {
      ApByAidOfUnique(r.tables.aps, byRid.value);
    }
    if NamesAp(r.tables.aps, u.apRid, ap) {
      ApByAidOfUnique(r.tables.aps, ap);
    }
  }

  /** So it can hand a decapsulated packet for that user to some AP exactly when the update names
      the RID of one of its APs, or AID 0 is itself one of its APs. */
  lemma DeliverableExactlyWhenApIsNamed(r: Router, u: Signal, q: RidPdu, p: AidPdu)
    requires u.MappingUpdateNotification? && r.myRid == Some(u.newCrRid)
    requires AidDeserialize(q.payload) == Ok(p) && p.dst == u.aid
    ensures Decapsulate(Learn(r, u), q).sent.Some?
        <==> exists ap | ap in r.tables.aps :: ap.rid == u.apRid || ap.aid == AID(0)
    ensures Decapsulate(Learn(r, u), q).sent.None? ==> Decapsulate(Learn(r, u), q) == Ends(NoServingAp)
  {
    var byRid := ApByRid(r.tables.aps, u.apRid);
    if byRid.Some? {
      assert ApByAid(r.tables.aps, byRid.value.aid).Some?;
    }
  }

  // The notification that the alert of a redirect causes.
  function Echo(reg: Registry, a: AID): Signal
    requires a in reg
  {
    MappingUpdateNotification(a, reg[a].mappedRid, reg[a].remoteCrRid, NO_RID)
  }

  // A redirect, its alert, and its notification at the serving router.
  function OneRound(c: RID, p: AidPdu, serving: RID): seq<Act> {
    [Redirects(c, p), CsTakes, Delivers(serving)]
  }

  /** A router redirects a packet for a registered user by a mapping that names the recorded pair,
      and `serving` is the user's serving router. */
  ghost predicate CanRedirect(g: Config, l0: Loop, c: RID, p: AidPdu, serving: RID) {
    && Settled(g, l0) && Possible(l0, Redirects(c, p)) && p.dst in l0.plane.registry
    && !Shadows(l0.plane.routers[c], p.dst, l0.plane.registry[p.dst])
    && Redirect(l0.plane.routers[c], p).alert.Some?
    && serving == l0.plane.registry[p.dst].remoteCrRid && serving in l0.plane.routers
  }

  lemma RedirectQueuesAlert(g: Config, l0: Loop, c: RID, p: AidPdu, serving: RID)
    requires CanRedirect(g, l0, c, p, serving)
    ensures var from, e := l0.plane.routers[c].SourceRid(), l0.plane.registry[p.dst];
            Step(g, l0, Redirects(c, p))
              == l0.(uplink := [MobilityAlert(p.dst, from, e.mappedRid, serving, "mobility_handover")])
  {
    var r := l0.plane.routers[c];
    assert Agrees(r.tables.remote, l0.plane.registry);
    RedirectCarriesThePacket(r, p);
  }

  lemma OneRoundTeachesEcho(g: Config, l0: Loop, c: RID, p: AidPdu, serving: RID)
    requires CanRedirect(g, l0, c, p, serving)
    ensures CanAct(g, l0, OneRound(c, p, serving))
    ensures serving in RunActs(g, l0, OneRound(c, p, serving)).plane.routers
    ensures RunActs(g, l0, OneRound(c, p, serving)).plane.routers[serving]
         == Learn(l0.plane.routers[serving], Echo(l0.plane.registry, p.dst))
  {
    RedirectQueuesAlert(g, l0, c, p, serving);
    var l1 := Step(g, l0, Redirects(c, p));
    AlertReachesServing(g, l1, l1.uplink[0], serving);
    ThreeActs(g, l0, Redirects(c, p), CsTakes, Delivers(serving));
  }

  /** The notification of a mobility alert names no AP. So once the alert of a redirect has made
      its way to the serving router, that router drops every further packet that it decapsulates
      for the user, exactly when none of its APs has RID (0, 0) or AID 0. It then drops an AID
      packet for the user, too, unless the user itself is one of its access neighbours. */
  lemma RedirectEndsInABlackHole(g: Config, l0: Loop, c: RID, p: AidPdu, serving: RID, q: RidPdu, p': AidPdu)
    requires CanRedirect(g, l0, c, p, serving)
    requires AidDeserialize(q.payload) == Ok(p') && p'.dst == p.dst
    ensures var acts := OneRound(c, p, serving);
            && CanAct(g, l0, acts)
            && serving in RunActs(g, l0, acts).plane.routers
            && var r, aps := RunActs(g, l0, acts).plane.routers[serving], l0.plane.routers[serving].tables.aps;
               var nameless := forall ap | ap in aps :: ap.rid != NO_RID && ap.aid != AID(0);
               var neighbor := AccessNeighborOf(r.tables.accessNeighbors, p.dst);
               && IsLocalAid(r.tables, p.dst)
               && (Decapsulate(r, q) == Ends(NoServingAp) <==> nameless)
               && (nameless && p'.ttl >= 2 ==> (HandleAid(r, p') == Ends(NoServingAp) <==> neighbor.None?))
  {
    OneRoundTeachesEcho(g, l0, c, p, serving);
    DeliverableExactlyWhenApIsNamed(l0.plane.routers[serving], Echo(l0.plane.registry, p.dst), q, p');
  }

  /** The router's state for the user is what it was, or what a notification without AP makes it. */
  predicate KeptOrNameless(r0: Router, r: Router, a: AID) {
    && r.tables.aps == r0.tables.aps
    && (|| ((a in r.tables.users <==> a in r0.tables.users)
            && (a in r.tables.users ==> r.tables.users[a] == r0.tables.users[a]))
        || (a in r.tables.users && r.tables.users[a] == UserState(ApFor(r.tables.aps, NO_RID), Online, "")))
  }

  predicate IsNameless(m: Signal) {
    m.MappingUpdateNotification? ==> m.apRid == NO_RID
  }

  /** Only alerts are on their way up, and no notification on its way down names an AP. */
  ghost predicate OnlyAlerts(l: Loop) {
    && (forall m | m in l.uplink :: m.MobilityAlert?)
    && (forall c, m | c in l.plane.channels && m in l.plane.channels[c] :: IsNameless(m))
  }

  lemma HearingNamelessKeeps(r0: Router, r: Router, a: AID, m: Signal)
    requires KeptOrNameless(r0, r, a) && IsNameless(m)
    ensures KeptOrNameless(r0, Hear(r, m), a)
  {}

  lemma NamelessAfterCs(g: Config, l: Loop, c: RID)
    requires WellFormed(g, l.plane) && OnlyAlerts(l) && Possible(l, CsTakes) && c in l.plane.channels
    ensures forall m | m in Step(g, l, CsTakes).plane.channels[c] :: IsNameless(m)
  {
    var m := l.uplink[0];
    assert m.MobilityAlert?;
    NotificationReachesAll(g, l.plane, m, NO_RID, c);
    var u := NotificationFor(g.apToCr, m).value;
    assert Step(g, l, CsTakes).plane.channels[c] == l.plane.channels[c] + [u];
  }

  lemma OnlyAlertsAfter(g: Config, l: Loop, act: Act)
    requires WellFormed(g, l.plane) && OnlyAlerts(l) && Possible(l, act)
    ensures OnlyAlerts(Step(g, l, act))
  {
    match act
    case Redirects(c, p) => RedirectCarriesThePacket(l.plane.routers[c], p);
    case Delivers(c) =>
    case CsTakes =>
      forall c | c in l.plane.channels ensures forall m | m in Step(g, l, act).plane.channels[c] :: IsNameless(m) {
        NamelessAfterCs(g, l, c);
      }
  }

  lemma {:induction false} ActsSendOnlyAlerts(g: Config, l0: Loop, acts: seq<Act>)
    requires WellFormed(g, l0.plane) && OnlyAlerts(l0) && CanAct(g, l0, acts)
    ensures OnlyAlerts(RunActs(g, l0, acts))
    decreases |acts|
  {
    if acts != [] {
      var front := acts[..|acts| - 1];
      ActsSendOnlyAlerts(g, l0, front);
      ActsStayWellFormed(g, l0, front);
      OnlyAlertsAfter(g, RunActs(g, l0, front), acts[|acts| - 1]);
    }
  }

  lemma ActKeepsOrLosesTheAp(g: Config, l: Loop, act: Act, r0: Router, c: RID, a: AID)
    requires Possible(l, act) && OnlyAlerts(l) && c in l.plane.routers && KeptOrNameless(r0, l.plane.routers[c], a)
    ensures c in Step(g, l, act).plane.routers && KeptOrNameless(r0, Step(g, l, act).plane.routers[c], a)
  {
    if act == Delivers(c) {
      HearingNamelessKeeps(r0, l.plane.routers[c], a, l.plane.channels[c][0]);
    } else {
      assert Step(g, l, act).plane.routers[c] == l.plane.routers[c];
    }
  }

  /** Redirects, alerts and notifications change the state of a user to nothing but online without
      a registered AP. */
  lemma {:induction false} StatesAreKeptOrNameless(g: Config, l0: Loop, acts: seq<Act>, c: RID, a: AID)
    requires Settled(g, l0) && CanAct(g, l0, acts) && c in l0.plane.routers
    ensures var l := RunActs(g, l0, acts);
            c in l.plane.routers && KeptOrNameless(l0.plane.routers[c], l.plane.routers[c], a)
    decreases |acts|
  {
    if acts != [] {
      var front := acts[..|acts| - 1];
      StatesAreKeptOrNameless(g, l0, front, c, a);
      ActsSendOnlyAlerts(g, l0, front);
      ActKeepsOrLosesTheAp(g, RunActs(g, l0, front), acts[|acts| - 1], l0.plane.routers[c], c, a);
    }
  }

  /** After the acts the router still serves the user through the AP. */
  predicate StillServes(g: Config, l0: Loop, acts: seq<Act>, serving: RID, a: AID, ap: ApEntry)
    requires CanAct(g, l0, acts)
  {
    var routers := RunActs(g, l0, acts).plane.routers;
    serving in routers && ServedBy(routers[serving].tables, a, ap)
  }

  lemma NamelessServes(aps: seq<ApEntry>, ap: ApEntry)
    requires UniqueAps(aps)
    ensures NamesAp(aps, NO_RID, ap) <==> ApByAid(aps, ApFor(aps, NO_RID)) == Some(ap)
  {
    if ApByRid(aps, NO_RID).Some? {
      ApByAidOfUnique(aps, ApByRid(aps, NO_RID).value);
    }
    if NamesAp(aps, NO_RID, ap) {
      ApByAidOfUnique(aps, ap);
    }
  }

  lemma NamelessKeepsTheAp(g: Config, l0: Loop, acts: seq<Act>, serving: RID, a: AID, ap: ApEntry)
    requires Settled(g, l0) && CanAct(g, l0, acts) && serving in l0.plane.routers
    requires var t := l0.plane.routers[serving].tables;
             UniqueAps(t.aps) && ServedBy(t, a, ap) && NamesAp(t.aps, NO_RID, ap)
    ensures StillServes(g, l0, acts, serving, a, ap)
  {
    NamelessServes(l0.plane.routers[serving].tables.aps, ap);
    StatesAreKeptOrNameless(g, l0, acts, serving, a);
  }

  lemma EchoServesNameless(r: Router, reg: Registry, a: AID, ap: ApEntry)
    requires a in reg && r.myRid == Some(reg[a].remoteCrRid) && UniqueAps(r.tables.aps)
    ensures ServedBy(Learn(r, Echo(reg, a)).tables, a, ap) <==> NamesAp(r.tables.aps, NO_RID, ap)
  {
    NamelessServes(r.tables.aps, ap);
  }

  lemma EchoLosesTheAp(g: Config, l0: Loop, acts: seq<Act>, serving: RID, a: AID, ap: ApEntry)
    requires CanAct(g, l0, acts) && serving in l0.plane.routers && serving in RunActs(g, l0, acts).plane.routers
    requires a in l0.plane.registry && l0.plane.routers[serving].myRid == Some(l0.plane.registry[a].remoteCrRid)
    requires RunActs(g, l0, acts).plane.routers[serving] == Learn(l0.plane.routers[serving], Echo(l0.plane.registry, a))
    requires var aps := l0.plane.routers[serving].tables.aps; UniqueAps(aps) && !NamesAp(aps, NO_RID, ap)
    ensures !StillServes(g, l0, acts, serving, a, ap)
  {
    EchoServesNameless(l0.plane.routers[serving], l0.plane.registry, a, ap);
  }

  lemma SomeActsTeachEcho(g: Config, l0: Loop, c: RID, p: AidPdu, serving: RID) returns (acts: seq<Act>)
    requires CanRedirect(g, l0, c, p, serving)
    ensures CanAct(g, l0, acts) && serving in RunActs(g, l0, acts).plane.routers
    ensures RunActs(g, l0, acts).plane.routers[serving]
         == Learn(l0.plane.routers[serving], Echo(l0.plane.registry, p.dst))
  {
    OneRoundTeachesEcho(g, l0, c, p, serving);
    acts := OneRound(c, p, serving);
  }

  /** If a router can redirect by a current mapping, redirects leave a user at the AP it registered
      at, in every run from a settled state, exactly when an update without AP would be taken to
      mean that AP. */
  lemma RedirectsKeepTheApExactlyWhenUnnamed(g: Config, l0: Loop, c: RID, p: AidPdu, serving: RID, ap: ApEntry)
    requires CanRedirect(g, l0, c, p, serving)
    requires var t := l0.plane.routers[serving].tables; UniqueAps(t.aps) && ServedBy(t, p.dst, ap)
    ensures NamesAp(l0.plane.routers[serving].tables.aps, NO_RID, ap)
       <==> forall acts | CanAct(g, l0, acts) :: StillServes(g, l0, acts, serving, p.dst, ap)
  {
    if NamesAp(l0.plane.routers[serving].tables.aps, NO_RID, ap) {
      forall acts | CanAct(g, l0, acts)
        ensures StillServes(g, l0, acts, serving, p.dst, ap)
      {
        NamelessKeepsTheAp(g, l0, acts, serving, p.dst, ap);
      }
    } else {
      var acts := SomeActsTeachEcho(g, l0, c, p, serving);
      EchoLosesTheAp(g, l0, acts, serving, p.dst, ap);
    }
  }

  lemma AlertReachesServing(g: Config, l: Loop, alert: Signal, serving: RID)
    requires WellFormed(g, l.plane) && serving in l.plane.routers && l.plane.channels[serving] == []
    requires alert.MobilityAlert? && l.uplink == [alert]
    ensures var l' := Step(g, l, CsTakes);
            && l'.plane.routers == l.plane.routers
            && serving in l'.plane.channels
            && l'.plane.channels[serving]
               == [MappingUpdateNotification(alert.userAid, alert.newRid, alert.newCrRid, NO_RID)]
  {
    NotificationReachesAll(g, l.plane, alert, NO_RID, serving);
  }

  lemma ThreeActs(g: Config, l: Loop, a: Act, b: Act, d: Act)
    requires Possible(l, a) && Possible(Step(g, l, a), b) && Possible(Step(g, Step(g, l, a), b), d)
    ensures CanAct(g, l, [a, b, d])
    ensures RunActs(g, l, [a, b, d]) == Step(g, Step(g, Step(g, l, a), b), d)
  {
    assert [a, b, d][..2] == [a, b] && [a, b][..1] == [a] && [a][..0] == [];
    assert CanAct(g, l, []) && RunActs(g, l, []) == l;
    assert CanAct(g, l, [a]) && RunActs(g, l, [a]) == Step(g, l, a);
    assert CanAct(g, l, [a, b]) && RunActs(g, l, [a, b]) == Step(g, Step(g, l, a), b);
  }
}
