// Frames in flight through an arbitrary network whose tables may change between steps.

module Termination {
  import opened Wrappers
  import opened Addressing
  import opened ByteStrings
  import opened Packets
  import opened Signaling
  import opened Forwarding
  import opened AccessPoints

  // The nodes are routers, access points, control servers and hosts. User packets are never
  // duplicated, and apart from mobility redirects every packet stops.

  datatype Role = RouterNode | ApNode | OtherNode

  // wire says which node is at the other end of an interface; links have two ends.
  datatype Topology = Topology(role: map<nat, Role>, wire: map<(nat, int), nat>)

  datatype Flight = Flight(at: nat, frame: Frame)

  // How a node reacts to one frame: its state at that moment. What access points, servers and
  // hosts send on control business is left open, as long as it is control packets.
  datatype Behaviour =
    | AsRouter(router: Router)
    | AsAp(ap: ApState, signals: seq<Emission>)
    | AsOther(signals: seq<Emission>)

  predicate IsUser(f: Frame) {
    f.AidFrame? || f.rid.dataType.UserData?
  }

  predicate OnlySignals(es: seq<Emission>) {
    forall e | e in es :: !IsUser(e.frame)
  }

  function RoleAt(t: Topology, n: nat): Role {
    if n in t.role then t.role[n] else OtherNode
  }

  predicate Fits(t: Topology, n: nat, b: Behaviour) {
    match b
    case AsRouter(_) => RoleAt(t, n) == RouterNode
    case AsAp(_, signals) => RoleAt(t, n) == ApNode && OnlySignals(signals)
    case AsOther(signals) => RoleAt(t, n) == OtherNode && OnlySignals(signals)
  }

  function Outputs(c: TextCodec, b: Behaviour, f: Frame): seq<Emission> {
    match b
    case AsRouter(r) => Emissions(c, r, Handle(c, r, f))
    case AsAp(ap, signals) => if IsUser(f) then OptionSeq(Bridge(ap, f)) else signals
    case AsOther(signals) => signals
  }

  function Land(t: Topology, at: nat, es: seq<Emission>): seq<Flight> {
    if es == [] then []
    else
      var e := es[|es| - 1];
      Land(t, at, es[..|es| - 1]) + if (at, e.iface) in t.wire then [Flight(t.wire[(at, e.iface)], e.frame)] else []
  }

  predicate IsRedirect(c: TextCodec, b: Behaviour, f: Frame) {
    b.AsRouter? && Handle(c, b.router, f).branch == Redirected
  }

  /** An access point passes a user packet straight to another access point. */
  predicate IsApHop(t: Topology, at: nat, b: Behaviour, f: Frame) {
    b.AsAp? && IsUser(f)
    && var e := Bridge(b.ap, f);
       e.Some? && (at, e.value.iface) in t.wire && RoleAt(t, t.wire[(at, e.value.iface)]) == ApNode
  }

  /** No link joins two access points. */
  predicate NoApToAp(t: Topology) {
    forall k | k in t.wire :: !(RoleAt(t, k.0) == ApNode && RoleAt(t, t.wire[k]) == ApNode)
  }

  // -------------------------------------------------------------------------- the measure

  function InnerTtl(payload: Bytes): nat {
    match AidDeserialize(payload)
    case Ok(p) => p.ttl
    case Err(_) => 0
  }

  function Phase(r: Role): nat {
    match r
    case ApNode => 3
    case RouterNode => 2
    case OtherNode => 1
  }

  /** AID TTL first, then the phase: inside a RID packet by RID TTL, outside one by where it is. */
  function Weight(r: Role, f: Frame): nat {
    match f
    case AidFrame(p) => 67 * p.ttl + Phase(r)
    case RidFrame(q) => if q.dataType.UserData? then 67 * InnerTtl(q.payload) + q.ttl + 4 else 0
  }

  const REDIRECT_COST := 63

  lemma FollowingLosesWeight(f: Frame, branch: Branch, g: Frame, at: Role)
    requires Follows(f, branch, g) && IsUser(g)
    ensures IsUser(f)
    ensures Weight(at, g) + 1 <= Weight(RouterNode, f) + if branch == Redirected then REDIRECT_COST else 0
  {
    match f
    case AidFrame(p) =>
      if branch == Encapsulated {
        WrappedInner(g, p.(ttl := p.ttl - 1));
      }
    case RidFrame(q) =>
      if branch == Redirected {
        WrappedInner(g, AidDeserialize(q.payload).value);
      }
  }

  /** A router sends on at most one user packet, only for a user packet, and a lighter one
      unless it redirects. */
  lemma RouterStepLosesWeight(c: TextCodec, r: Router, f: Frame, at: Role)
    ensures var o := Handle(c, r, f);
            o.sent.Some? && IsUser(o.sent.value.frame) ==>
              IsUser(f) && Weight(at, o.sent.value.frame) + 1
                <= Weight(RouterNode, f) + if o.branch == Redirected then REDIRECT_COST else 0
  {
    var o := Handle(c, r, f);
    HandlingFollows(c, r, f);
    if o.sent.Some? && IsUser(o.sent.value.frame) {
      FollowingLosesWeight(f, o.branch, o.sent.value.frame, at);
    }
  }

  lemma BridgeLosesWeight(ap: ApState, f: Frame, at: Role)
    requires IsUser(f)
    ensures var e := Bridge(ap, f);
            e.Some? ==> IsUser(e.value.frame)
                        && Weight(at, e.value.frame) + 1 <= Weight(ApNode, f) + if at == ApNode then 1 else 0
  {}

  // ------------------------------------------------------------------------- many flights

  function Total(t: Topology, fs: seq<Flight>): nat {
    if fs == [] then 0
    else Total(t, fs[..|fs| - 1]) + Weight(RoleAt(t, fs[|fs| - 1].at), fs[|fs| - 1].frame)
  }

  function UserCount(fs: seq<Flight>): nat {
    if fs == [] then 0
    else UserCount(fs[..|fs| - 1]) + if IsUser(fs[|fs| - 1].frame) then 1 else 0
  }

  lemma {:induction false} TotalOfConcat(t: Topology, a: seq<Flight>, b: seq<Flight>)
    ensures Total(t, a + b) == Total(t, a) + Total(t, b)
    ensures UserCount(a + b) == UserCount(a) + UserCount(b)
    decreases |b|
  {
    if b == [] {
      assert a + b == a;
    } else {
      TotalOfConcat(t, a, b[..|b| - 1]);
      assert (a + b)[..|a + b| - 1] == a + b[..|b| - 1];
    }
  }

  lemma {:induction false} SignalsWeighNothing(t: Topology, at: nat, es: seq<Emission>)
    requires OnlySignals(es)
    ensures Total(t, Land(t, at, es)) == 0 && UserCount(Land(t, at, es)) == 0
    decreases |es|
  {
    if es != [] {
      SignalsWeighNothing(t, at, es[..|es| - 1]);
      var e := es[|es| - 1];
      if (at, e.iface) in t.wire {
        TotalOfConcat(t, Land(t, at, es[..|es| - 1]), [Flight(t.wire[(at, e.iface)], e.frame)]);
        OneFlight(t, Flight(t.wire[(at, e.iface)], e.frame));
      } else {
        assert Land(t, at, es) == Land(t, at, es[..|es| - 1]);
      }
    }
  }

  lemma OneFlight(t: Topology, f: Flight)
    ensures Total(t, [f]) == Weight(RoleAt(t, f.at), f.frame)
    ensures UserCount([f]) == if IsUser(f.frame) then 1 else 0
  {
    assert [f][..0] == [];
  }

  lemma {:induction false} LandConcat(t: Topology, at: nat, a: seq<Emission>, b: seq<Emission>)
    ensures Land(t, at, a + b) == Land(t, at, a) + Land(t, at, b)
    decreases |b|
  {
    if b == [] {
      assert a + b == a;
    } else {
      LandConcat(t, at, a, b[..|b| - 1]);
      assert (a + b)[..|a + b| - 1] == a + b[..|b| - 1];
    }
  }

  lemma LandOne(t: Topology, at: nat, e: Emission)
    ensures Land(t, at, [e]) == if (at, e.iface) in t.wire then [Flight(t.wire[(at, e.iface)], e.frame)] else []
  {
    assert [e][..0] == [];
  }

  // What one optional user emission, and signals beside it, add to the flights.
  lemma LandedWeight(t: Topology, at: nat, sent: Option<Emission>, signals: seq<Emission>, bound: nat)
    requires OnlySignals(signals)
    requires sent.Some? && IsUser(sent.value.frame) && (at, sent.value.iface) in t.wire ==>
               Weight(RoleAt(t, t.wire[(at, sent.value.iface)]), sent.value.frame) <= bound
    ensures var l := Land(t, at, OptionSeq(sent) + signals);
            Total(t, l) <= bound
            && UserCount(l) <= if sent.Some? && IsUser(sent.value.frame) then 1 else 0
  {
    LandConcat(t, at, OptionSeq(sent), signals);
    TotalOfConcat(t, Land(t, at, OptionSeq(sent)), Land(t, at, signals));
    SignalsWeighNothing(t, at, signals);
    if sent.Some? {
      LandOne(t, at, sent.value);
      if (at, sent.value.iface) in t.wire {
        OneFlight(t, Flight(t.wire[(at, sent.value.iface)], sent.value.frame));
      }
    } else {
      assert Land(t, at, []) == [];
    }
  }

  /** What handling one frame puts in flight: of a user packet at most one copy, of a control
      packet no user packet at all. */
  lemma HandlingKeepsCount(c: TextCodec, t: Topology, f: Flight, b: Behaviour)
    requires Fits(t, f.at, b)
    ensures UserCount(Land(t, f.at, Outputs(c, b, f.frame))) <= if IsUser(f.frame) then 1 else 0
  {
    match b
    case AsRouter(r) =>
      var o := Handle(c, r, f.frame);
      var signals := if o.alert.Some? then OptionSeq(ToControlServer(c, r, o.alert.value)) else [];
      RouterStepLosesWeight(c, r, f.frame, OtherNode);
      LandedCount(t, f.at, o.sent, signals);
    case AsAp(ap, signals) =>
      if IsUser(f.frame) {
        LandedCount(t, f.at, Bridge(ap, f.frame), []);
        assert OptionSeq(Bridge(ap, f.frame)) + [] == OptionSeq(Bridge(ap, f.frame));
      } else {
        SignalsWeighNothing(t, f.at, signals);
      }
    case AsOther(signals) =>
      SignalsWeighNothing(t, f.at, signals);
  }

  lemma LandedCount(t: Topology, at: nat, sent: Option<Emission>, signals: seq<Emission>)
    requires OnlySignals(signals)
    ensures UserCount(Land(t, at, OptionSeq(sent) + signals)) <= if sent.Some? && IsUser(sent.value.frame) then 1 else 0
  {
    var bound := if sent.Some? && (at, sent.value.iface) in t.wire
                 then Weight(RoleAt(t, t.wire[(at, sent.value.iface)]), sent.value.frame) else 0;
    LandedWeight(t, at, sent, signals, bound);
  }

  // What handling a frame may add to the weight that it takes away.
  function Extra(c: TextCodec, t: Topology, f: Flight, b: Behaviour): nat {
    (if IsRedirect(c, b, f.frame) then REDIRECT_COST else 0) + if IsApHop(t, f.at, b, f.frame) then 1 else 0
  }

  /** What handling a user packet puts in flight is lighter by one, redirects and hops from one
      access point to another aside; handling a control packet puts no user packet in flight. */
  lemma HandlingLosesWeight(c: TextCodec, t: Topology, f: Flight, b: Behaviour)
    requires Fits(t, f.at, b)
    ensures var after := Total(t, Land(t, f.at, Outputs(c, b, f.frame)));
            if IsUser(f.frame) then after + 1 <= Weight(RoleAt(t, f.at), f.frame) + Extra(c, t, f, b) else after == 0
  {
    var allowed := Weight(RoleAt(t, f.at), f.frame) + Extra(c, t, f, b);
    var bound := if IsUser(f.frame) then allowed - 1 else 0;
    match b
    case AsRouter(r) =>
      var o := Handle(c, r, f.frame);
      var signals := if o.alert.Some? then OptionSeq(ToControlServer(c, r, o.alert.value)) else [];
      if o.sent.Some? && (f.at, o.sent.value.iface) in t.wire {
        RouterStepLosesWeight(c, r, f.frame, RoleAt(t, t.wire[(f.at, o.sent.value.iface)]));
      }
      LandedWeight(t, f.at, o.sent, signals, bound);
    case AsAp(ap, signals) =>
      if IsUser(f.frame) {
        var e := Bridge(ap, f.frame);
        if e.Some? && (f.at, e.value.iface) in t.wire {
          BridgeLosesWeight(ap, f.frame, RoleAt(t, t.wire[(f.at, e.value.iface)]));
        }
        LandedWeight(t, f.at, e, [], bound);
        assert OptionSeq(e) + [] == OptionSeq(e);
      } else {
        SignalsWeighNothing(t, f.at, signals);
      }
    case AsOther(signals) =>
      SignalsWeighNothing(t, f.at, signals);
  }

  // ------------------------------------------------------------------------------- runs

  datatype Event =
    | Process(i: nat, b: Behaviour)  // the i-th frame in flight reaches its node
    | Inject(f: Flight)              // a node sends something of its own accord

  predicate Can(t: Topology, fs: seq<Flight>, e: Event) {
    e.Process? ==> e.i < |fs| && Fits(t, fs[e.i].at, e.b)
  }

  function Proceed(c: TextCodec, t: Topology, fs: seq<Flight>, e: Event): seq<Flight>
    requires Can(t, fs, e)
  {
    match e
    case Process(i, b) => fs[..i] + fs[i + 1..] + Land(t, fs[i].at, Outputs(c, b, fs[i].frame))
    case Inject(f) => fs + [f]
  }

  predicate CanRun(c: TextCodec, t: Topology, fs: seq<Flight>, es: seq<Event>)
    decreases |es|, 0
  {
    es == [] || (CanRun(c, t, fs, es[..|es| - 1]) && Can(t, Run(c, t, fs, es[..|es| - 1]), es[|es| - 1]))
  }

  function Run(c: TextCodec, t: Topology, fs: seq<Flight>, es: seq<Event>): seq<Flight>
    requires CanRun(c, t, fs, es)
    decreases |es|, 1
  {
    if es == [] then fs else Proceed(c, t, Run(c, t, fs, es[..|es| - 1]), es[|es| - 1])
  }

  // Counts over a run: user packets handled, redirects among them, packets and weight injected.

  function Handled(c: TextCodec, t: Topology, fs: seq<Flight>, es: seq<Event>): nat
    requires CanRun(c, t, fs, es)
    decreases |es|
  {
    if es == [] then 0
    else
      var before, e := Run(c, t, fs, es[..|es| - 1]), es[|es| - 1];
      Handled(c, t, fs, es[..|es| - 1]) + if e.Process? && IsUser(before[e.i].frame) then 1 else 0
  }

  function Redirects(c: TextCodec, t: Topology, fs: seq<Flight>, es: seq<Event>): nat
    requires CanRun(c, t, fs, es)
    decreases |es|
  {
    if es == [] then 0
    else
      var before, e := Run(c, t, fs, es[..|es| - 1]), es[|es| - 1];
      Redirects(c, t, fs, es[..|es| - 1])
        + if e.Process? && IsUser(before[e.i].frame) && IsRedirect(c, e.b, before[e.i].frame) then 1 else 0
  }

  function ApHops(c: TextCodec, t: Topology, fs: seq<Flight>, es: seq<Event>): nat
    requires CanRun(c, t, fs, es)
    decreases |es|
  {
    if es == [] then 0
    else
      var before, e := Run(c, t, fs, es[..|es| - 1]), es[|es| - 1];
      ApHops(c, t, fs, es[..|es| - 1])
        + if e.Process? && IsApHop(t, before[e.i].at, e.b, before[e.i].frame) then 1 else 0
  }

  function Injected(es: seq<Event>): seq<Flight> {
    if es == [] then []
    else Injected(es[..|es| - 1]) + if es[|es| - 1].Inject? then [es[|es| - 1].f] else []
  }

  lemma StepKeepsCount(c: TextCodec, t: Topology, fs: seq<Flight>, e: Event)
    requires Can(t, fs, e)
    ensures UserCount(Proceed(c, t, fs, e)) <= UserCount(fs) + UserCount(if e.Inject? then [e.f] else [])
  {
    match e
    case Process(i, b) =>
      HandlingKeepsCount(c, t, fs[i], b);
      TakeOut(t, fs, i, Land(t, fs[i].at, Outputs(c, b, fs[i].frame)));
    case Inject(f) =>
      TotalOfConcat(t, fs, [f]);
  }

  lemma TakeOut(t: Topology, fs: seq<Flight>, i: nat, more: seq<Flight>)
    requires i < |fs|
    ensures var rest := fs[..i] + fs[i + 1..] + more;
            && Total(t, rest) + Weight(RoleAt(t, fs[i].at), fs[i].frame) == Total(t, fs) + Total(t, more)
            && UserCount(rest) + (if IsUser(fs[i].frame) then 1 else 0) == UserCount(fs) + UserCount(more)
  {
    assert fs == fs[..i] + [fs[i]] + fs[i + 1..];
    TotalOfConcat(t, fs[..i] + [fs[i]], fs[i + 1..]);
    TotalOfConcat(t, fs[..i], [fs[i]]);
    OneFlight(t, fs[i]);
    TotalOfConcat(t, fs[..i], fs[i + 1..]);
    TotalOfConcat(t, fs[..i] + fs[i + 1..], more);
  }

  lemma StepLosesWeight(c: TextCodec, t: Topology, fs: seq<Flight>, e: Event)
    requires Can(t, fs, e)
    ensures var user := e.Process? && IsUser(fs[e.i].frame);
            Total(t, Proceed(c, t, fs, e)) + (if user then 1 else 0)
              <= Total(t, fs) + Total(t, if e.Inject? then [e.f] else [])
                 + if user then Extra(c, t, fs[e.i], e.b) else 0
  {
    match e
    case Process(i, b) =>
      HandlingLosesWeight(c, t, fs[i], b);
      TakeOut(t, fs, i, Land(t, fs[i].at, Outputs(c, b, fs[i].frame)));
    case Inject(f) =>
      TotalOfConcat(t, fs, [f]);
  }

  /** Conservation: in every run, whatever the tables, live user packets never exceed those
      that were there plus those injected. */
  lemma {:induction false} UserPacketsAreNotDuplicated(c: TextCodec, t: Topology, fs: seq<Flight>, es: seq<Event>)
    requires CanRun(c, t, fs, es)
    ensures UserCount(Run(c, t, fs, es)) <= UserCount(fs) + UserCount(Injected(es))
    decreases |es|
  {
    if es != [] {
      UserPacketsAreNotDuplicated(c, t, fs, es[..|es| - 1]);
      var before, e := Run(c, t, fs, es[..|es| - 1]), es[|es| - 1];
      StepKeepsCount(c, t, before, e);
      TotalOfConcat(t, Injected(es[..|es| - 1]), if e.Inject? then [e.f] else []);
    }
  }

  lemma ExtrasOfRun(c: TextCodec, t: Topology, fs: seq<Flight>, es: seq<Event>)
    requires es != [] && CanRun(c, t, fs, es)
    ensures var front, e := es[..|es| - 1], es[|es| - 1];
            var before := Run(c, t, fs, front);
            var user := e.Process? && IsUser(before[e.i].frame);
            && Handled(c, t, fs, es) == Handled(c, t, fs, front) + (if user then 1 else 0)
            && REDIRECT_COST * Redirects(c, t, fs, es) + ApHops(c, t, fs, es)
               == REDIRECT_COST * Redirects(c, t, fs, front) + ApHops(c, t, fs, front)
                  + if user then Extra(c, t, before[e.i], e.b) else 0
  {}

  /** Termination: in every run, with tables that change arbitrarily, routing loops and frames
      bounced back by access points included, the number of user packets handled is bounded by
      the weight of what was sent, 63 for each redirect and 1 for each hop between access points. */
  lemma {:induction false} HandlingIsBounded(c: TextCodec, t: Topology, fs: seq<Flight>, es: seq<Event>)
    requires CanRun(c, t, fs, es)
    ensures Handled(c, t, fs, es) + Total(t, Run(c, t, fs, es))
         <= Total(t, fs) + Total(t, Injected(es)) + REDIRECT_COST * Redirects(c, t, fs, es) + ApHops(c, t, fs, es)
    decreases |es|
  {
    if es != [] {
      var front, e := es[..|es| - 1], es[|es| - 1];
      HandlingIsBounded(c, t, fs, front);
      ExtrasOfRun(c, t, fs, es);
      StepLosesWeight(c, t, Run(c, t, fs, front), e);
      TotalOfConcat(t, Injected(front), if e.Inject? then [e.f] else []);
    }
  }

  // ------------------------------------------------------- links between access points

  /** The bound without the hops between access points. */
  predicate IsBoundedByRedirects(c: TextCodec, t: Topology, fs: seq<Flight>, es: seq<Event>)
    requires CanRun(c, t, fs, es)
  {
    Handled(c, t, fs, es) + Total(t, Run(c, t, fs, es))
      <= Total(t, fs) + Total(t, Injected(es)) + REDIRECT_COST * Redirects(c, t, fs, es)
  }

  /** Every link can be used both ways. */
  predicate TwoEnded(t: Topology) {
    forall k {:trigger HasBack(t, k)} | k in t.wire :: HasBack(t, k)
  }

  predicate HasBack(t: Topology, k: (nat, int))
    requires k in t.wire
  {
    exists back | back in t.wire :: back.0 == t.wire[k] && t.wire[back] == k.0
  }

  lemma {:induction false} NoLinkNoHop(c: TextCodec, t: Topology, fs: seq<Flight>, es: seq<Event>)
    requires NoApToAp(t) && CanRun(c, t, fs, es)
    ensures ApHops(c, t, fs, es) == 0
    decreases |es|
  {
    if es != [] {
      NoLinkNoHop(c, t, fs, es[..|es| - 1]);
    }
  }

  // Access points a and b, which do not know the user, are each other's uplink.
  predicate Linked(t: Topology, a: nat, x: ApState, b: nat, y: ApState, p: AidPdu) {
    && RoleAt(t, a) == ApNode && (a, x.crIface) in t.wire && t.wire[(a, x.crIface)] == b
    && RoleAt(t, b) == ApNode && (b, y.crIface) in t.wire && t.wire[(b, y.crIface)] == a
    && p.dst !in x.users && p.dst !in y.users && |p.payload| <= MAX_PAYLOAD
  }

  // The only frame in flight reaches its node: x on odd turns, y on even ones.
  function Turn(x: ApState, y: ApState, n: nat): Event {
    Process(0, AsAp(if n % 2 == 1 then x else y, []))
  }

  function Turns(x: ApState, y: ApState, n: nat): seq<Event> {
    if n == 0 then [] else Turns(x, y, n - 1) + [Turn(x, y, n)]
  }

  function AfterTurns(a: nat, b: nat, p: AidPdu, n: nat): seq<Flight> {
    [Flight(if n % 2 == 0 then a else b, AidFrame(p))]
  }

  lemma BounceOnce(c: TextCodec, t: Topology, a: nat, x: ApState, b: nat, y: ApState, p: AidPdu)
    requires Linked(t, a, x, b, y, p)
    ensures Proceed(c, t, [Flight(a, AidFrame(p))], Process(0, AsAp(x, []))) == [Flight(b, AidFrame(p))]
  {
    LandOne(t, a, Bridge(x, AidFrame(p)).value);
  }

  lemma RunOneMore(c: TextCodec, t: Topology, fs: seq<Flight>, es: seq<Event>, before: seq<Flight>, e: Event)
    requires CanRun(c, t, fs, es) && Run(c, t, fs, es) == before && Can(t, before, e) && e.Process?
    ensures CanRun(c, t, fs, es + [e]) && Run(c, t, fs, es + [e]) == Proceed(c, t, before, e)
    ensures var f := before[e.i].frame;
            && Handled(c, t, fs, es + [e]) == Handled(c, t, fs, es) + (if IsUser(f) then 1 else 0)
            && (!IsRedirect(c, e.b, f) ==> Redirects(c, t, fs, es + [e]) == Redirects(c, t, fs, es))
  {
    assert (es + [e])[..|es|] == es;
  }

  lemma BounceTurn(c: TextCodec, t: Topology, a: nat, x: ApState, b: nat, y: ApState, p: AidPdu, n: nat)
    requires Linked(t, a, x, b, y, p) && n > 0
    ensures Can(t, AfterTurns(a, b, p, n - 1), Turn(x, y, n))
    ensures Proceed(c, t, AfterTurns(a, b, p, n - 1), Turn(x, y, n)) == AfterTurns(a, b, p, n)
  {
    if n % 2 == 1 {
      BounceOnce(c, t, a, x, b, y, p);
    } else {
      BounceOnce(c, t, b, y, a, x, p);
    }
  }

  /** Running es on the frame at a handles it n times, redirects nothing, and leaves it as it
      was, at a or at b in turn. */
  predicate Bounced(c: TextCodec, t: Topology, a: nat, b: nat, p: AidPdu, n: nat, es: seq<Event>) {
    var fs := [Flight(a, AidFrame(p))];
    && CanRun(c, t, fs, es) && Run(c, t, fs, es) == AfterTurns(a, b, p, n)
    && Handled(c, t, fs, es) == n && Redirects(c, t, fs, es) == 0
  }

  lemma BouncedNeverYet(c: TextCodec, t: Topology, a: nat, b: nat, p: AidPdu)
    ensures Bounced(c, t, a, b, p, 0, [])
  {}

  lemma BouncedOnceMore(c: TextCodec, t: Topology, a: nat, x: ApState, b: nat, y: ApState, p: AidPdu,
                        n: nat, es: seq<Event>)
    requires Linked(t, a, x, b, y, p) && n > 0 && Bounced(c, t, a, b, p, n - 1, es)
    ensures Bounced(c, t, a, b, p, n, es + [Turn(x, y, n)])
  {
    BounceTurn(c, t, a, x, b, y, p, n);
    RunOneMore(c, t, [Flight(a, AidFrame(p))], es, AfterTurns(a, b, p, n - 1), Turn(x, y, n));
  }

  /** Access points do not touch the TTL. An AID frame for a user that neither of two access
      points knows goes back and forth for ever, unchanged, if each is the other's uplink. */
  lemma {:induction false} LinkedAccessPointsBounceForever(
      c: TextCodec, t: Topology, a: nat, x: ApState, b: nat, y: ApState, p: AidPdu, n: nat)
    requires Linked(t, a, x, b, y, p)
    ensures Bounced(c, t, a, b, p, n, Turns(x, y, n))
    decreases n
  {
    if n == 0 {
      BouncedNeverYet(c, t, a, b, p);
    } else {
      LinkedAccessPointsBounceForever(c, t, a, x, b, y, p, n - 1);
      BouncedOnceMore(c, t, a, x, b, y, p, n, Turns(x, y, n - 1));
      assert Turns(x, y, n) == Turns(x, y, n - 1) + [Turn(x, y, n)];
    }
  }

  lemma {:induction false} TurnsInjectNothing(x: ApState, y: ApState, n: nat)
    ensures Injected(Turns(x, y, n)) == []
  {
    if n > 0 {
      TurnsInjectNothing(x, y, n - 1);
      assert Turns(x, y, n)[..|Turns(x, y, n)| - 1] == Turns(x, y, n - 1);
    }
  }

  ghost predicate RedirectsBoundEveryRun(c: TextCodec, t: Topology) {
    forall fs, es | CanRun(c, t, fs, es) :: IsBoundedByRedirects(c, t, fs, es)
  }

  // A link that joins two access points, and its other direction, give a run beyond the bound.
  lemma LinkBreaksBound(c: TextCodec, t: Topology, k: (nat, int), back: (nat, int))
    requires k in t.wire && RoleAt(t, k.0) == ApNode && RoleAt(t, t.wire[k]) == ApNode
    requires back in t.wire && back.0 == t.wire[k] && t.wire[back] == k.0
    ensures !RedirectsBoundEveryRun(c, t)
  {
    var x, y := ApState(map[], 0, k.1, BROADCAST), ApState(map[], 0, back.1, BROADCAST);
    var p := AidPdu(AID(1), AID(7), [], 0, UserData, DEFAULT_TTL);
    var fs, es := [Flight(k.0, AidFrame(p))], Turns(x, y, 2);
    assert k == (k.0, x.crIface) && back == (back.0, y.crIface);
    LinkedAccessPointsBounceForever(c, t, k.0, x, back.0, y, p, 2);
    TurnsInjectNothing(x, y, 2);
    assert CanRun(c, t, fs, es) && !IsBoundedByRedirects(c, t, fs, es);
  }

  lemma NoLinkMeansBounded(c: TextCodec, t: Topology)
    requires NoApToAp(t)
    ensures RedirectsBoundEveryRun(c, t)
  {
    forall fs, es | CanRun(c, t, fs, es) ensures IsBoundedByRedirects(c, t, fs, es) {
      HandlingIsBounded(c, t, fs, es);
      NoLinkNoHop(c, t, fs, es);
    }
  }

  /** On links that can be used both ways, redirects alone bound every run exactly when no link
      joins two access points. */
  lemma BoundedExactlyWhenNoApToAp(c: TextCodec, t: Topology)
    requires TwoEnded(t)
    ensures RedirectsBoundEveryRun(c, t) <==> NoApToAp(t)
  {
    if NoApToAp(t) {
      NoLinkMeansBounded(c, t);
    } else {
      var k :| k in t.wire && RoleAt(t, k.0) == ApNode && RoleAt(t, t.wire[k]) == ApNode;
      assert HasBack(t, k);
      var back :| back in t.wire && back.0 == t.wire[k] && t.wire[back] == k.0;
      LinkBreaksBound(c, t, k, back);
    }
  }
}
