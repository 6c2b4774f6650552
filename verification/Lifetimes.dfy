// The life of a single packet: how often it can be encapsulated, how many transmissions one
// encapsulation can cause, and when a packet goes round for ever.

module Lifetimes {
  import opened Orbits
  import opened Addressing
  import opened Packets
  import opened Signaling
  import opened Forwarding
  import opened AccessPoints
  import opened Termination
  import opened Delivery

  // -------------------------------------------------------------------------- lineages

  // One node turned the user packet `before` into the user packet `after`.
  datatype Link = Link(before: Flight, node: Behaviour, after: Flight)

  predicate IsLink(c: TextCodec, t: Topology, l: Link) {
    && IsUser(l.before.frame) && IsUser(l.after.frame) && Fits(t, l.before.at, l.node)
    && l.after in Land(t, l.before.at, Outputs(c, l.node, l.before.frame))
  }

  /** The successive forms of one packet, each node's tables as they were at that moment. */
  predicate IsLineage(c: TextCodec, t: Topology, ls: seq<Link>) {
    && (forall i | 0 <= i < |ls| :: IsLink(c, t, ls[i]))
    && (forall i | 0 <= i < |ls| - 1 :: ls[i].after == ls[i + 1].before)
  }

  predicate HandlesAid(l: Link) {
    l.node.AsRouter? && l.before.frame.AidFrame?
  }

  predicate Encapsulates(c: TextCodec, l: Link) {
    l.node.AsRouter? && Handle(c, l.node.router, l.before.frame).branch == Encapsulated
  }

  function CountRouters(ls: seq<Link>): nat {
    if ls == [] then 0 else CountRouters(ls[..|ls| - 1]) + if ls[|ls| - 1].node.AsRouter? then 1 else 0
  }

  function CountEncapsulations(c: TextCodec, ls: seq<Link>): nat {
    if ls == [] then 0
    else CountEncapsulations(c, ls[..|ls| - 1]) + if Encapsulates(c, ls[|ls| - 1]) then 1 else 0
  }

  function CountRedirects(c: TextCodec, ls: seq<Link>): nat {
    if ls == [] then 0
    else
      var last := ls[|ls| - 1];
      CountRedirects(c, ls[..|ls| - 1]) + if IsRedirect(c, last.node, last.before.frame) then 1 else 0
  }

  lemma {:induction false} LandedWasEmitted(t: Topology, at: nat, es: seq<Emission>, f: Flight)
    requires f in Land(t, at, es)
    ensures exists e | e in es :: f.frame == e.frame
    decreases |es|
  {
    if f in Land(t, at, es[..|es| - 1]) {
      LandedWasEmitted(t, at, es[..|es| - 1], f);
    } else {
      assert es[|es| - 1] in es;
    }
  }

  /** The packet that goes on is the one the router sent or the access point bridged. */
  lemma LinkSource(c: TextCodec, t: Topology, l: Link)
    requires IsLink(c, t, l)
    ensures !l.node.AsOther?
    ensures l.node.AsRouter? ==>
              var sent := Handle(c, l.node.router, l.before.frame).sent; sent.Some? && sent.value.frame == l.after.frame
    ensures l.node.AsAp? ==>
              var e := Bridge(l.node.ap, l.before.frame); e.Some? && e.value.frame == l.after.frame
  {
    LandedWasEmitted(t, l.before.at, Outputs(c, l.node, l.before.frame), l.after);
  }

  // ------------------------------------------------------------ encapsulations and AID TTL

  function AidTtl(f: Frame): nat {
    match f
    case AidFrame(p) => p.ttl
    case RidFrame(q) => InnerTtl(q.payload)
  }

  /** A router takes one off the AID TTL of an AID packet and leaves that of a carried one alone. */
  lemma FollowingAidTtl(f: Frame, branch: Branch, g: Frame)
    requires Follows(f, branch, g)
    ensures AidTtl(g) + (if f.AidFrame? then 1 else 0) == AidTtl(f) && (f.AidFrame? ==> AidTtl(g) >= 1)
  {
    match f
    case AidFrame(p) =>
      if branch == Encapsulated {
        WrappedInner(g, p.(ttl := p.ttl - 1));
      }
    case RidFrame(q) =>
      if branch == Redirected {
        WrappedInner(g, AidDeserialize(q.payload).value);
      }
  }

  lemma LinkAidTtl(c: TextCodec, t: Topology, l: Link)
    requires IsLink(c, t, l)
    ensures AidTtl(l.after.frame) + (if HandlesAid(l) then 1 else 0) == AidTtl(l.before.frame)
    ensures HandlesAid(l) ==> AidTtl(l.after.frame) >= 1
    ensures Encapsulates(c, l) ==> HandlesAid(l)
  {
    LinkSource(c, t, l);
    if l.node.AsRouter? {
      HandlingFollows(c, l.node.router, l.before.frame);
      FollowingAidTtl(l.before.frame, Handle(c, l.node.router, l.before.frame).branch, l.after.frame);
    }
  }

  /** A packet that starts with AID TTL n is encapsulated at most n - 1 times, and each
      encapsulation costs it one. */
  lemma {:induction false} EncapsulationsAreBounded(c: TextCodec, t: Topology, ls: seq<Link>)
    requires IsLineage(c, t, ls) && ls != []
    ensures var first, last := AidTtl(ls[0].before.frame), AidTtl(ls[|ls| - 1].after.frame);
            && CountEncapsulations(c, ls) + last <= first
            && (CountEncapsulations(c, ls) > 0 ==> CountEncapsulations(c, ls) <= first - 1)
    decreases |ls|
  {
    var n := |ls| - 1;
    LinkAidTtl(c, t, ls[n]);
    if n > 0 {
      EncapsulationsAreBounded(c, t, ls[..n]);
      assert ls[n - 1].after == ls[n].before;
    } else {
      assert ls[..0] == [];
    }
  }

  // ------------------------------------------------------ transmissions per encapsulation

  // How many more routers a RID packet can get to; a decapsulated packet to none.
  function RidLife(f: Frame): nat {
    if f.RidFrame? && f.rid.ttl > 1 then f.rid.ttl else 1
  }

  lemma FollowingShortensLife(f: Frame, branch: Branch, g: Frame)
    requires Follows(f, branch, g) && f.RidFrame?
    ensures RidLife(g) + 1 <= RidLife(f) + if branch == Redirected then 63 else 0
  {}

  lemma LinkShortensLife(c: TextCodec, t: Topology, l: Link)
    requires IsLink(c, t, l) && !HandlesAid(l)
    ensures RidLife(l.after.frame) + (if l.node.AsRouter? then 1 else 0)
         <= RidLife(l.before.frame) + if IsRedirect(c, l.node, l.before.frame) then 63 else 0
  {
    LinkSource(c, t, l);
    if l.node.AsRouter? {
      HandlingFollows(c, l.node.router, l.before.frame);
      FollowingShortensLife(l.before.frame, Handle(c, l.node.router, l.before.frame).branch, l.after.frame);
    }
  }

  lemma {:induction false} LifeBoundsRouters(c: TextCodec, t: Topology, ls: seq<Link>)
    requires IsLineage(c, t, ls) && ls != []
    requires forall i | 0 <= i < |ls| :: !HandlesAid(ls[i])
    ensures CountRouters(ls) + RidLife(ls[|ls| - 1].after.frame)
         <= RidLife(ls[0].before.frame) + 63 * CountRedirects(c, ls)
    decreases |ls|
  {
    var n := |ls| - 1;
    LinkShortensLife(c, t, ls[n]);
    if n > 0 {
      LifeBoundsRouters(c, t, ls[..n]);
      assert ls[n - 1].after == ls[n].before;
    } else {
      assert ls[..0] == [];
    }
  }

  lemma EncapsulationStartsLife(c: TextCodec, t: Topology, l: Link)
    requires IsLink(c, t, l) && Encapsulates(c, l)
    ensures RidLife(l.after.frame) == 64 && !IsRedirect(c, l.node, l.before.frame)
  {
    LinkSource(c, t, l);
    HandlingFollows(c, l.node.router, l.before.frame);
  }

  /** From one encapsulation until a router next handles the packet as an AID packet, at most
      64 + 63 r router transmissions happen, for r redirects. */
  lemma TransmissionsPerEncapsulation(c: TextCodec, t: Topology, ls: seq<Link>)
    requires IsLineage(c, t, ls) && ls != []
    requires Encapsulates(c, ls[0])
    requires forall i | 0 < i < |ls| :: !HandlesAid(ls[i])
    ensures CountRouters(ls) <= 64 + 63 * CountRedirects(c, ls)
  {
    var rest := ls[1..];
    EncapsulationStartsLife(c, t, ls[0]);
    CountsFromHead(c, ls);
    if rest != [] {
      assert forall i | 0 <= i < |rest| :: rest[i] == ls[i + 1];
      LifeBoundsRouters(c, t, rest);
      assert ls[0].after == ls[1].before;
    }
  }

  lemma {:induction false} CountsFromHead(c: TextCodec, ls: seq<Link>)
    requires ls != []
    ensures CountRouters(ls) == (if ls[0].node.AsRouter? then 1 else 0) + CountRouters(ls[1..])
    ensures CountRedirects(c, ls)
         == (if IsRedirect(c, ls[0].node, ls[0].before.frame) then 1 else 0) + CountRedirects(c, ls[1..])
    decreases |ls|
  {
    var n := |ls| - 1;
    if n > 0 {
      CountsFromHead(c, ls[..n]);
      assert ls[..n][1..] == ls[1..][..n - 1];
    } else {
      assert ls[..0] == [] && ls[1..] == [];
    }
  }

  // --------------------------------------------------------- packets that never stop

  // Steps a frame can still make among routers if nobody redirects it.
  function StepsLeft(f: Frame): nat {
    if IsUser(f) then Weight(RouterNode, f) else f.rid.ttl
  }

  lemma FollowingTakesStep(f: Frame, branch: Branch, g: Frame)
    requires Follows(f, branch, g)
    ensures StepsLeft(g) + 1 <= StepsLeft(f) + if branch == Redirected then 63 else 0
  {
    if IsUser(g) {
      FollowingLosesWeight(f, branch, g, RouterNode);
    }
  }

  lemma RouterStepShortens(c: TextCodec, r: Router, f: Frame)
    ensures var o := Handle(c, r, f);
            o.sent.Some? ==>
              StepsLeft(o.sent.value.frame) + 1 <= StepsLeft(f) + if o.branch == Redirected then 63 else 0
  {
    var o := Handle(c, r, f);
    HandlingFollows(c, r, f);
    if o.sent.Some? {
      FollowingTakesStep(f, o.branch, o.sent.value.frame);
    }
  }

  // Router h.at redirects the frame.
  predicate RedirectsAt(c: TextCodec, net: Net, h: Hop) {
    h.at in net.routers && Handle(c, net.routers[h.at], h.frame).branch == Redirected
  }

  function Redirecting(c: TextCodec, net: Net): Hop -> bool {
    h => RedirectsAt(c, net, h)
  }

  function RedirectsOnTheWay(c: TextCodec, net: Net, h: Hop, n: nat): nat {
    Marked(Onward(c, net), Redirecting(c, net), h, n)
  }

  lemma NextShortens(c: TextCodec, net: Net, h: Hop)
    requires Next(c, net, h).Some?
    ensures StepsLeft(Next(c, net, h).value.frame) + 1
         <= StepsLeft(h.frame) + if RedirectsAt(c, net, h) then 63 else 0
  {
    RouterStepShortens(c, net.routers[h.at], h.frame);
  }

  function HopWeight(): Hop -> nat {
    (h: Hop) => StepsLeft(h.frame)
  }

  lemma HopsTire(c: TextCodec, net: Net)
    ensures Tiring(Onward(c, net), Redirecting(c, net), HopWeight(), 63)
  {
    forall h | Onward(c, net)(h).Some?
      ensures HopWeight()(Onward(c, net)(h).value) + 1 <= HopWeight()(h) + if Redirecting(c, net)(h) then 63 else 0
    {
      NextShortens(c, net, h);
    }
  }

  /** Among routers, a frame makes at most the steps its TTLs allow and 63 for each redirect. */
  lemma TravelIsBounded(c: TextCodec, net: Net, h: Hop, n: nat)
    requires Travel(c, net, h, n).Some?
    ensures n <= StepsLeft(h.frame) + 63 * RedirectsOnTheWay(c, net, h, n)
  {
    HopsTire(c, net);
    StepsAreBounded(Onward(c, net), Redirecting(c, net), HopWeight(), 63, h, n);
  }

  // ------------------------------------------------------ no moved user, no endless packet

  // The frame is, or carries, a packet for user u, if any.
  predicate IsFor(f: Frame, u: AID) {
    match f
    case AidFrame(p) => p.dst == u
    case RidFrame(q) => AidDeserialize(q.payload).Ok? ==> AidDeserialize(q.payload).value.dst == u
  }

  lemma FollowingIsFor(f: Frame, branch: Branch, g: Frame, u: AID)
    requires Follows(f, branch, g) && IsFor(f, u)
    ensures IsFor(g, u)
  {
    match f
    case AidFrame(p) =>
      if branch == Encapsulated {
        WrappedInner(g, p.(ttl := p.ttl - 1));
      }
    case RidFrame(q) =>
      if branch == Redirected {
        WrappedInner(g, AidDeserialize(q.payload).value);
      }
  }

  lemma AidHandlingNeverRedirects(r: Router, p: AidPdu)
    ensures HandleAid(r, p).branch != Redirected
  {
    if p.ttl >= 2 {
      PlacedFollows(r, p.(ttl := p.ttl - 1));
    }
  }

  lemma DecapsulationWithoutMove(r: Router, q: RidPdu, u: AID)
    requires IsFor(RidFrame(q), u) && !IsMoved(r, u)
    ensures Decapsulate(r, q).branch != Redirected
  {}

  lemma NoRedirectWithoutMove(c: TextCodec, r: Router, f: Frame, u: AID)
    requires IsFor(f, u) && !IsMoved(r, u)
    ensures Handle(c, r, f).branch != Redirected
  {
    match f
    case AidFrame(p) => AidHandlingNeverRedirects(r, p);
    case RidFrame(q) =>
      if q.ttl >= 2 {
        DecapsulationWithoutMove(r, q.(ttl := q.ttl - 1), u);
      }
  }

  /** No router holds the user as moved away. */
  predicate NobodyMoved(net: Net, u: AID) {
    forall a | a in net.routers :: !IsMoved(net.routers[a], u)
  }

  lemma NextWithoutMove(c: TextCodec, net: Net, h: Hop, u: AID)
    requires IsFor(h.frame, u) && NobodyMoved(net, u)
    ensures !RedirectsAt(c, net, h)
    ensures Next(c, net, h).Some? ==> IsFor(Next(c, net, h).value.frame, u)
  {
    if h.at in net.routers {
      var o := Handle(c, net.routers[h.at], h.frame);
      NoRedirectWithoutMove(c, net.routers[h.at], h.frame, u);
      HandlingFollows(c, net.routers[h.at], h.frame);
      if o.sent.Some? {
        FollowingIsFor(h.frame, o.branch, o.sent.value.frame, u);
      }
    }
  }

  /** If no router holds the user as moved away, a packet for the user stops within the steps
      its TTLs allow, whatever the routes. */
  lemma StopsUnlessMoved(c: TextCodec, net: Net, h: Hop, u: AID)
    requires IsFor(h.frame, u) && NobodyMoved(net, u)
    ensures Travel(c, net, h, StepsLeft(h.frame) + 1).None?
  {
    var inv := (x: Hop) => IsFor(x.frame, u);
    forall x | inv(x)
      ensures !Redirecting(c, net)(x) && (Onward(c, net)(x).Some? ==> inv(Onward(c, net)(x).value))
    {
      NextWithoutMove(c, net, x, u);
    }
    var n := StepsLeft(h.frame) + 1;
    InvariantKeepsUnmarked(Onward(c, net), Redirecting(c, net), inv, h, n);
    if Travel(c, net, h, n).Some? {
      TravelIsBounded(c, net, h, n);
    }
  }
}
