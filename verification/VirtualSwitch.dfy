// The layer-2 switch with port isolation (src/simulation/virtual_link.py): its operations, and
// every interleaving of sends that block on full queues with receives and port additions.

module SwitchFabric {
  import opened Wrappers
  import opened ByteStrings

  const QUEUE_LIMIT := 1000

  // origin remembers the port a frame was sent from.
  datatype Queued = Queued(origin: int, data: Bytes)

  datatype Port = Port(mac: Bytes, queue: seq<Queued>)

  // order lists the ports as they were added.
  datatype Fabric = Fabric(ports: map<int, Port>, order: seq<int>, macTable: map<Bytes, int>,
                           groups: map<int, set<int>>, sent: nat, dropped: nat)

  predicate ShareGroup(groups: map<int, set<int>>, a: int, b: int) {
    exists g | g in groups :: a in groups[g] && b in groups[g]
  }

  // No hairpin; without groups every other port is allowed.
  predicate CanForward(groups: map<int, set<int>>, a: int, b: int) {
    a != b && (groups == map[] || ShareGroup(groups, a, b))
  }

  function AllowedFrom(groups: map<int, set<int>>, from: int, order: seq<int>): (r: seq<int>)
    ensures forall p :: p in r <==> p in order && CanForward(groups, from, p)
  {
    if order == [] then []
    else AllowedFrom(groups, from, order[..|order| - 1])
         + if CanForward(groups, from, order[|order| - 1]) then [order[|order| - 1]] else []
  }

  // An explicit port, the port of a known MAC, or every allowed port.
  function Targets(f: Fabric, from: int, to: Option<int>, data: Bytes): seq<int> {
    var dstMac := if |data| >= 6 then data[..6] else data;
    if to.Some? then [to.value]
    else if dstMac in f.macTable then [f.macTable[dstMac]]
    else AllowedFrom(f.groups, from, f.order)
  }

  predicate Accepts(f: Fabric, from: int, to: int) {
    CanForward(f.groups, from, to) && to in f.ports
  }

  // The put would wait: the queue of an accepting port is full.
  predicate Blocks(f: Fabric, from: int, to: int) {
    Accepts(f, from, to) && |f.ports[to].queue| >= QUEUE_LIMIT
  }

  function Enqueue(f: Fabric, from: int, to: int, data: Bytes): Fabric {
    if Accepts(f, from, to)
    then f.(ports := f.ports[to := f.ports[to].(queue := f.ports[to].queue + [Queued(from, data)])], sent := f.sent + 1)
    else f
  }

  function EnqueueAll(f: Fabric, from: int, targets: seq<int>, data: Bytes): Fabric {
    if targets == [] then f
    else Enqueue(EnqueueAll(f, from, targets[..|targets| - 1], data), from, targets[|targets| - 1], data)
  }

  // A send under way: the targets it has not come to yet.
  datatype Task = Task(from: int, data: Bytes, targets: seq<int>, delivered: bool)

  function NextTarget(f: Fabric, t: Task): Task
    requires t.targets != []
  {
    t.(targets := t.targets[1..], delivered := t.delivered || Accepts(f, t.from, t.targets[0]))
  }

  /** How far a send gets before it has to wait for a full queue. */
  function Pump(f: Fabric, t: Task): (Fabric, Task)
    decreases |t.targets|
  {
    if t.targets == [] || Blocks(f, t.from, t.targets[0]) then (f, t)
    else Pump(Enqueue(f, t.from, t.targets[0], t.data), NextTarget(f, t))
  }

  // What a send comes to: nothing, an end, or the wait for a queue.
  datatype SendResult = UnknownPort | Finished(delivered: bool) | Waiting(task: Task)

  function ResultOf(t: Task): SendResult {
    if t.targets == [] then Finished(t.delivered) else Waiting(t)
  }

  // A send that ends without a delivery counts as dropped.
  function Closed(f: Fabric, t: Task): Fabric {
    if t.targets == [] && !t.delivered then f.(dropped := f.dropped + 1) else f
  }

  // A whole send, from the choice of the targets to its end or its first wait.
  function SendOff(f: Fabric, from: int, to: Option<int>, data: Bytes): (SendResult, Fabric) {
    if from !in f.ports then (UnknownPort, f)
    else
      var (f', t) := Pump(f, Task(from, data, Targets(f, from, to, data), false));
      (ResultOf(t), Closed(f', t))
  }

  function WithPort(f: Fabric, port: int, mac: Bytes): Fabric {
    f.(ports := f.ports[port := Port(mac, [])],
       order := if port in f.ports then f.order else f.order + [port],
       macTable := f.macTable[mac := port])
  }

  method Pick<T(==)>(s: set<T>) returns (x: T)
    requires s != {}
    ensures x in s
  {
    x :| x in s;
  }

  // ------------------------------------------------------------------------ the switch

  class VirtualSwitch {
    var ports: map<int, Port>
    var order: seq<int>
    var macTable: map<Bytes, int>
    var groups: map<int, set<int>>
    var sent: nat
    var dropped: nat

    constructor ()
      ensures State() == Fabric(map[], [], map[], map[], 0, 0)
    {
      ports, order, macTable, groups, sent, dropped := map[], [], map[], map[], 0, 0;
    }

    function State(): Fabric
      reads this
    {
      Fabric(ports, order, macTable, groups, sent, dropped)
    }

    method AddPort(port: int, mac: Bytes)
      modifies this
      ensures State() == WithPort(old(State()), port, mac)
      ensures ports == old(ports)[port := Port(mac, [])] && macTable == old(macTable)[mac := port]
      ensures order == old(order) + if port in old(ports) then [] else [port]
      ensures (groups, sent, dropped) == old((groups, sent, dropped))
    {
      if port !in ports {
        order := order + [port];
      }
      ports := ports[port := Port(mac, [])];
      macTable := macTable[mac := port];
    }

    method SetIsolationGroup(group: int, members: set<int>)
      modifies this`groups
      ensures groups == old(groups)[group := members]
    {
      groups := groups[group := members];
    }

    method MayForward(from: int, to: int) returns (ok: bool)
      ensures ok <==> CanForward(groups, from, to)
      ensures ok <==> from != to && (groups == map[] || exists g | g in groups :: from in groups[g] && to in groups[g])
    {
      if from == to {
        return false;
      }
      if groups == map[] {
        return true;
      }
      var ids := groups.Keys;
      while ids != {}
        invariant ids <= groups.Keys
        invariant forall g | g in groups && g !in ids :: !(from in groups[g] && to in groups[g])
        decreases ids
      {
        var g := Pick(ids);
        if from in groups[g] && to in groups[g] {
          return true;
        }
        ids := ids - {g};
      }
      return false;
    }

    /** The targets get the frame in order, as far as the first one whose queue is full. */
    method Send(from: int, to: Option<int>, data: Bytes) returns (r: SendResult)
      modifies this`ports, this`sent, this`dropped
      ensures (r, State()) == SendOff(old(State()), from, to, data)
    {
      if from !in ports {
        return UnknownPort;
      }
      var targets := FindTargets(from, to, data);
      r := Resume(Task(from, data, targets, false));
    }

    method FindTargets(from: int, to: Option<int>, data: Bytes) returns (targets: seq<int>)
      ensures targets == Targets(State(), from, to, data)
    {
      var dstMac := if |data| >= 6 then data[..6] else data;
      if to.Some? {
        return [to.value];
      }
      if dstMac in macTable {
        return [macTable[dstMac]];
      }
      targets := [];
      for i := 0 to |order|
        invariant targets == AllowedFrom(groups, from, order[..i])
      {
        assert order[..i + 1][..i] == order[..i];
        var ok := MayForward(from, order[i]);
        if ok {
          targets := targets + [order[i]];
        }
      }
      assert order[..|order|] == order;
    }

    /** The loop over the targets, from the beginning or from where it waited. */
    method Resume(task: Task) returns (r: SendResult)
      modifies this`ports, this`sent, this`dropped
      ensures var (f, t) := Pump(old(State()), task);
              r == ResultOf(t) && State() == Closed(f, t)
    {
      var t := task;
      while t.targets != []
        invariant Pump(State(), t) == Pump(old(State()), task)
        decreases |t.targets|
      {
        var full := IsFull(t.from, t.targets[0]);
        if full {
          return Waiting(t);
        }
        var put := PutOne(t.from, t.targets[0], t.data);
        t := t.(targets := t.targets[1..], delivered := t.delivered || put);
      }
      if !t.delivered {
        dropped := dropped + 1;
      }
      return Finished(t.delivered);
    }

    method IsFull(from: int, to: int) returns (full: bool)
      ensures full <==> Blocks(State(), from, to)
    {
      full := MayForward(from, to);
      full := full && to in ports && |ports[to].queue| >= QUEUE_LIMIT;
    }

    method PutOne(from: int, to: int, data: Bytes) returns (put: bool)
      modifies this`ports, this`sent
      ensures State() == Enqueue(old(State()), from, to, data)
      ensures put <==> Accepts(old(State()), from, to)
    {
      put := MayForward(from, to);
      put := put && to in ports;
      if put {
        ports := ports[to := ports[to].(queue := ports[to].queue + [Queued(from, data)])];
        sent := sent + 1;
      }
    }

    /** The frame that has waited longest; None where the source raises or waits. */
    method Recv(port: int) returns (r: Option<Bytes>)
      modifies this`ports
      ensures r.Some? <==> port in old(ports) && old(ports)[port].queue != []
      ensures r.None? ==> ports == old(ports)
      ensures r.Some? ==> r.value == old(ports)[port].queue[0].data
                          && ports == old(ports)[port := old(ports)[port].(queue := old(ports)[port].queue[1..])]
    {
      if port !in ports || ports[port].queue == [] {
        return None;
      }
      r := Some(ports[port].queue[0].data);
      ports := ports[port := ports[port].(queue := ports[port].queue[1..])];
    }
  }

  // --------------------------------------------------------- sends that need not wait

  lemma {:induction false} EnqueueAllFromHead(f: Fabric, from: int, targets: seq<int>, data: Bytes)
    requires targets != []
    ensures EnqueueAll(f, from, targets, data)
         == EnqueueAll(Enqueue(f, from, targets[0], data), from, targets[1..], data)
    decreases |targets|
  {
    var n := |targets| - 1;
    if n > 0 {
      EnqueueAllFromHead(f, from, targets[..n], data);
      assert targets[..n][1..] == targets[1..][..n - 1];
    } else {
      assert targets[..0] == [] && targets[1..] == [];
    }
  }

  lemma {:induction false} AllowedIsDistinct(groups: map<int, set<int>>, from: int, order: seq<int>)
    requires Distinct(order)
    ensures Distinct(AllowedFrom(groups, from, order))
    decreases |order|
  {
    if order != [] {
      var front := order[..|order| - 1];
      AllowedIsDistinct(groups, from, front);
      assert order[|order| - 1] !in front;
    }
  }

  lemma {:induction false} UnblockedPump(f: Fabric, t: Task)
    requires Distinct(t.targets) && forall p | p in t.targets :: !Blocks(f, t.from, p)
    ensures Pump(f, t).0 == EnqueueAll(f, t.from, t.targets, t.data)
    ensures Pump(f, t).1.targets == []
    ensures Pump(f, t).1.delivered <==> t.delivered || exists p | p in t.targets :: Accepts(f, t.from, p)
    decreases |t.targets|
  {
    if t.targets != [] {
      EnqueueAllFromHead(f, t.from, t.targets, t.data);
      forall p | p in t.targets[1..] ensures p in t.targets && p != t.targets[0] {
        var j :| 0 <= j < |t.targets| - 1 && t.targets[1..][j] == p;
        assert t.targets[j + 1] == p;
      }
      UnblockedPump(Enqueue(f, t.from, t.targets[0], t.data), NextTarget(f, t));
      assert forall p | p in t.targets :: p == t.targets[0] || p in t.targets[1..];
    }
  }

  /** When none of the targets' queues is full, a send ends, every accepting target has the frame,
      and it counts as delivered exactly when there is one. */
  lemma SendReachesAllTargets(f: Fabric, from: int, to: Option<int>, data: Bytes)
    requires Distinct(f.order) && forall p | p in Targets(f, from, to, data) :: !Blocks(f, from, p)
    ensures var targets := Targets(f, from, to, data);
            var (f', t) := Pump(f, Task(from, data, targets, false));
            && f' == EnqueueAll(f, from, targets, data) && t.targets == []
            && (t.delivered <==> exists p | p in targets :: Accepts(f, from, p))
  {
    AllowedIsDistinct(f.groups, from, f.order);
    UnblockedPump(f, Task(from, data, Targets(f, from, to, data), false));
  }

  // ------------------------------------------------------------ what a send comes to

  // The frame's destination address, as far as it has one.
  function DestinationOf(data: Bytes): Bytes {
    data[..if |data| < 6 then |data| else 6]
  }

  /** The frame is for port p: it is named, or the frame's address is known to be there. */
  predicate IsFor(f: Fabric, to: Option<int>, data: Bytes, p: int) {
    to == Some(p) || (to.None? && DestinationOf(data) in f.macTable && f.macTable[DestinationOf(data)] == p)
  }

  // Isolation lets frames from one port through to the other.
  ghost predicate LetsThrough(f: Fabric, from: int, to: int) {
    from != to && (f.groups == map[] || exists g | g in f.groups :: from in f.groups[g] && to in f.groups[g])
  }

  function WithFrame(port: Port, from: int, data: Bytes): Port {
    Port(port.mac, port.queue + [Queued(from, data)])
  }

  /** A frame for one port is put at the end of that port's queue and of no other, if isolation lets
      it through; it waits while that queue holds 1000 frames, and is dropped if isolation does not
      let it through or there is no such port. */
  lemma FrameForOnePort(f: Fabric, from: int, to: Option<int>, data: Bytes, p: int)
    requires from in f.ports && IsFor(f, to, data, p)
    ensures var (r, f') := SendOff(f, from, to, data);
            if p !in f.ports || !LetsThrough(f, from, p) then r == Finished(false) && f' == f.(dropped := f.dropped + 1)
            else if |f.ports[p].queue| >= 1000 then r == Waiting(Task(from, data, [p], false)) && f' == f
            else && r == Finished(true)
                 && f' == f.(ports := f.ports[p := WithFrame(f.ports[p], from, data)], sent := f.sent + 1)
  {
    assert data[..|data|] == data;
    assert Targets(f, from, to, data) == [p];
    var t := Task(from, data, [p], false);
    if !Blocks(f, from, p) {
      var f1, t1 := Enqueue(f, from, p, data), NextTarget(f, t);
      assert t1.targets == [] && Pump(f1, t1) == (f1, t1);
      assert Pump(f, t) == Pump(f1, t1);
    }
  }

  lemma Regrouped(a: seq<int>, b: seq<int>, c: seq<int>)
    ensures a + b + c == a + (b + c)
  {}

  lemma OneMoreAllowed(groups: map<int, set<int>>, from: int, order: seq<int>, p: int)
    ensures AllowedFrom(groups, from, order + [p])
         == AllowedFrom(groups, from, order) + if CanForward(groups, from, p) then [p] else []
  {
    assert (order + [p])[..|order|] == order;
  }

  lemma {:induction false} AllowedOfBoth(groups: map<int, set<int>>, from: int, a: seq<int>, b: seq<int>)
    ensures AllowedFrom(groups, from, a + b) == AllowedFrom(groups, from, a) + AllowedFrom(groups, from, b)
    decreases |b|
  {
    if b == [] {
      assert a + b == a;
    } else {
      var front, last := b[..|b| - 1], b[|b| - 1];
      AllowedOfBoth(groups, from, a, front);
      OneMoreAllowed(groups, from, front, last);
      OneMoreAllowed(groups, from, a + front, last);
      assert b == front + [last];
      Regrouped(a, front, [last]);
      Regrouped(AllowedFrom(groups, from, a), AllowedFrom(groups, from, front),
                if CanForward(groups, from, last) then [last] else []);
    }
  }

  lemma {:induction false} PumpOfBoth(f: Fabric, t: Task, more: seq<int>)
    requires Distinct(t.targets) && forall p | p in t.targets :: !Blocks(f, t.from, p)
    ensures var (f', t') := Pump(f, t);
            Pump(f, t.(targets := t.targets + more)) == Pump(f', t'.(targets := more))
    decreases |t.targets|
  {
    if t.targets == [] {
      assert t.targets + more == more;
    } else {
      var f1, t1 := Enqueue(f, t.from, t.targets[0], t.data), NextTarget(f, t);
      LaterTargetsDiffer(t.targets);
      PumpOfBoth(f1, t1, more);
      assert (t.targets + more)[1..] == t.targets[1..] + more;
      assert NextTarget(f, t.(targets := t.targets + more)) == t1.(targets := t1.targets + more);
    }
  }

  lemma LaterTargetsDiffer(targets: seq<int>)
    requires targets != [] && Distinct(targets)
    ensures Distinct(targets[1..]) && forall p | p in targets[1..] :: p in targets && p != targets[0]
  {
    forall p | p in targets[1..] ensures p in targets && p != targets[0] {
      var j :| 0 <= j < |targets| - 1 && targets[1..][j] == p;
      assert targets[j + 1] == p;
    }
  }

  /** Each of the targets has the frame once more at the end of its queue, and nothing else changes. */
  lemma {:induction false} EachTargetGains(f: Fabric, from: int, targets: seq<int>, data: Bytes)
    requires Distinct(targets) && forall p | p in targets :: Accepts(f, from, p)
    ensures var f' := EnqueueAll(f, from, targets, data);
            && f'.ports.Keys == f.ports.Keys
            && (forall p | p in f.ports ::
                  f'.ports[p] == if p in targets then WithFrame(f.ports[p], from, data) else f.ports[p])
            && f' == f.(ports := f'.ports, sent := f.sent + |targets|)
    decreases |targets|
  {
    if targets != [] {
      var front, last := targets[..|targets| - 1], targets[|targets| - 1];
      assert targets == front + [last] && last !in front && last in targets;
      EachTargetGains(f, from, front, data);
      assert Accepts(EnqueueAll(f, from, front, data), from, last);
    }
  }

  // No frame from the port would have to wait at any of these.
  predicate NoneBlocks(f: Fabric, from: int, ports: seq<int>) {
    forall p | p in ports :: !Blocks(f, from, p)
  }

  /** Up to the k-th port, in the order in which they were added, the ports that isolation lets the
      frame through to have it once more at the end of their queues; no other port has changed. */
  ghost predicate FloodedUpTo(f: Fabric, from: int, data: Bytes, k: nat, f': Fabric)
    requires k <= |f.order|
  {
    && f'.ports.Keys == f.ports.Keys
    && forall p | p in f.ports ::
         f'.ports[p] == if p in f.order[..k] && LetsThrough(f, from, p) then WithFrame(f.ports[p], from, data)
                        else f.ports[p]
  }

  lemma FloodsInOrder(f: Fabric, from: int, data: Bytes, k: nat, rest: seq<int>)
    requires Distinct(f.order) && (forall p | p in f.order :: p in f.ports) && k <= |f.order|
    requires NoneBlocks(f, from, f.order[..k])
    ensures var t := Task(from, data, AllowedFrom(f.groups, from, f.order[..k]) + rest, false);
            var (f', t') := Pump(f, Task(from, data, AllowedFrom(f.groups, from, f.order[..k]), false));
            && Pump(f, t) == Pump(f', t'.(targets := rest)) && FloodedUpTo(f, from, data, k, f')
            && f' == f.(ports := f'.ports, sent := f'.sent)
            && t' == Task(from, data, [], exists p | p in f.order[..k] :: LetsThrough(f, from, p))
  {
    var targets := AllowedFrom(f.groups, from, f.order[..k]);
    var t := Task(from, data, targets, false);
    AllowedIsDistinct(f.groups, from, f.order[..k]);
    UnblockedPump(f, t);
    PumpOfBoth(f, t, rest);
    EachTargetGains(f, from, targets, data);
    PumpKeepsTask(f, t);
  }

  lemma {:induction false} PumpKeepsTask(f: Fabric, t: Task)
    ensures Pump(f, t).1.from == t.from && Pump(f, t).1.data == t.data
    decreases |t.targets|
  {
    if t.targets != [] && !Blocks(f, t.from, t.targets[0]) {
      PumpKeepsTask(Enqueue(f, t.from, t.targets[0], t.data), NextTarget(f, t));
    }
  }

  /** A frame for an address that no port is known to have goes to every port that isolation lets it
      through to, once each, and to no other. It counts as delivered exactly when there is one. */
  lemma FrameForUnknownAddress(f: Fabric, from: int, data: Bytes)
    requires from in f.ports && DestinationOf(data) !in f.macTable
    requires Distinct(f.order) && (forall p :: p in f.order <==> p in f.ports) && NoneBlocks(f, from, f.order)
    ensures var (r, f') := SendOff(f, from, None, data);
            var any := exists p | p in f.ports :: LetsThrough(f, from, p);
            && FloodedUpTo(f, from, data, |f.order|, f') && r == Finished(any)
            && f' == f.(ports := f'.ports, sent := f'.sent, dropped := f.dropped + if any then 0 else 1)
  {
    var targets := AllowedFrom(f.groups, from, f.order);
    assert data[..|data|] == data;
    assert f.order[..|f.order|] == f.order && Targets(f, from, None, data) == targets;
    FloodsInOrder(f, from, data, |f.order|, []);
    assert targets + [] == targets;
  }

  /** It waits at the first port whose queue is full, and those after it do not have it yet. */
  lemma FrameForUnknownAddressWaits(f: Fabric, from: int, data: Bytes, k: nat)
    requires from in f.ports && DestinationOf(data) !in f.macTable
    requires Distinct(f.order) && (forall p :: p in f.order <==> p in f.ports)
    requires k < |f.order| && NoneBlocks(f, from, f.order[..k]) && Blocks(f, from, f.order[k])
    ensures var (r, f') := SendOff(f, from, None, data);
            && FloodedUpTo(f, from, data, k, f') && f' == f.(ports := f'.ports, sent := f'.sent)
            && r.Waiting? && r.task.from == from && r.task.data == data
            && r.task.targets != [] && r.task.targets[0] == f.order[k]
            && (forall p :: p in r.task.targets <==> p in f.order[k..] && LetsThrough(f, from, p))
            && (r.task.delivered <==> exists p | p in f.order[..k] :: LetsThrough(f, from, p))
  {
    var rest := AllowedFrom(f.groups, from, f.order[k..]);
    AllowedFromHead(f.groups, from, f.order, k);
    assert data[..|data|] == data;
    assert Targets(f, from, None, data) == AllowedFrom(f.groups, from, f.order[..k]) + rest;
    FloodsInOrder(f, from, data, k, rest);
    var (f', t') := Pump(f, Task(from, data, AllowedFrom(f.groups, from, f.order[..k]), false));
    StaysFull(f, from, data, k, f');
    assert Pump(f', t'.(targets := rest)) == (f', t'.(targets := rest));
  }

  lemma StaysFull(f: Fabric, from: int, data: Bytes, k: nat, f': Fabric)
    requires Distinct(f.order) && (forall p | p in f.order :: p in f.ports) && k < |f.order|
    requires Blocks(f, from, f.order[k]) && FloodedUpTo(f, from, data, k, f') && f'.groups == f.groups
    ensures Blocks(f', from, f.order[k])
  {
    assert f.order[k] !in f.order[..k];
  }

  lemma AllowedFromHead(groups: map<int, set<int>>, from: int, order: seq<int>, k: nat)
    requires k < |order| && CanForward(groups, from, order[k])
    ensures AllowedFrom(groups, from, order)
         == AllowedFrom(groups, from, order[..k]) + AllowedFrom(groups, from, order[k..])
    ensures AllowedFrom(groups, from, order[k..]) != [] && AllowedFrom(groups, from, order[k..])[0] == order[k]
  {
    assert order == order[..k] + order[k..] && order[k..] == [order[k]] + order[k + 1..];
    AllowedOfBoth(groups, from, order[..k], order[k..]);
    AllowedOfBoth(groups, from, [order[k]], order[k + 1..]);
    OneMoreAllowed(groups, from, [], order[k]);
    assert [] + [order[k]] == [order[k]];
  }

  // ----------------------------------------------------------------- interleaved runs

  // got records what each port's owner has received so far.
  datatype World = World(fabric: Fabric, tasks: seq<Task>, got: map<int, seq<Queued>>)

  datatype Move =
    | Attach(port: int, mac: Bytes)
    | Begin(from: int, to: Option<int>, data: Bytes)
    | Advance(i: nat)   // task i deals with its next target; impossible while that target's queue is full
    | Complete(i: nat)  // task i has no target left
    | Take(port: int)   // the owner of a port receives a frame

  predicate Can(w: World, m: Move) {
    match m
    case Attach(p, _) => p !in w.fabric.ports
    case Begin(_, _, _) => true
    case Advance(i) =>
      i < |w.tasks| && w.tasks[i].targets != [] && !Blocks(w.fabric, w.tasks[i].from, w.tasks[i].targets[0])
    case Complete(i) => i < |w.tasks| && w.tasks[i].targets == []
    case Take(p) => p in w.fabric.ports && w.fabric.ports[p].queue != []
  }

  function Do(w: World, m: Move): World
    requires Can(w, m)
  {
    match m
    case Attach(p, mac) => w.(fabric := WithPort(w.fabric, p, mac), got := w.got[p := []])
    case Begin(from, to, data) =>
      if from in w.fabric.ports
      then w.(tasks := w.tasks + [Task(from, data, Targets(w.fabric, from, to, data), false)])
      else w
    case Advance(i) =>
      var t := w.tasks[i];
      w.(fabric := Enqueue(w.fabric, t.from, t.targets[0], t.data), tasks := w.tasks[i := NextTarget(w.fabric, t)])
    case Complete(i) =>
      var f := w.fabric;
      w.(fabric := if w.tasks[i].delivered then f else f.(dropped := f.dropped + 1),
         tasks := w.tasks[..i] + w.tasks[i + 1..])
    case Take(p) =>
      var port := w.fabric.ports[p];
      w.(fabric := w.fabric.(ports := w.fabric.ports[p := port.(queue := port.queue[1..])]),
         got := w.got[p := (if p in w.got then w.got[p] else []) + [port.queue[0]]])
  }

  predicate CanDo(w: World, ms: seq<Move>)
    decreases |ms|, 0
  {
    ms == [] || (CanDo(w, ms[..|ms| - 1]) && Can(DoAll(w, ms[..|ms| - 1]), ms[|ms| - 1]))
  }

  function DoAll(w: World, ms: seq<Move>): World
    requires CanDo(w, ms)
    decreases |ms|, 1
  {
    if ms == [] then w else Do(DoAll(w, ms[..|ms| - 1]), ms[|ms| - 1])
  }

  lemma DoOneMore(w: World, ms: seq<Move>, m: Move)
    requires CanDo(w, ms) && Can(DoAll(w, ms), m)
    ensures CanDo(w, ms + [m]) && DoAll(w, ms + [m]) == Do(DoAll(w, ms), m)
  {
    assert (ms + [m])[..|ms|] == ms;
  }

  /** A send that runs until it ends or waits makes moves of the interleaved model: task i advances
      past the targets it can. */
  lemma {:induction false} PumpIsAdvancing(w: World, ms: seq<Move>, i: nat) returns (all: seq<Move>)
    requires CanDo(w, ms) && i < |DoAll(w, ms).tasks|
    ensures CanDo(w, all) && ms <= all
    ensures var w', (f, t) := DoAll(w, ms), Pump(DoAll(w, ms).fabric, DoAll(w, ms).tasks[i]);
            DoAll(w, all) == w'.(fabric := f, tasks := w'.tasks[i := t])
    decreases |DoAll(w, ms).tasks[i].targets|
  {
    var w', t := DoAll(w, ms), DoAll(w, ms).tasks[i];
    if t.targets == [] || Blocks(w'.fabric, t.from, t.targets[0]) {
      all := ms;
    } else {
      DoOneMore(w, ms, Advance(i));
      all := PumpIsAdvancing(w, ms + [Advance(i)], i);
    }
  }

  /** A whole send makes moves of the interleaved model: it begins, advances as far as it can, and, if
      no target is left, completes. */
  lemma SendIsMoves(w: World, ms: seq<Move>, from: int, to: Option<int>, data: Bytes) returns (all: seq<Move>)
    requires CanDo(w, ms) && from in DoAll(w, ms).fabric.ports
    ensures CanDo(w, all) && ms <= all
    ensures var w', (r, f) := DoAll(w, ms), SendOff(DoAll(w, ms).fabric, from, to, data);
            DoAll(w, all) == w'.(fabric := f, tasks := w'.tasks + if r.Waiting? then [r.task] else [])
  {
    var w' := DoAll(w, ms);
    var t := Task(from, data, Targets(w'.fabric, from, to, data), false);
    DoOneMore(w, ms, Begin(from, to, data));
    all := PumpIsAdvancing(w, ms + [Begin(from, to, data)], |w'.tasks|);
    var (f, t') := Pump(w'.fabric, t);
    assert (w'.tasks + [t])[|w'.tasks| := t'] == w'.tasks + [t'];
    if t'.targets == [] {
      DoOneMore(w, all, Complete(|w'.tasks|));
      LastRemoved(w'.tasks, t');
      all := all + [Complete(|w'.tasks|)];
    }
  }

  lemma LastRemoved(tasks: seq<Task>, t: Task)
    ensures (tasks + [t])[..|tasks|] + (tasks + [t])[|tasks| + 1..] == tasks
  {}

  // Everything ever queued at p, in order.
  function Delivered(w: World, p: int): seq<Queued>
    requires p in w.fabric.ports && p in w.got
  {
    w.got[p] + w.fabric.ports[p].queue
  }

  // Frames received so far or waiting, over the ports listed.
  function Count(ports: map<int, Port>, got: map<int, seq<Queued>>, order: seq<int>): nat {
    if order == [] then 0
    else
      var p := order[|order| - 1];
      Count(ports, got, order[..|order| - 1])
      + (if p in ports then |ports[p].queue| else 0) + (if p in got then |got[p]| else 0)
  }

  predicate Distinct(order: seq<int>) {
    forall i, j | 0 <= i < j < |order| :: order[i] != order[j]
  }

  /** The ports, their order, the MAC table and the records belong together. */
  ghost predicate Shaped(w: World) {
    var f := w.fabric;
    && Distinct(f.order) && (forall p :: p in f.order <==> p in f.ports) && w.got.Keys == f.ports.Keys
    && (forall m | m in f.macTable :: f.macTable[m] in f.ports)
  }

  /** Frames sit only where isolation lets them; queues are within their limit; the MAC table
      points at existing ports; and `sent` counts what was received or waits. */
  ghost predicate Sound(w: World) {
    var f := w.fabric;
    && Shaped(w)
    && (forall p | p in f.ports :: |f.ports[p].queue| <= QUEUE_LIMIT)
    && AllIsolated(f.groups, f.ports, w.got)
    && f.sent == Count(f.ports, w.got, f.order)
  }

  predicate Isolated(groups: map<int, set<int>>, p: int, q: seq<Queued>) {
    forall x | x in q :: CanForward(groups, x.origin, p)
  }

  lemma {:induction false} CountIgnoresOthers(ports: map<int, Port>, got: map<int, seq<Queued>>, order: seq<int>,
                                             ports': map<int, Port>, got': map<int, seq<Queued>>, p: int)
    requires p !in order
    requires forall x | x in order :: (x in ports <==> x in ports') && (x in ports ==> ports[x] == ports'[x])
    requires forall x | x in order :: (x in got <==> x in got') && (x in got ==> got[x] == got'[x])
    ensures Count(ports', got', order) == Count(ports, got, order)
    decreases |order|
  {
    if order != [] {
      CountIgnoresOthers(ports, got, order[..|order| - 1], ports', got', p);
    }
  }

  // Changing one port's queue and received frames changes the count by that port's share.
  lemma {:induction false} CountAfterChange(ports: map<int, Port>, got: map<int, seq<Queued>>, order: seq<int>,
                                           p: int, port: Port, g: seq<Queued>)
    requires Distinct(order) && p in order && p in ports && p in got
    ensures Count(ports[p := port], got[p := g], order) + |ports[p].queue| + |got[p]|
         == Count(ports, got, order) + |port.queue| + |g|
    decreases |order|
  {
    var n := |order| - 1;
    var front := order[..n];
    if order[n] == p {
      CountIgnoresOthers(ports, got, front, ports[p := port], got[p := g], p);
    } else {
      assert p in front;
      CountAfterChange(ports, got, front, p, port, g);
    }
  }

  lemma CountWithNewPort(w: World, p: int, mac: Bytes)
    requires p !in w.fabric.ports && p !in w.fabric.order
    ensures Count(w.fabric.ports[p := Port(mac, [])], w.got[p := []], w.fabric.order + [p])
         == Count(w.fabric.ports, w.got, w.fabric.order)
  {
    var order := w.fabric.order;
    assert (order + [p])[..|order|] == order;
    CountIgnoresOthers(w.fabric.ports, w.got, order, w.fabric.ports[p := Port(mac, [])], w.got[p := []], p);
  }

  lemma DistinctWithNew(order: seq<int>, p: int)
    requires Distinct(order) && p !in order
    ensures Distinct(order + [p])
    ensures forall x :: x in order + [p] <==> x in order || x == p
  {}

  predicate AllIsolated(groups: map<int, set<int>>, ports: map<int, Port>, got: map<int, seq<Queued>>)
    requires got.Keys == ports.Keys
  {
    forall p | p in ports :: Isolated(groups, p, ports[p].queue) && Isolated(groups, p, got[p])
  }

  lemma IsolatedWithNewPort(groups: map<int, set<int>>, ports: map<int, Port>, got: map<int, seq<Queued>>,
                            p: int, mac: Bytes)
    requires got.Keys == ports.Keys && AllIsolated(groups, ports, got)
    ensures AllIsolated(groups, ports[p := Port(mac, [])], got[p := []])
  {}

  lemma ShapedAfterAttach(w: World, p: int, mac: Bytes)
    requires Shaped(w) && Can(w, Attach(p, mac))
    ensures Shaped(Do(w, Attach(p, mac)))
  {
    DistinctWithNew(w.fabric.order, p);
  }

  lemma SoundAfterAttach(w: World, p: int, mac: Bytes)
    requires Sound(w) && Can(w, Attach(p, mac))
    ensures Sound(Do(w, Attach(p, mac)))
  {
    ShapedAfterAttach(w, p, mac);
    CountWithNewPort(w, p, mac);
    IsolatedWithNewPort(w.fabric.groups, w.fabric.ports, w.got, p, mac);
  }

  lemma SoundAfterAdvance(w: World, i: nat)
    requires Sound(w) && Can(w, Advance(i))
    ensures Sound(Do(w, Advance(i)))
  {
    var f, t := w.fabric, w.tasks[i];
    var to := t.targets[0];
    if Accepts(f, t.from, to) {
      var port := f.ports[to].(queue := f.ports[to].queue + [Queued(t.from, t.data)]);
      CountAfterChange(f.ports, w.got, f.order, to, port, w.got[to]);
      assert w.got[to := w.got[to]] == w.got;
    }
  }

  lemma SoundAfterTake(w: World, p: int)
    requires Sound(w) && Can(w, Take(p))
    ensures Sound(Do(w, Take(p)))
  {
    var f := w.fabric;
    var port := f.ports[p];
    assert forall x | x in port.queue[1..] :: x in port.queue;
    assert Isolated(f.groups, p, w.got[p] + [port.queue[0]]);
    CountAfterChange(f.ports, w.got, f.order, p, port.(queue := port.queue[1..]), w.got[p] + [port.queue[0]]);
  }

  lemma SoundAfter(w: World, m: Move)
    requires Sound(w) && Can(w, m)
    ensures Sound(Do(w, m))
  {
    match m
    case Attach(p, mac) => SoundAfterAttach(w, p, mac);
    case Begin(_, _, _) =>
    case Advance(i) => SoundAfterAdvance(w, i);
    case Complete(_) =>
    case Take(p) => SoundAfterTake(w, p);
  }

  /** An empty switch with its isolation groups set. */
  function Fresh(groups: map<int, set<int>>): World {
    World(Fabric(map[], [], map[], groups, 0, 0), [], map[])
  }

  /** Over every run with fixed groups and fresh port numbers, sends interleaved and blocked in
      any way, the switch stays sound. */
  lemma {:induction false} SwitchStaysSound(groups: map<int, set<int>>, ms: seq<Move>)
    requires CanDo(Fresh(groups), ms)
    ensures Sound(DoAll(Fresh(groups), ms)) && DoAll(Fresh(groups), ms).fabric.groups == groups
    decreases |ms|
  {
    if ms != [] {
      SwitchStaysSound(groups, ms[..|ms| - 1]);
      SoundAfter(DoAll(Fresh(groups), ms[..|ms| - 1]), ms[|ms| - 1]);
    }
  }

  /** With groups configured, every frame that waits at a port or was received there came from a
      different port of a group they share. */
  lemma FramesStayInTheirGroup(groups: map<int, set<int>>, ms: seq<Move>, p: int, x: Queued)
    requires CanDo(Fresh(groups), ms) && groups != map[]
    requires var w := DoAll(Fresh(groups), ms); p in w.fabric.ports && p in w.got && x in Delivered(w, p)
    ensures x.origin != p && ShareGroup(groups, x.origin, p)
  {
    SwitchStaysSound(groups, ms);
    var w := DoAll(Fresh(groups), ms);
    assert Isolated(groups, p, w.got[p]) && Isolated(groups, p, w.fabric.ports[p].queue);
  }

  lemma MoveIsFifo(w: World, m: Move, p: int)
    requires Sound(w) && Can(w, m) && p in w.fabric.ports
    ensures var w' := Do(w, m);
            p in w'.fabric.ports && p in w'.got && Delivered(w, p) <= Delivered(w', p) && w.got[p] <= w'.got[p]
  {
    if m.Take? && m.port == p {
      var q := w.fabric.ports[p].queue;
      assert w.got[p] + q == (w.got[p] + [q[0]]) + q[1..];
    } else if m.Advance? {
      var q, x := w.fabric.ports[p].queue, Queued(w.tasks[m.i].from, w.tasks[m.i].data);
      assert w.got[p] + (q + [x]) == (w.got[p] + q) + [x];
    }
  }

  /** FIFO: what was ever queued at a port only grows at its end, so frames are received in the
      order they were queued. */
  lemma {:induction false} PortsAreFifo(groups: map<int, set<int>>, ms: seq<Move>, k: nat, p: int)
    requires k <= |ms| && CanDo(Fresh(groups), ms)
    ensures CanDo(Fresh(groups), ms[..k])
    ensures var w, w' := DoAll(Fresh(groups), ms[..k]), DoAll(Fresh(groups), ms);
            p in w.fabric.ports ==>
              p in w.got && p in w'.fabric.ports && p in w'.got
              && Delivered(w, p) <= Delivered(w', p) && w.got[p] <= w'.got[p]
    decreases |ms|
  {
    if k == |ms| {
      assert ms[..k] == ms;
      SwitchStaysSound(groups, ms);
    } else {
      var front := ms[..|ms| - 1];
      PortsAreFifo(groups, front, k, p);
      assert front[..k] == ms[..k];
      SwitchStaysSound(groups, front);
      if p in DoAll(Fresh(groups), ms[..k]).fabric.ports {
        MoveIsFifo(DoAll(Fresh(groups), front), ms[|ms| - 1], p);
      }
    }
  }
}
