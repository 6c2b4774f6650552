// The control server's mapping service (src/nodes/control_server.py, the CS helpers of
// src/routing/mapping.py): one writer of the registry, every change fanned out to all
// managed routers.

module ControlService {
  import opened Wrappers
  import opened Addressing
  import opened Packets
  import opened MappingStore
  import opened Signaling
  import opened Forwarding

  datatype Registration = Registration(mappedRid: RID, remoteCrRid: RID, spaceId: int)

  type Registry = map<AID, Registration>

  // ------------------------------------------------------------ the service as functions

  // The router of an AP; an AP nobody configured stands for itself.
  function RouterOf(apToCr: map<RID, RID>, apRid: RID): RID {
    if apRid in apToCr then apToCr[apRid] else apRid
  }

  /** The AP is behind router cr, as configured or, for an AP nobody configured, as its own router. */
  predicate Belongs(apToCr: map<RID, RID>, apRid: RID, cr: RID) {
    if apRid in apToCr then apToCr[apRid] == cr else cr == apRid
  }

  /** The registry after a message. */
  function Record(reg: Registry, apToCr: map<RID, RID>, m: Signal): Registry {
    match m
    case MappingRegisterRequest(a, r, ap, sp) => reg[a := Registration(r, RouterOf(apToCr, ap), sp)]
    case MobilityAlert(a, _, r, cr, _) =>
      reg[a := Registration(r, cr, if a in reg then reg[a].spaceId else 0)]
    case _ => reg
  }

  /** The notification a message makes the server send to every managed router. */
  function NotificationFor(apToCr: map<RID, RID>, m: Signal): (u: Option<Signal>)
    ensures u.Some? <==> m.MappingRegisterRequest? || m.MobilityAlert?
    ensures u.Some? ==> u.value.MappingUpdateNotification?
  {
    match m
    case MappingRegisterRequest(a, r, ap, _) =>
      Some(MappingUpdateNotification(a, r, RouterOf(apToCr, ap), ap))
    case MobilityAlert(a, _, r, cr, _) =>
      Some(MappingUpdateNotification(a, r, cr, NO_RID))
    case _ => None
  }

  function Answer(reg: Registry, aid: AID): Signal {
    if aid in reg then MappingQueryResponse(aid, reg[aid].mappedRid, reg[aid].remoteCrRid, reg[aid].spaceId, true)
    else MappingQueryResponse(aid, NO_RID, NO_RID, 0, false)
  }

  function FanOut(managed: seq<RID>, u: Signal): (out: seq<(RID, Signal)>)
    ensures |out| == |managed|
    ensures forall i | 0 <= i < |managed| :: out[i] == (managed[i], u)
  {
    if managed == [] then []
    else FanOut(managed[..|managed| - 1], u) + [(managed[|managed| - 1], u)]
  }

  // What the server sends, as (target, message) pairs in order.
  function Replies(reg: Registry, managed: seq<RID>, apToCr: map<RID, RID>, m: Signal, sender: RID)
    : seq<(RID, Signal)>
  {
    if m.MappingQueryRequest? then [(sender, Answer(reg, m.aid))]
    else
      var u := NotificationFor(apToCr, m);
      if u.Some? then FanOut(managed, u.value) else []
  }

  /** What a packet makes of the registry, and of what the server sends. */
  function Received(c: TextCodec, managed: seq<RID>, apToCr: map<RID, RID>, reg: Registry, p: RidPdu)
    : (Registry, seq<(RID, Signal)>)
  {
    if !p.dataType.ControlSignaling? then (reg, [])
    else
      match DecodeSignal(c, p.payload)
      case None => (reg, [])
      case Some(m) => (Record(reg, apToCr, m), Replies(reg, managed, apToCr, m, p.src))
  }

  // ---------------------------------------------------------------------- the server

  class MappingRegistryEntry {
    const aid: AID
    var mappedRid: RID
    var remoteCrRid: RID
    var spaceId: int

    constructor (aid: AID, mappedRid: RID, remoteCrRid: RID, spaceId: int)
      ensures this.aid == aid && View() == Registration(mappedRid, remoteCrRid, spaceId)
    {
      this.aid := aid;
      this.mappedRid, this.remoteCrRid, this.spaceId := mappedRid, remoteCrRid, spaceId;
    }

    function View(): Registration
      reads this
    {
      Registration(mappedRid, remoteCrRid, spaceId)
    }
  }

  class ControlServer {
    var mappings: map<AID, MappingRegistryEntry>
    const managedCrs: seq<RID>      // dictionary keys in insertion order
    const apToCr: map<RID, RID>
    const rid: Option<RID>
    const interfaces: nat
    const codec: TextCodec
    var replies: seq<(RID, Signal)> // every call of the reply helper, in order
    var sent: seq<Emission>         // every frame handed to an interface, in order

    /** Every entry is filed under its own AID, and the frames sent are the copies of the replies. */
    ghost predicate Valid()
      reads this`mappings, this`replies, this`sent
    {
      (forall a | a in mappings :: mappings[a].aid == a) && sent == Outgoing(replies)
    }

    ghost function RegistryView(): Registry
      reads this`mappings, mappings.Values
    {
      map a | a in mappings :: mappings[a].View()
    }

    constructor (managedCrs: seq<RID>, apToCr: map<RID, RID>, rid: Option<RID>, interfaces: nat, codec: TextCodec)
      ensures Valid() && RegistryView() == map[] && replies == [] && sent == []
      ensures this.managedCrs == managedCrs && this.apToCr == apToCr
      ensures this.rid == rid && this.interfaces == interfaces && this.codec == codec
    {
      this.managedCrs, this.apToCr, this.rid, this.interfaces, this.codec := managedCrs, apToCr, rid, interfaces, codec;
      mappings, replies, sent := map[], [], [];
    }

    /** The user is recorded at the router of the AP, and every managed router is told so. */
    method HandleRegister(m: Signal)
      requires m.MappingRegisterRequest? && Valid()
      modifies this`mappings, this`replies, this`sent
      ensures Valid()
      ensures RegistryView() == Record(old(RegistryView()), apToCr, m)
      ensures replies == old(replies) + Replies(old(RegistryView()), managedCrs, apToCr, m, NO_RID)
      ensures var router := if m.apRid in apToCr then apToCr[m.apRid] else m.apRid;
              && RegistryView() == old(RegistryView())[m.aid := Registration(m.mappedRid, router, m.spaceId)]
              && |replies| == |old(replies)| + |managedCrs|
              && forall i | 0 <= i < |managedCrs| :: replies[|old(replies)| + i]
                   == (managedCrs[i], MappingUpdateNotification(m.aid, m.mappedRid, router, m.apRid))
    {
      var crRid := if m.apRid in apToCr then apToCr[m.apRid] else m.apRid;
      RegisterMapping(m.aid, m.mappedRid, crRid, m.spaceId);
      Propagate(MappingUpdateNotification(m.aid, m.mappedRid, crRid, m.apRid));
    }

    method RegisterMapping(aid: AID, mappedRid: RID, remoteCrRid: RID, spaceId: int)
      requires Valid()
      modifies this`mappings
      ensures Valid()
      ensures RegistryView() == old(RegistryView())[aid := Registration(mappedRid, remoteCrRid, spaceId)]
    {
      var e := new MappingRegistryEntry(aid, mappedRid, remoteCrRid, spaceId);
      mappings := mappings[aid := e];
      assert RegistryView() == old(RegistryView())[aid := Registration(mappedRid, remoteCrRid, spaceId)];
    }

    method MoveMapping(aid: AID, newRid: RID, newCrRid: RID)
      requires Valid()
      modifies this`mappings, mappings.Values
      ensures Valid()
      ensures RegistryView() == old(RegistryView())[aid := Registration(newRid, newCrRid,
                if aid in old(RegistryView()) then old(RegistryView())[aid].spaceId else 0)]
    {
      if aid in mappings {
        mappings[aid].mappedRid := newRid;
        mappings[aid].remoteCrRid := newCrRid;
        assert RegistryView()
            == old(RegistryView())[aid := Registration(newRid, newCrRid, old(RegistryView())[aid].spaceId)];
      } else {
        RegisterMapping(aid, newRid, newCrRid, 0);
      }
    }

    /** The user's pair is the alert's, its space what it was, or 0, and every managed router is told
        the pair but no AP. */
    method HandleMobility(m: Signal)
      requires m.MobilityAlert? && Valid()
      modifies this`mappings, this`replies, this`sent, mappings.Values
      ensures Valid()
      ensures RegistryView() == Record(old(RegistryView()), apToCr, m)
      ensures replies == old(replies) + Replies(old(RegistryView()), managedCrs, apToCr, m, NO_RID)
      ensures var a, spaceId := m.userAid,
                if m.userAid in old(RegistryView()) then old(RegistryView())[m.userAid].spaceId else 0;
              && RegistryView() == old(RegistryView())[a := Registration(m.newRid, m.newCrRid, spaceId)]
              && |replies| == |old(replies)| + |managedCrs|
              && forall i | 0 <= i < |managedCrs| :: replies[|old(replies)| + i]
                   == (managedCrs[i], MappingUpdateNotification(a, m.newRid, m.newCrRid, RID(0, 0)))
    {
      MoveMapping(m.userAid, m.newRid, m.newCrRid);
      Propagate(MappingUpdateNotification(m.userAid, m.newRid, m.newCrRid, NO_RID));
    }

    /** The sender is told what is recorded, or that nothing is. */
    method HandleQuery(m: Signal, sender: RID)
      requires m.MappingQueryRequest? && Valid()
      modifies this`replies, this`sent
      ensures Valid()
      ensures replies == old(replies) + Replies(RegistryView(), managedCrs, apToCr, m, sender)
      ensures m.aid in RegistryView() ==>
                var e := RegistryView()[m.aid];
                replies == old(replies)
                         + [(sender, MappingQueryResponse(m.aid, e.mappedRid, e.remoteCrRid, e.spaceId, true))]
      ensures m.aid !in RegistryView() ==>
                replies == old(replies) + [(sender, MappingQueryResponse(m.aid, RID(0, 0), RID(0, 0), 0, false))]
    {
      var answer := MappingQueryResponse(m.aid, NO_RID, NO_RID, 0, false);
      if m.aid in mappings {
        var e := mappings[m.aid];
        answer := MappingQueryResponse(e.aid, e.mappedRid, e.remoteCrRid, e.spaceId, true);
      }
      ReplyTo(sender, answer);
    }

    // The frames that go out for some replies.
    function Outgoing(out: seq<(RID, Signal)>): seq<Emission> {
      if out == [] then []
      else Outgoing(out[..|out| - 1]) + Copies(out[|out| - 1].0, out[|out| - 1].1, interfaces)
    }

    lemma OutgoingOneMore(out: seq<(RID, Signal)>, target: RID, m: Signal)
      ensures Outgoing(out + [(target, m)]) == Outgoing(out) + Copies(target, m, interfaces)
    {
      assert (out + [(target, m)])[..|out|] == out;
    }

    method Propagate(u: Signal)
      requires Valid()
      modifies this`replies, this`sent
      ensures Valid()
      ensures replies == old(replies) + FanOut(managedCrs, u)
    {
      for i := 0 to |managedCrs|
        invariant Valid()
        invariant replies == old(replies) + FanOut(managedCrs[..i], u)
      {
        assert managedCrs[..i + 1][..i] == managedCrs[..i];
        ReplyTo(managedCrs[i], u);
      }
      assert managedCrs[..|managedCrs|] == managedCrs;
    }

    method ReplyTo(target: RID, m: Signal)
      requires Valid()
      modifies this`replies, this`sent
      ensures Valid()
      ensures replies == old(replies) + [(target, m)]
    {
      replies := replies + [(target, m)];
      for i := 0 to interfaces
        invariant replies == old(replies) + [(target, m)]
        invariant sent == old(sent) + Copies(target, m, i)
      {
        var pkt := new RIDPacket(ControlPdu(target, m));
        if |pkt.payload| <= MAX_PAYLOAD {
          sent := sent + [Emission(i, BROADCAST, RidFrame(pkt.View()))];
        }
      }
      OutgoingOneMore(old(replies), target, m);
    }

    /** A broadcast frame on interface i: a control packet from the server to the target, with the
        message in it. */
    predicate IsCopy(e: Emission, i: int, target: RID, m: Signal) {
      && e.iface == i && e.dstMac == [0xFF, 0xFF, 0xFF, 0xFF, 0xFF, 0xFF] && e.frame.RidFrame?
      && var q := e.frame.rid;
         && q.dst == target && (rid == Some(q.src) || (rid.None? && q.src == RID(0, 0)))
         && q.payload == codec.dumps(JObj(ToDict(m))) && q.qos == 0 && q.spaceId == 0
         && q.dataType == ControlSignaling && q.ttl == 64
    }

    function ControlPdu(target: RID, m: Signal): RidPdu {
      RidPdu(if rid.Some? then rid.value else NO_RID, target, EncodeSignal(codec, m), 0, 0,
             ControlSignaling, DEFAULT_TTL)
    }

    function Copies(target: RID, m: Signal, n: nat): seq<Emission> {
      if n == 0 then []
      else Copies(target, m, n - 1) + OptionSeq(SendRid(n - 1, BROADCAST, ControlPdu(target, m)))
    }

    /** One copy of a message goes out on every interface, in order; none of one too long to pack. */
    lemma {:induction false} CopiesOnEveryInterface(target: RID, m: Signal, n: nat)
      ensures |EncodeSignal(codec, m)| > 65535 ==> Copies(target, m, n) == []
      ensures |EncodeSignal(codec, m)| <= 65535 ==> |Copies(target, m, n)| == n
      ensures forall i | 0 <= i < |Copies(target, m, n)| :: IsCopy(Copies(target, m, n)[i], i, target, m)
    {
      if n > 0 {
        CopiesOnEveryInterface(target, m, n - 1);
      }
    }

    /** Everything but control RID packets is ignored; only mapping messages are modelled. */
    method Receive(p: RidPdu)
      requires Valid()
      modifies this`mappings, this`replies, this`sent, mappings.Values
      ensures Valid()
      ensures var (reg, out) := Received(codec, managedCrs, apToCr, old(RegistryView()), p);
              RegistryView() == reg && replies == old(replies) + out
      ensures var m := if p.dataType == ControlSignaling then DecodeSignal(codec, p.payload) else None;
              if m.None? then RegistryView() == old(RegistryView()) && replies == old(replies)
              else RegistryView() == Record(old(RegistryView()), apToCr, m.value)
                   && replies == old(replies) + Replies(old(RegistryView()), managedCrs, apToCr, m.value, p.src)
    {
      if p.dataType != ControlSignaling {
        return;
      }
      match DecodeSignal(codec, p.payload)
      case None =>
      case Some(m) =>
        if m.MappingRegisterRequest? {
          HandleRegister(m);
        } else if m.MappingQueryRequest? {
          HandleQuery(m, p.src);
        } else if m.MobilityAlert? {
          HandleMobility(m);
        }
    }
  }
}
