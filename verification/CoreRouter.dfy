// The core router (src/nodes/core_router.py): handlers that decrement TTLs in place, search
// the tables, send frames and apply mapping updates. Each is proved to compute the
// corresponding function of Forwarding.dfy.

module CoreRouting {
  import opened Wrappers
  import opened Addressing
  import opened Packets
  import opened CrTables
  import opened RidRouting
  import opened MappingStore
  import opened Signaling
  import opened Forwarding
  import opened RouterRules

  class CoreRouter {
    const tables: CRTables
    const codec: TextCodec
    var myRid: Option<RID>
    var sent: seq<Emission>  // every frame handed to an interface, in order

    constructor (tables: CRTables, codec: TextCodec, myRid: Option<RID>)
      ensures this.tables == tables && this.codec == codec && this.myRid == myRid && sent == []
    {
      this.tables, this.codec, this.myRid, sent := tables, codec, myRid, [];
    }

    ghost function State(): Router
      reads this`myRid, tables, tables.remoteMappings.Values, tables.userStatuses.Values
    {
      Router(myRid, tables.Snapshot())
    }

    function SourceRid(): RID
      reads this`myRid
    {
      if myRid.Some? then myRid.value else NO_RID
    }

    // ------------------------------------------------------------- sending primitives

    // False stands for the exception that packing raises.
    method SendAidPacket(iface: int, pkt: AIDPacket, mac: Mac) returns (ok: bool)
      modifies this`sent
      ensures ok == SendAid(iface, mac, pkt.View()).Some?
      ensures sent == old(sent) + OptionSeq(SendAid(iface, mac, pkt.View()))
    {
      if |pkt.payload| > MAX_PAYLOAD {
        return false;
      }
      sent := sent + [Emission(iface, mac, AidFrame(pkt.View()))];
      return true;
    }

    method SendRidPacket(iface: int, pkt: RIDPacket, mac: Mac) returns (ok: bool)
      modifies this`sent
      ensures ok == SendRid(iface, mac, pkt.View()).Some?
      ensures sent == old(sent) + OptionSeq(SendRid(iface, mac, pkt.View()))
    {
      if |pkt.payload| > MAX_PAYLOAD {
        return false;
      }
      sent := sent + [Emission(iface, mac, RidFrame(pkt.View()))];
      return true;
    }

    // ------------------------------------------------------------- forwarding helpers

    method FindAccessNeighbor(aid: AID) returns (r: Option<AccessNeighbor>)
      ensures r == AccessNeighborOf(tables.accessNeighbors, aid)
    {
      for i := 0 to |tables.accessNeighbors|
        invariant AccessNeighborOf(tables.accessNeighbors, aid) == AccessNeighborOf(tables.accessNeighbors[i..], aid)
      {
        if tables.accessNeighbors[i].aid == aid {
          return Some(tables.accessNeighbors[i]);
        }
      }
      return None;
    }

    method ResolveApMac(ap: AID) returns (mac: Mac)
      ensures mac == ApMac(tables.Snapshot(), ap)
    {
      var nb := FindAccessNeighbor(ap);
      mac := if nb.Some? then nb.value.mac else BROADCAST;
    }

    method FindRouteNeighbor(rid: RID) returns (r: Option<RouteNeighbor>)
      ensures r == RouteNeighborOf(tables.routeNeighbors, rid)
    {
      for i := 0 to |tables.routeNeighbors|
        invariant RouteNeighborOf(tables.routeNeighbors, rid) == RouteNeighborOf(tables.routeNeighbors[i..], rid)
      {
        if tables.routeNeighbors[i].rid == rid {
          return Some(tables.routeNeighbors[i]);
        }
      }
      return None;
    }

    method ForwardRidTo(nextHop: RID, pkt: RIDPacket) returns (ok: bool)
      modifies this`sent
      ensures sent == old(sent) + OptionSeq(ForwardTo(tables.Snapshot(), nextHop, pkt.View()))
      ensures ok <==> RouteNeighborOf(tables.routeNeighbors, nextHop).Some? ==>
                        ForwardTo(tables.Snapshot(), nextHop, pkt.View()).Some?
    {
      var nb := FindRouteNeighbor(nextHop);
      if nb.None? {
        return true;
      }
      ok := SendRidPacket(nb.value.iface, pkt, nb.value.mac);
    }

    method ForwardRidDirect(pkt: RIDPacket) returns (forwarded: bool)
      modifies this`sent
      ensures sent == old(sent) + OptionSeq(ForwardTo(tables.Snapshot(), pkt.dstRid, pkt.View()))
      ensures forwarded <==> ForwardTo(tables.Snapshot(), pkt.dstRid, pkt.View()).Some?
    {
      var nb := FindRouteNeighbor(pkt.dstRid);
      if nb.None? {
        return false;
      }
      forwarded := SendRidPacket(nb.value.iface, pkt, nb.value.mac);
    }

    method FindApByRid(rid: RID) returns (r: Option<ApEntry>)
      ensures r == ApByRid(tables.associatedAps, rid)
    {
      for i := 0 to |tables.associatedAps|
        invariant ApByRid(tables.associatedAps, rid) == ApByRid(tables.associatedAps[i..], rid)
      {
        if tables.associatedAps[i].rid == rid {
          return Some(tables.associatedAps[i]);
        }
      }
      return None;
    }

    method DeliverToLocalAp(pkt: RIDPacket) returns (ghost o: Outcome)
      requires IsLocalRid(tables.Snapshot(), pkt.dstRid)
      modifies this`sent
      ensures o == DeliverToAp(tables.Snapshot(), pkt.View())
      ensures sent == old(sent) + Emissions(codec, State(), o)
    {
      var ap := FindApByRid(pkt.dstRid);
      var mac := ResolveApMac(ap.value.aid);
      o := Sends(ToAp, SendRid(ap.value.iface, mac, pkt.View()));
      var _ := SendRidPacket(ap.value.iface, pkt, mac);
    }

    method SendControlToCs(msg: Signal)
      modifies this`sent
      ensures sent == old(sent) + OptionSeq(ToControlServer(codec, State(), msg))
    {
      for i := 0 to |tables.routeNeighbors|
        invariant sent == old(sent)
        invariant ManagementNeighbor(tables.routeNeighbors) == ManagementNeighbor(tables.routeNeighbors[i..])
      {
        var nb := tables.routeNeighbors[i];
        if nb.spaceId == 0 {
          var pkt := new RIDPacket(
            RidPdu(SourceRid(), nb.rid, EncodeSignal(codec, msg), 0, 0, ControlSignaling, DEFAULT_TTL));
          var _ := SendRidPacket(nb.iface, pkt, nb.mac);
          return;
        }
      }
    }

    // ---------------------------------------------------------------------- AID packets

    method HandleAidPacket(pkt: AIDPacket) returns (ghost o: Outcome)
      requires tables.Valid()
      modifies this`sent, pkt`ttl
      ensures State() == old(State())
      ensures o == HandleAid(old(State()), old(pkt.View()))
      ensures sent == old(sent) + Emissions(codec, old(State()), o)
    {
      var alive := pkt.DecrementTtl();
      if !alive {
        return Ends(Expired);
      }
      assert State() == old(State());
      o := PlaceAidPacket(pkt);
    }

    method PlaceAidPacket(pkt: AIDPacket) returns (ghost o: Outcome)
      requires tables.Valid()
      modifies this`sent
      ensures o == PlaceAid(State(), pkt.View())
      ensures sent == old(sent) + Emissions(codec, State(), o)
    {
      var local := tables.LocalAid(pkt.dstAid);
      if local {
        o := DeliverToLocalUser(pkt);
      } else {
        o := EncapsulateAndSend(pkt);
      }
    }

    method DeliverToLocalUser(pkt: AIDPacket) returns (ghost o: Outcome)
      requires tables.Valid() && IsLocalAid(tables.Snapshot(), pkt.dstAid)
      modifies this`sent
      ensures o == DeliverLocally(tables.Snapshot(), pkt.View())
      ensures sent == old(sent) + OptionSeq(o.sent) && o.alert.None?
    {
      var nb := FindAccessNeighbor(pkt.dstAid);
      if nb.Some? {
        o := Sends(DirectNeighbor, SendAid(nb.value.iface, nb.value.mac, pkt.View()));
        var _ := SendAidPacket(nb.value.iface, pkt, nb.value.mac);
        return;
      }
      var apAid := tables.UserApAid(pkt.dstAid);
      var ap := tables.AssociatedAp(apAid.value);
      if ap.None? {
        return Ends(NoServingAp);
      }
      var mac := ResolveApMac(apAid.value);
      o := Sends(ServingAp, SendAid(ap.value.iface, mac, pkt.View()));
      var _ := SendAidPacket(ap.value.iface, pkt, mac);
    }

    method EncapsulateAndSend(pkt: AIDPacket) returns (ghost o: Outcome)
      requires tables.Valid()
      modifies this`sent
      ensures o == EncapsulateForCore(State(), pkt.View())
      ensures sent == old(sent) + Emissions(codec, State(), o)
    {
      var mapping := CrLookupAnyMapping(tables, pkt.dstAid);
      if mapping == null {
        return Ends(Unmapped);
      }
      o := WrapAndSend(pkt, mapping);
    }

    method WrapAndSend(pkt: AIDPacket, mapping: MappingEntry) returns (ghost o: Outcome)
      requires LookupAny(tables.localMappings, tables.RemoteView(), pkt.dstAid) == Some(mapping.View())
      modifies this`sent
      ensures o == EncapsulateForCore(State(), pkt.View())
      ensures sent == old(sent) + OptionSeq(o.sent)
    {
      var spaceId := ChooseSpace(mapping.spaceId);
      var bytes := AidSerialize(pkt.View());
      if bytes.None? {
        return Ends(Oversize);
      }
      var rid := new RIDPacket(
        RidPdu(SourceRid(), mapping.mappedRid, bytes.value, 0, spaceId, pkt.dataType, DEFAULT_TTL));
      EncapsulatesAs(State(), pkt.View(), mapping.View(), spaceId, rid.View());
      o := SendEncapsulated(rid);
    }

    method ChooseSpace(wanted: U16) returns (spaceId: U16)
      ensures spaceId == CoreSpace(tables.Snapshot(), wanted)
    {
      spaceId := wanted;
      if forall s | s in tables.ridSpaces :: s.spaceId != wanted {
        spaceId := if tables.ridSpaces != [] then tables.ridSpaces[0].spaceId else 0;
      }
    }

    method SendEncapsulated(pkt: RIDPacket) returns (ghost o: Outcome)
      modifies this`sent
      ensures o == SendIntoCore(tables.Snapshot(), pkt.View())
      ensures sent == old(sent) + OptionSeq(o.sent)
    {
      var hop := RidLookupNextHop(tables, pkt.dstRid, pkt.spaceId);
      o := SendIntoCore(tables.Snapshot(), pkt.View());
      if hop.Some? {
        var _ := ForwardRidTo(hop.value, pkt);
      }
    }

    // ---------------------------------------------------------------------- RID packets

    method HandleRidPacket(pkt: RIDPacket) returns (ghost o: Outcome)
      requires tables.Valid()
      modifies this`sent, pkt`ttl, tables, tables.remoteMappings.Values, tables.userStatuses.Values
      ensures tables.Valid()
      ensures o == HandleRid(codec, old(State()), old(pkt.View()))
      ensures sent == old(sent) + Emissions(codec, old(State()), o)
      ensures State() == After(old(State()), o)
    {
      var alive := pkt.DecrementTtl();
      if !alive {
        return Ends(Expired);
      }
      o := DispatchRidPacket(pkt);
    }

    /** The branches in their order. */
    method DispatchRidPacket(pkt: RIDPacket) returns (ghost o: Outcome)
      requires tables.Valid()
      modifies this`sent, tables, tables.remoteMappings.Values, tables.userStatuses.Values
      ensures tables.Valid()
      ensures o == Dispatch(codec, old(State()), pkt.View())
      ensures sent == old(sent) + Emissions(codec, old(State()), o)
      ensures State() == After(old(State()), o)
    {
      var toAp := tables.LocalRid(pkt.dstRid);
      assert toAp <==> IsLocalRid(tables.Snapshot(), pkt.dstRid);
      if toAp {
        o := DeliverToLocalAp(pkt);
        assert State() == old(State());
      } else {
        o := DispatchBeyondAps(pkt);
      }
    }

    method DispatchBeyondAps(pkt: RIDPacket) returns (ghost o: Outcome)
      requires tables.Valid() && !IsLocalRid(tables.Snapshot(), pkt.dstRid)
      modifies this`sent, tables, tables.remoteMappings.Values, tables.userStatuses.Values
      ensures tables.Valid()
      ensures o == Dispatch(codec, old(State()), pkt.View())
      ensures sent == old(sent) + Emissions(codec, old(State()), o)
      ensures State() == After(old(State()), o)
    {
      if myRid.Some? && pkt.dstRid == myRid.value {
        o := AcceptRidPacket(pkt);
      } else {
        o := PassRidPacketOn(pkt);
        assert State() == old(State());
      }
    }

    method AcceptRidPacket(pkt: RIDPacket) returns (ghost o: Outcome)
      requires tables.Valid()
      modifies this`sent, tables, tables.remoteMappings.Values, tables.userStatuses.Values
      ensures tables.Valid()
      ensures o == ForMe(codec, old(State()), pkt.View())
      ensures sent == old(sent) + Emissions(codec, old(State()), o)
      ensures State() == After(old(State()), o)
    {
      if pkt.dataType == ControlSignaling {
        o := HandleControlSignal(pkt);
      } else {
        o := DecapsulateAndForward(pkt);
        assert State() == old(State());
      }
    }

    /** The body of the second "is it for us or one of our APs" test cannot be reached. */
    method PassRidPacketOn(pkt: RIDPacket) returns (ghost o: Outcome)
      requires tables.Valid()
      requires !IsLocalRid(tables.Snapshot(), pkt.dstRid) && myRid != Some(pkt.dstRid)
      modifies this`sent
      ensures o == PassOn(State(), pkt.View())
      ensures sent == old(sent) + Emissions(codec, State(), o)
    {
      var space := tables.MatchingRidSpace(pkt.dstRid);
      if space.None? {
        o := RouteRidPacket(pkt);
        return;
      }
      var toAp := tables.LocalRid(pkt.dstRid);
      if (myRid.Some? && pkt.dstRid == myRid.value) || toAp {
        assert false;
      }
      if pkt.dataType == ControlSignaling {
        o := PassControlOn(pkt);
      } else {
        o := DecapsulateAndForward(pkt);
      }
    }

    method PassControlOn(pkt: RIDPacket) returns (ghost o: Outcome)
      modifies this`sent
      ensures var t, q := tables.Snapshot(), pkt.View();
              o == if NextHop(t.routes, q.dst, q.spaceId).Some? then RouteOn(t, q)
                   else Sends(DirectHop, ForwardTo(t, q.dst, q))
      ensures o.alert.None? && sent == old(sent) + OptionSeq(o.sent)
    {
      var hop := RidLookupNextHop(tables, pkt.dstRid, pkt.spaceId);
      if hop.Some? {
        o := RouteRidPacket(pkt);
      } else {
        o := Sends(DirectHop, ForwardTo(tables.Snapshot(), pkt.dstRid, pkt.View()));
        var _ := ForwardRidDirect(pkt);
      }
    }

    method RouteRidPacket(pkt: RIDPacket) returns (ghost o: Outcome)
      modifies this`sent
      ensures o == RouteOn(tables.Snapshot(), pkt.View())
      ensures sent == old(sent) + OptionSeq(o.sent)
    {
      var hop := RidLookupNextHop(tables, pkt.dstRid, pkt.spaceId);
      o := RouteOn(tables.Snapshot(), pkt.View());
      if hop.Some? {
        var _ := ForwardRidTo(hop.value, pkt);
      }
    }

    method DecapsulateAndForward(pkt: RIDPacket) returns (ghost o: Outcome)
      requires tables.Valid()
      modifies this`sent
      ensures o == Decapsulate(State(), pkt.View())
      ensures sent == old(sent) + Emissions(codec, State(), o)
    {
      var decoded := AidDeserialize(pkt.payload);
      if decoded.Err? {
        return Ends(Undecodable);
      }
      var inner := new AIDPacket(decoded.value);
      if inner.dstAid !in tables.userStatuses || tables.userStatuses[inner.dstAid].status == Offline {
        return Ends(UserOffline);
      }
      var user := tables.userStatuses[inner.dstAid];
      if user.status == MovedAway {
        o := RedirectMoved(inner);
        return;
      }
      var ap := tables.AssociatedAp(user.apAid);
      if ap.None? {
        return Ends(NoServingAp);
      }
      var mac := ResolveApMac(ap.value.aid);
      o := Sends(Delivered, SendAid(ap.value.iface, mac, inner.View()));
      var _ := SendAidPacket(ap.value.iface, inner, mac);
    }

    method RedirectMoved(inner: AIDPacket) returns (ghost o: Outcome)
      requires tables.Valid()
      modifies this`sent
      ensures o == Redirect(State(), inner.View())
      ensures sent == old(sent) + Emissions(codec, State(), o)
    {
      var mapping := CrLookupAnyMapping(tables, inner.dstAid);
      if mapping == null {
        return Ends(MovedUnmapped);
      }
      var bytes := AidSerialize(inner.View());
      if bytes.None? {
        return Ends(Oversize);
      }
      var pkt := new RIDPacket(
        RidPdu(SourceRid(), mapping.remoteCrRid, bytes.value, 0, mapping.spaceId, inner.dataType, DEFAULT_TTL));
      o := SendRedirect(pkt, inner.dstAid, mapping);
    }

    method SendRedirect(pkt: RIDPacket, userAid: AID, mapping: MappingEntry) returns (ghost o: Outcome)
      modifies this`sent
      ensures o == RedirectVia(State(), pkt.View(), userAid, mapping.View())
      ensures sent == old(sent) + Emissions(codec, State(), o)
    {
      var hop := RidLookupNextHop(tables, mapping.remoteCrRid, mapping.spaceId);
      o := RedirectVia(State(), pkt.View(), userAid, mapping.View());
      if hop.Some? {
        var ok := ForwardRidTo(hop.value, pkt);
        if !ok {
          return;
        }
      }
      var alert := MobilityAlert(userAid, SourceRid(), mapping.mappedRid, mapping.remoteCrRid, "mobility_handover");
      assert o.alert == Some(alert);
      SendControlToCs(alert);
    }

    // ------------------------------------------------------------------ control signals

    method HandleControlSignal(pkt: RIDPacket) returns (ghost o: Outcome)
      requires tables.Valid()
      modifies tables, tables.remoteMappings.Values, tables.userStatuses.Values
      ensures tables.Valid()
      ensures o == Outcome(Control, None, None, UpdateIn(codec, pkt.payload))
      ensures State() == After(old(State()), o)
    {
      var msg := DecodeSignal(codec, pkt.payload);
      o := Outcome(Control, None, None, UpdateIn(codec, pkt.payload));
      if msg.Some? && msg.value.MappingUpdateNotification? {
        ApplyUpdate(msg.value);
      }
    }

    method ApplyUpdate(u: Signal)
      requires u.MappingUpdateNotification?
      requires tables.Valid()
      modifies tables, tables.remoteMappings.Values
      ensures tables.Valid()
      ensures State() == Learn(old(State()), u)
    {
      RecordMapping(u.aid, u.newMappedRid, u.newCrRid);
      if myRid == Some(u.newCrRid) {
        MarkOnline(u.aid, u.apRid);
      }
    }

    method RecordMapping(aid: AID, newMappedRid: RID, newCrRid: RID)
      requires tables.Valid()
      modifies tables`remoteMappings, tables.remoteMappings.Values
      ensures tables.Valid()
      ensures tables.Snapshot()
           == old(tables.Snapshot()).(remote := UpdateRemote(old(tables.RemoteView()), aid, newMappedRid, newCrRid))
    {
      CrUpdateMapping(tables, aid, newMappedRid, newCrRid);
    }

    method MarkOnline(aid: AID, apRid: RID)
      requires tables.Valid()
      modifies tables`userStatuses
      ensures tables.Valid()
      ensures tables.Snapshot()
           == WithUser(old(tables.Snapshot()), aid, UserState(ApFor(tables.associatedAps, apRid), Online, ""))
    {
      ghost var before := tables.Snapshot();
      tables.SetUserStatus(aid, AID(0), Online, "");
      var ap := FindApByRid(apRid);
      if ap.Some? {
        tables.SetServingAp(aid, ap.value.aid);
        LastStateCounts(before, aid, UserState(AID(0), Online, ""), UserState(ap.value.aid, Online, ""));
      }
    }

    // -------------------------------------------------------------------------- on_frame

    method ReceiveFrame(f: EthernetFrame) returns (ghost o: Outcome)
      requires tables.Valid()
      modifies this`sent, tables, tables.remoteMappings.Values, tables.userStatuses.Values
      ensures tables.Valid()
      ensures o == OnFrame(codec, old(State()), f)
      ensures sent == old(sent) + Emissions(codec, old(State()), o)
      ensures State() == After(old(State()), o)
      ensures exists es :: sent == old(sent) + es && SendsExactly(codec, old(State()), f, es)
      ensures Becomes(codec, old(State()), f, State())
    {
      FramesAreHandledByTheRules(codec, State(), f);
      FramesAreLearnedByTheRules(codec, State(), f);
      if f.etherType == ETHERTYPE_AID {
        o := ReceiveAid(f);
      } else if f.etherType == ETHERTYPE_RID {
        o := ReceiveRid(f);
      } else {
        o := Ends(Malformed);
      }
    }

    method ReceiveAid(f: EthernetFrame) returns (ghost o: Outcome)
      requires tables.Valid() && f.etherType == ETHERTYPE_AID
      modifies this`sent
      ensures State() == old(State()) && o.learned.None?
      ensures o == OnFrame(codec, old(State()), f)
      ensures sent == old(sent) + Emissions(codec, old(State()), o)
    {
      o := Ends(Malformed);
      var decoded := AidDeserialize(f.payload);
      if decoded.Ok? {
        var pkt := new AIDPacket(decoded.value);
        o := HandleAidPacket(pkt);
      }
    }

    method ReceiveRid(f: EthernetFrame) returns (ghost o: Outcome)
      requires tables.Valid() && f.etherType == ETHERTYPE_RID
      modifies this`sent, tables, tables.remoteMappings.Values, tables.userStatuses.Values
      ensures tables.Valid()
      ensures o == OnFrame(codec, old(State()), f)
      ensures sent == old(sent) + Emissions(codec, old(State()), o)
      ensures State() == After(old(State()), o)
    {
      o := Ends(Malformed);
      var decoded := RidDeserialize(f.payload);
      if decoded.Ok? {
        var pkt := new RIDPacket(decoded.value);
        o := HandleRidPacket(pkt);
      }
    }
  }
}
