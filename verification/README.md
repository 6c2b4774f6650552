# Verified model of the identifier-network simulator

The simulator separates who a user is (AID, 128 bits) from where the user is (RID, two 32-bit
coordinates). Access points speak AID packets to users and routers; core routers (CRs) wrap AID
packets in RID packets, route them by two-dimensional prefixes and unwrap them again; one control
server (CS) keeps the AID to RID registry and notifies the routers of changes. This Dafny project
models the routing, the packet formats, the router's forwarding, the mapping control plane, the
access point's bridge and the switch, and proves what they guarantee over all inputs and all runs.

Check it with `dafny verify dfyconfig.toml`.

## How the model is built

- What the source computes with mutable objects is a class whose methods follow the source's
  branches and loops (`CRTables`, `CoreRouter`, `ControlServer`, `AccessPoint`, `VirtualSwitch`,
  `AIDPacket`, `RIDPacket`, and the mapping and status entries updated in place). Each method is
  proved equal to a function on values; the theorems are about those functions.
- `Forwarding.dfy` is the router's decision as a function; all network models run that function.
  `RouterRules.dfy` says independently, from the tables alone, what leaves a router, what alerts it
  raises and what it learns, and proves that the function does exactly this. Routes and neighbours in
  the hypotheses of the network theorems are stated by these rules.
- `Deployment.dfy` has the tables of `config/cr1.yaml` and `config/cr2.yaml`.
- `Replication.dfy` is the control plane as a state machine, with atomic handlers and one FIFO
  channel from the CS to each managed CR; `Redirection.dfy` adds the alerts that redirects cause;
  `Registrations.dfy` asks whether what the CS has recorded stands; `Reachability.dfy` joins control
  plane and data plane.
- `Delivery.dfy`, `Referrals.dfy` and the second half of `Lifetimes.dfy` follow one packet through a
  fixed network (`Net`): only routers, tables that do not change, one frame at a time.
  `Termination.dfy` and the first half of `Lifetimes.dfy` have all kinds of nodes, and tables that
  change between steps.
- Parameters: the JSON text layer (`TextCodec`; a lemma that needs the text of one message to parse
  back to that message says so), the wiring of interfaces, and everything the environment does
  (injected packets, statuses set from outside, tables that change between steps).
- Payloads are bytes. A packet that another packet carries is really serialised and parsed.
- Interpreter exceptions on a frame (a packet that does not parse, a payload too long to pack) end
  the handling of that frame, as the receive loop does.

## Findings proved here

- A redirect resets the outer TTL and leaves the AID TTL alone, so two routers that each hold a user
  as moved to the other pass a packet on for ever (`MutualReferralNeverEnds`, concretely
  `AnEndlessPacket`). Among routers whose tables do not change, a packet is endless exactly when
  some router redirects it twice with the same AID TTL, and exactly when it is still going after a
  number of steps known beforehand from its TTLs and the number of routers
  (`EndlessExactlyWhenARedirectRepeats`). On the tables: if each router of a group that holds the
  user as moved has a road of at most 63 hops to the router its mapping names, the packet is endless
  exactly when following those mappings meets as many moved routers in a row as the group has
  routers (`EndlessExactlyWhenReferralsGoOn`). Where a CS hears the alerts, a referral lasts until the
  router it names has taken the notification (`ReferralEndsOnceHeard`). In any network, handling is bounded but for redirects
  and hops between access points (`HandlingIsBounded`).
- The notification that follows a mobility alert carries AP RID (0, 0). Once it reaches the serving
  router, that router takes the user's AP to be the first with RID (0, 0), or else the one with AID
  0 (`ServedExactlyByTheNamedAp`). So redirects leave a user at the AP it registered at exactly when
  that is this AP (`RedirectsKeepTheApExactlyWhenUnnamed`), and if the router has no such AP it drops
  every packet that it decapsulates for the user (`RedirectEndsInABlackHole`).
- An alert writes into the registry the mapping by which the router redirected, whatever has been
  recorded since. What is recorded for a user stands in every run of redirects, alerts and
  notifications exactly when no message on its way to the CS records another pair and no router that
  holds the user as moved, now or after notifications it has yet to take, redirects it by a mapping
  that names another (`RecordStandsExactlyWhenNothingOverturns`). A registration made in a settled
  state stands exactly when no router held the user as moved over another mapping at that moment
  (`RegistrationStandsExactlyWhenNobodyDisagrees`). It is undone by a router that is told of the move
  before it hears of the registration (`EarlyRedirectUndoesRegistration`), and by an alert, harmless
  when it was sent, that it overtakes (`OvertakenAlertUndoesRegistration`).
- A local mapping comes before the replica and names router (0, 0). So a router that holds a user as
  moved and still has a local mapping for it, as lines 90 and 303 of `scripts/simulation.py` leave
  CR-1, redirects the user's packets to (0, 0) and makes the CS record that
  (`SettledAlertIsHarmlessExactlyWithoutLocalMapping`; with the configured values,
  `LocalMappingLeftBehind`). Redirects are a fixed point exactly when no router does so
  (`FixpointExactlyWhenUnshadowed`); the theorems on redirects carry that hypothesis.
- A router marks a user online when an update names it, and nothing marks a user as gone: without
  statuses set from outside, a router has a user online exactly when it had it from the start or
  was once told to serve it (`OnlineExactlyWhenTold`), wherever the user has registered since.
- A router whose own RID is also the RID of one of its APs, as in `config/cr1.yaml`, never sees its
  control messages (`ControlPacketIsHeard`).
- The access point never touches the TTL, so two access points that are each other's uplink bounce
  a frame for ever (`LinkedAccessPointsBounceForever`). On links that can be used both ways, redirects
  alone bound every run exactly when no link joins two access points
  (`BoundedExactlyWhenNoApToAp`).
- `rid_lookup` ranks entries by the product of their mask lengths, not by the lengths of the
  prefixes actually shared with the destination, and there is no default gateway, although the
  module's description mentions both. The model follows the code.
- The body of the second "addressed to us" test of the RID handler is unreachable; `PassRidPacketOn`
  proves it.

## Model

| member | source | states |
|---|---|---|
| Addressing.PrefixCountIsShiftTest | src/common/addressing.py:128-135 | for all 32-bit a, b and all mask lengths, counting the shared leading bits by xor and bit length and comparing after a shift are the same test |
| Addressing.ScanFilterIsContains | src/routing/rid_routing.py:45-51 | the route scan keeps an entry exactly when the destination is in its block as `contains` says |
| Addressing.PrefixIsUltrametric | src/common/addressing.py:128-135 | of the three prefix lengths among three coordinates the two smallest are equal |
| Addressing.AxisBlocksNestOrAreDisjoint | src/common/addressing.py:176-186 | two prefix blocks on one axis are nested or disjoint |
| Addressing.InsideLengthensMasks | src/common/addressing.py:176-186 | if one block's set of RIDs lies in another's, both its masks are at least as long |
| Addressing.LongerMasksLieInside | src/common/addressing.py:176-186 | of two blocks with a common RID, the one with the longer masks lies inside the other |
| Addressing.BlockIsARectangle | src/common/addressing.py:176-186 | a block is exactly the RIDs whose coordinates have the same quotients by 2^(32 - m) as the base, m being the mask of the axis |
| Addressing.RID.AsInt | src/common/addressing.py:94-105 | `from_int` undoes `as_int` |
| RidRouting.RidLookup | src/routing/rid_routing.py:24-65 | the scan with its three running bests returns the entry the specification names, on every table |
| RidRouting.LookupIsFirstBest | src/routing/rid_routing.py:34-65 | the result is none exactly when no entry of the space covers the destination, else the first entry in table order that is maximal under (M1 x M2, M1, M2) |
| RidRouting.FirstBestIsLookup | src/routing/rid_routing.py:34-65 | conversely, an entry that is first and maximal among the covering ones is the result |
| RidRouting.RidLookupNextHop | src/routing/rid_routing.py:68-75 | the next hop is the one written in the first best entry, and none exactly when no entry of the space covers the destination |
| RidRouting.NextHopIsOfTheFirstBest | src/routing/rid_routing.py:68-75 | the same for the function that the network theorems use |
| RidRouting.FirstBestIsChosen | src/routing/rid_routing.py:44-63 | the filters and comparisons choose, among the entries with the destination in their block, by decreasing mask product, X mask, Y mask, then by position |
| RidRouting.LookupIgnoresOrder | src/routing/rid_routing.py:39-65 | if no two entries of the space denote one block, every permutation of the table gives the same entry |
| RidRouting.AddedEntryWinsOrChangesNothing | src/routing/rid_routing.py:78-91 | adding an entry changes the answer only to that entry, and the answer never gets worse |
| RidRouting.RemovingALoserChangesNothing | src/routing/rid_routing.py:94-106 | removing any entry but the winner leaves the answer as it was |
| RidRouting.RidRouteRemove | src/routing/rid_routing.py:94-106 | the first matching entry goes, all others stay in order; the result says whether there was one |
| RidRouting.WinnerIsMostSpecific | src/routing/rid_routing.py:53-63 | no covering entry's set of RIDs lies strictly inside the winner's, zero-length prefixes included |
| RidRouting.YTieBreakNeedsEmptyX | src/routing/rid_routing.py:56-59 | the tie-break on the Y mask can decide only when the X mask is 0 |
| MappingStore.CrLookupAnyMapping | src/routing/mapping.py:33-39 | local mappings come first and name router (0, 0); a remote answer is the stored entry itself |
| MappingStore.CrUpdateMapping | src/routing/mapping.py:56-64 | an update in place changes no other AID's view, keeps every entry object and the space, and creates a missing entry in space 100 |
| MappingStore.CrRemoveMapping | src/routing/mapping.py:67-69 | both mappings of the AID go and nothing else changes |
| MappingStore.RunOps | src/routing/mapping.py:33-69 | any sequence of calls on the entry objects reaches the state the value model predicts |
| MappingStore.LookupFollowsHistory | src/routing/mapping.py:33-69 | after any sequence of calls the lookup answers what scanning the history backwards to the last removal says |
| Packets.AidRoundTrip | src/common/packets.py:43-94 | an AID packet that serialises decodes to itself, whatever bytes follow |
| Packets.AidReserialises | src/common/packets.py:58-94 | an accepted AID buffer serialises back to itself, its two reserved bytes zeroed, exactly when it has the length it declares |
| Packets.RidRoundTrip | src/common/packets.py:142-194 | a RID packet that serialises decodes to itself, whatever bytes follow |
| Packets.RidReserialises | src/common/packets.py:157-194 | an accepted RID buffer serialises back to itself exactly when it has the length it declares |
| Packets.AidWireFormat | src/common/packets.py:43-56 | the bytes of an AID packet: 0x18, QoS, two zeros, length, data type, TTL, two AIDs of 16 bytes, payload, numbers most significant byte first |
| Packets.RidWireFormat | src/common/packets.py:142-155 | the bytes of a RID packet: 0x14, QoS, space, length, data type, TTL, two RIDs of 8 bytes, x before y, payload |
| Packets.EthWireFormat | src/common/ethernet.py:37-38 | the bytes of a frame: destination MAC, source MAC, type, payload; the types of AID and RID packets |
| Packets.EthReserialises | src/common/ethernet.py:40-43 | any 14 bytes are a frame, and serialise back to themselves |
| Packets.AidAccepted | src/common/packets.py:58-94 | a buffer is accepted exactly with 40 bytes, first byte 0x18 and data type 0 or 1; where each field is read; which error comes first otherwise |
| Packets.RidAccepted | src/common/packets.py:157-194 | the same for RID packets: 24 bytes and 0x14 |
| Packets.EthRoundTrip | src/common/ethernet.py:37-43 | a frame decodes to itself with the padding appended to its payload |
| Packets.ThreeLayerRoundTrip | src/common/ethernet.py:37-71 | an AID packet can be framed inside a RID packet exactly when its payload has at most 65495 bytes, and then all three layers come back under any padding |
| Packets.AIDPacket.DecrementTtl | src/common/packets.py:106-111 | the packet survives exactly with TTL above 1, loses one, and changes in nothing else |
| Packets.RIDPacket.DecrementTtl | src/common/packets.py:206-211 | the same for RID packets |
| Signaling.AidJsonRoundTrip | src/common/addressing.py:43-59 | an AID becomes exactly 32 hex digits and comes back |
| Signaling.HexDigits | src/common/addressing.py:58-59 | digit i of the text is the digit of the number at that place, to base 16, in lower case |
| Signaling.KeyTextIsInjective | src/control_plane/signaling.py:84-92 | the field names of the messages are different strings, and different from all other keys |
| Signaling.DictRoundTrip | src/control_plane/signaling.py:75-353 | for each of the nine message classes `from_dict` undoes `to_dict` on every field value |
| Signaling.DictionaryOf | src/control_plane/signaling.py:75-345 | what the object of each message says under each name: type code, AIDs as 32 hex digits, RIDs as pairs |
| Signaling.SignalRoundTrip | src/control_plane/signaling.py:360-385 | decoding an encoded message gives an equal message of the same type, whenever the text of its dictionary parses back to that dictionary |
| CrTables.CRTables.MatchingRidSpace | src/tables/cr_tables.py:160-165 | the first space, in insertion order, that covers the RID |
| CrTables.CoveringSpaceIsFirst | src/tables/cr_tables.py:160-165 | it has the RID in its block and no space before it does |
| CrTables.CRTables.LocalRid | src/tables/cr_tables.py:167-172 | true exactly when some associated AP has the RID |
| CrTables.CRTables.EntriesNeverAlias | src/routing/mapping.py:48-64 | two AIDs never share a mapping entry or a status entry |
| CrTables.CRTables.SetUserStatus | src/nodes/core_router.py:126-131 | a fresh entry for this user, every other user's entry object kept |
| CrTables.CRTables.AddAssociatedAp | src/nodes/core_router.py:121-124 | looking the AP up finds the new entry, looking up any other finds what it found before; a known AP keeps its place in the order in which the router looks through them, a new one comes last |
| Forwarding.HandlingFollows | src/nodes/core_router.py:149-408 | what a router sends on is the AID packet with one TTL less, as it is or wrapped; the RID packet with one TTL less; or the packet inside it, unwrapped or, if redirected, wrapped afresh |
| Forwarding.WireIsTransparent | src/nodes/core_router.py:137-143 | handling the bytes of an emitted frame, padding included, is handling the packet that was sent |
| CoreRouting.CoreRouter.HandleAidPacket | src/nodes/core_router.py:149-216 | the AID branches produce exactly one outcome of the decision function and its frames |
| CoreRouting.CoreRouter.HandleRidPacket | src/nodes/core_router.py:222-300 | the RID branches produce exactly one outcome, its frames and its table changes, and leave the tables valid |
| CoreRouting.CoreRouter.PassRidPacketOn | src/nodes/core_router.py:250-300 | the branches for packets that are neither ours nor an AP's; the second test for that is never true |
| CoreRouting.CoreRouter.ForwardRidTo | src/nodes/core_router.py:306-320 | the frame goes to the first route neighbour with the next hop's RID |
| CoreRouting.CoreRouter.ForwardRidDirect | src/nodes/core_router.py:322-335 | the frame goes to the first route neighbour with the destination's RID, and the result says whether it did |
| CoreRouting.CoreRouter.DeliverToLocalAp | src/nodes/core_router.py:344-351 | the frame goes to the first associated AP with the destination's RID |
| CoreRouting.CoreRouter.DecapsulateAndForward | src/nodes/core_router.py:353-408 | offline, moved and online users are told apart as the decision function says |
| CoreRouting.CoreRouter.RedirectMoved | src/nodes/core_router.py:371-398 | one packet towards the mapped router and one alert, neither if packing raises |
| CoreRouting.CoreRouter.HandleControlSignal | src/nodes/core_router.py:414-438 | only mapping updates have an effect, and it is that of the learning function |
| CoreRouting.CoreRouter.SendControlToCs | src/nodes/core_router.py:440-463 | the message goes out as `ToControlServer` says, for which see `MessagesLeaveForTheControlServer` |
| CoreRouting.CoreRouter.ReceiveFrame | src/nodes/core_router.py:137-143 | on any bytes the router sends exactly the packet and the alert that the rules of `RouterRules` name, and its tables become exactly what they say |
| RouterRules.AidPacketsLeaveByTheRules | src/nodes/core_router.py:149-216 | an AID packet with TTL 2 or more leaves, with one less, exactly on these terms: for a user online here, to the first access neighbour with its AID, else to the MAC and interface of its AP; for others, wrapped for the mapped RID, local mappings first, to the first neighbour with the next hop's RID |
| RouterRules.EncapsulatedInTheMappingsSpace | src/nodes/core_router.py:187-198 | it is wrapped in the mapping's space if the router has a space of that id, else in its first space, and in 0 if it has none |
| RouterRules.RidPacketsLeaveByTheRules | src/nodes/core_router.py:222-408 | a RID packet leaves exactly on these terms: to the first AP with its RID; if it is user data for the router's RID or its spaces, unwrapped to the AP of an online user or wrapped afresh towards the router the mapping of a moved user names; else along the route, or, as control without a route into a covered block, straight to a neighbour |
| RouterRules.AlertsAreRaisedByTheRules | src/nodes/core_router.py:371-398 | an alert arises exactly when the packet of a moved user with a mapping is unwrapped, and it names that mapping and this router, unless the packet is too long for the neighbour it should go to |
| RouterRules.MessagesLeaveForTheControlServer | src/nodes/core_router.py:440-463 | it leaves exactly as a control packet for the first neighbour in space 0, on its interface and to its MAC, and decodes to the same message |
| RouterRules.UpdatesAreLearnedByTheRules | src/nodes/core_router.py:235-248 | an update is learned exactly from a control packet for the router's own RID, if no AP has it |
| RouterRules.UpdatesAreRecorded | src/nodes/core_router.py:414-438 | learning records the pair, in the space it had or 100, marks the user online at the first AP with the AP RID, or AID 0, if the update names this router, and changes nothing else |
| RouterRules.FramesAreHandledByTheRules | src/nodes/core_router.py:137-143 | the packet leaves before the alert, each at most once, and bytes that hold no packet send nothing |
| RouterRules.FramesAreLearnedByTheRules | src/nodes/core_router.py:137-143 | the tables change by what is learned and by nothing else |
| ControlService.ControlServer.HandleRegister | src/nodes/control_server.py:138-150 | the user is recorded at the configured router of the AP, or at the AP's own RID if none is configured, no other entry changes, and every managed router is sent that pair with the AP's RID, in order |
| ControlService.ControlServer.HandleMobility | src/nodes/control_server.py:175-194 | the entry takes the alert's pair and keeps its space, 0 if it is new, no other entry changes, and every managed router is sent the pair with AP RID (0, 0), in order |
| ControlService.ControlServer.HandleQuery | src/nodes/control_server.py:152-169 | the sender, and nobody else, gets the recorded pair and space, or the not-found answer |
| ControlService.ControlServer.ReplyTo | src/nodes/control_server.py:200-213 | the reply is sent, and all frames sent so far are the copies of the replies so far |
| ControlService.ControlServer.CopiesOnEveryInterface | src/nodes/control_server.py:200-213 | a reply leaves as one broadcast control packet from the server to the target on each interface, in order, with the message in it |
| ControlService.ControlServer.Receive | src/nodes/control_server.py:84-104 | a packet makes of registry and replies what `Received` says, which the network models use |
| Replication.ControlPacketIsHeard | src/nodes/core_router.py:235-248 | a control packet for the router is handled, with the effect the protocol model gives it, exactly when no associated AP has the router's own RID |
| Replication.CopyIsHeard | src/nodes/control_server.py:200-213 | each frame of a reply to a router has at that router the effect the protocol model gives the message |
| Replication.ReplicationInvariant | src/nodes/control_server.py:138-194 | in every reachable state of every run, replaying a router's channel over its mappings gives the registry's pair for every registered AID |
| Replication.DrainedRoutersAgree | src/routing/mapping.py:56-64 | routers with empty channels agree with the control server and with each other |
| Replication.ServingInvariant | src/nodes/core_router.py:422-437 | in every run that leaves serving routers alone, the router the registry names holds the state of the latest notification or still has it as its last pending one |
| Replication.ServingRouterIsOnlineOrTold | src/nodes/core_router.py:426-431 | the router the registry names has the user online or an update naming it is on the way |
| Replication.DrainedRouterRecordsTheAp | src/nodes/core_router.py:432-437 | when it is drained and the latest event was a registration through an AP whose RID just one of its APs has, that AP is recorded |
| Replication.OnlineExactlyWhenTold | src/nodes/core_router.py:426-431 | in a run in which nobody sets a status, a router has a user online exactly when it had it from the start or has taken an update that names it; nothing retires an online user |
| Redirection.RedirectCarriesThePacket | src/nodes/core_router.py:371-388 | a redirect carries the inner packet unchanged, with full TTL, to the router the mapping names, local mappings first, and alerts with that mapping |
| Redirection.AlertFrameIsTheStep | src/nodes/core_router.py:390-463 | the last frame of a redirect goes to the first neighbour in space 0, and the control server's handling of the packet in it is the step by which the protocol model takes the alert |
| Redirection.AlertIsHarmlessExactlyWhenCurrent | src/nodes/core_router.py:390-398 | the alert a router sends leaves the registry as the server finds it exactly when the mapping the router redirected by names the pair recorded there; for a router other than (0, 0): no local mapping, and a replica that agrees |
| Redirection.SettledAlertIsHarmlessExactlyWithoutLocalMapping | src/routing/mapping.py:33-39 | from a settled state a redirect's alert changes nothing exactly when the router has no local mapping for the user; with one, the packet goes to router (0, 0) |
| Redirection.EarlyRedirectUndoesRegistration | src/nodes/control_server.py:175-186 | a redirect before the registration's notification is taken restores the old mapping in the registry |
| Redirection.RedirectsAreAFixpoint | src/nodes/core_router.py:371-397 | from a settled state in which no router that holds a user as moved has a local mapping for it that says otherwise, any interleaving of redirects, alerts and notifications leaves the registry and all mappings equal |
| Redirection.FixpointExactlyWhenUnshadowed | src/nodes/core_router.py:371-397 | and the condition on local mappings is exact: without it some run changes the registry |
| Redirection.RedirectsReachTheRecordedRouter | src/nodes/core_router.py:371-388 | throughout such a run, under the same condition on local mappings, a packet that comes to a router that holds its user as moved arrives, unchanged, at the router the control server recorded, if the routes lead there in at most 63 hops |
| Redirection.ServedExactlyByTheNamedAp | src/nodes/core_router.py:426-437 | after an update the serving router sends the user's packets to an AP exactly when it is the first with the AP RID the update names, or no AP has that RID and it is the one with AID 0 |
| Redirection.DeliverableExactlyWhenApIsNamed | src/nodes/core_router.py:426-437 | it can hand packets to some AP exactly when the update names one of its AP RIDs or AID 0 is one of its APs |
| Redirection.RedirectsKeepTheApExactlyWhenUnnamed | src/nodes/control_server.py:188-193 | if some router can redirect by a mapping that names the recorded pair, redirects leave a user at the AP it registered at, in every run from a settled state, exactly when an update without AP would be taken to mean that AP |
| Redirection.RedirectEndsInABlackHole | src/nodes/control_server.py:188-193 | after one redirect by a mapping that names the recorded pair, its alert and its notification, the serving router has the user online; it drops every packet it decapsulates for the user exactly when none of its APs has RID (0, 0) or AID 0, and then AID packets, too, unless the user is an access neighbour |
| Registrations.RecordStandsExactlyWhenNothingOverturns | src/nodes/control_server.py:138-194 | from any state, what is recorded for a user stands in every run exactly when no message on its way up records another pair and no router ever redirects the user by a mapping that names another |
| Registrations.RegistrationStandsExactlyWhenNobodyDisagrees | src/nodes/control_server.py:138-186 | a registration made in a settled state stands in every run exactly when no router held the user as moved over a mapping, local or remote, that names another pair |
| Registrations.OvertakenAlertUndoesRegistration | src/nodes/control_server.py:175-186 | a registration that overtakes the alert of a redirect over a current mapping is undone by it |
| Registrations.LocalMappingLeftBehind | src/routing/mapping.py:33-39 | with the configured values, one redirect at the router the user has left makes the registry name the old place and router (0, 0) |
| Registrations.ReferralEndsOnceHeard | src/nodes/core_router.py:371-437 | a router that redirects a user to another makes the server tell that one; once told, it never redirects the user again, whatever redirects, alerts and notifications follow |
| Delivery.DeliveredExactlyWithin63Hops | src/nodes/core_router.py:149-408 | an encapsulated user packet is handed to the serving AP, unchanged but for one TTL, exactly when the home router is at most 63 core hops away; else it expires at the 64th router |
| Delivery.DeliveredByRank | src/nodes/core_router.py:187-268 | it is delivered wherever a rank of at most 62 falls along the next hops to the home router |
| Delivery.RedirectedArrives | src/nodes/core_router.py:371-388 | a redirected packet arrives unchanged at the router its mapping names, if that is at most 63 hops away |
| Delivery.RedirectedIsDelivered | src/nodes/core_router.py:371-408 | and is handed over unchanged at that router if it serves the user |
| Deployment.TestServerIsReached | config/cr2.yaml:24-48 | with the tables of both configured routers, a packet for the test server leaves CR-2 in space 100 on interface 1 for CR-1, whose RID is not the destination, and CR-1 sends it to AP-1's MAC on interface 2 |
| Deployment.TestServerIsReachedInTransit | src/nodes/core_router.py:262-268 | and so it does over a router in transit, whose RID is not the destination |
| Reachability.RegisteredUserIsReachable | src/nodes/core_router.py:149-437 | after any run whose latest event for the user is a registration, a packet entering the core at a drained router, whose local mapping if any does not say otherwise, leaves at the registering AP, unchanged but for one TTL |
| Reachability.DrainedRouterSendsExactlyUnlessShadowed | src/nodes/core_router.py:187-207 | that condition is exact: a drained router sends to the registered RID exactly when its local mapping for the user, if it has one, names it |
| Reachability.ActivatedUserIsReachable | src/nodes/access_point.py:247-345 | an access point that activates a user makes it reachable: once its registration has been acted on and taken, packets for the user come to the access point behind the recorded interface, which sends them to the MAC stored for the user |
| Reachability.MovedUserIsReachable | src/nodes/core_router.py:353-408 | after such a run, a packet sent to the router the user has left, which holds it as moved, has no local mapping for it and is drained, is redirected exactly once and leaves at the registering AP, unchanged but for one TTL |
| Reachability.DrainedRouterRefersExactlyUnlessShadowed | src/nodes/core_router.py:374-388 | a drained router refers a moved user to the registering router exactly when it has no local mapping for it or that router is (0, 0) |
| Termination.HandlingLosesWeight | src/nodes/core_router.py:149-408 | every node makes a user packet lighter under (AID TTL, RID TTL, phase), redirects and hops between access points aside |
| Termination.HandlingIsBounded | src/nodes/core_router.py:159-231 | in every run, in every topology, for tables that change arbitrarily, the user packets handled are bounded by the weight sent, 63 for each redirect and 1 for each hop between access points |
| Termination.LinkedAccessPointsBounceForever | src/nodes/access_point.py:294-304 | two access points that are each other's uplink pass a frame back and forth, unchanged, any number of times |
| Termination.BoundedExactlyWhenNoApToAp | src/nodes/access_point.py:294-304 | on links that can be used both ways, redirects alone bound every run exactly when no link joins two access points |
| Termination.UserPacketsAreNotDuplicated | src/nodes/core_router.py:149-408 | in every run on two-ended links live user packets never exceed those present and injected |
| Lifetimes.EncapsulationsAreBounded | src/nodes/core_router.py:159-207 | a packet that starts with AID TTL n is encapsulated at most n - 1 times |
| Lifetimes.TransmissionsPerEncapsulation | src/nodes/core_router.py:200-268 | one encapsulation causes at most 64 + 63 r router transmissions for r redirects |
| Lifetimes.StopsUnlessMoved | src/nodes/core_router.py:230-268 | if no router holds the user as moved, a packet stops within the steps its TTLs allow, routing loops included |
| Referrals.EndlessExactlyWhenARedirectRepeats | src/nodes/core_router.py:371-388 | among routers with fixed tables a frame is endless exactly when a router redirects the same AID packet twice, when there are more redirects than routers times AID TTLs, and when it is still going after a number of steps known beforehand |
| Referrals.EndlessExactlyWhenReferralsGoOn | src/nodes/core_router.py:371-388 | if every router of a group that holds the user as moved has a road to the router its mapping names, a packet is endless exactly when following the mappings leads on for as many steps as there are routers in the group |
| Referrals.MutualReferralNeverEnds | src/nodes/core_router.py:371-388 | two routers that hold the user as moved to each other never stop |
| Referrals.AnEndlessPacket | src/nodes/core_router.py:371-388 | a concrete two-router network in which a packet never stops |
| AccessPoints.AccessPoint.ReceiveFrame | src/nodes/access_point.py:281-334 | a user frame sends exactly what the bridge lets through, TTL untouched; control frames send nothing, and an advertisement is remembered |
| AccessPoints.BridgeIsBridged | src/nodes/access_point.py:281-345 | a local user's AID packet goes down to the user's MAC, or to broadcast without one, any other AID packet up to the router, and of RID packets the one inside, for local users only |
| AccessPoints.AccessPoint.SendUserData | src/nodes/access_point.py:189-203 | only an authenticated user's data enters the network, with TTL 64 |
| AccessPoints.AccessPoint.ActivateUser | src/nodes/access_point.py:247-275 | the user is stored as authenticated and the three control packets leave in order |
| AccessPoints.ActivationPackets | src/nodes/access_point.py:209-275 | destination, space and message of each of the three: the registration to the control server in space 0 and to the router in space 100, the advertisement to the control server; each decodes to its message; the RID registered without a router |
| AccessPoints.ActivationNamesTheAp | src/nodes/access_point.py:257-264 | the first packet of an activation decodes to a registration whose notification maps the user to the AP's router and names the AP |
| AccessPoints.AccessPoint.AddLocalUser | src/nodes/access_point.py:112-124 | the stored text parses to the attributes the control server parsed, whether they come as a dictionary or as text |
| Attributes.ParseAttributes | src/tables/cs_tables.py:24-32 | the loop over the parts computes the parse of the string |
| Attributes.ParsedValues | src/tables/cs_tables.py:27-31 | a key has the value that the last part with that key gives it, cut at the part's first colon and stripped; parts without a colon give nothing |
| Attributes.ParsedOrder | src/tables/cs_tables.py:27-31 | keys stand in the order in which the parts first name them |
| Text.StripIsStripped | src/tables/cs_tables.py:31 | stripping takes off all the blanks at both ends and nothing else; which ASCII characters are blanks |
| Attributes.PrintedText | src/nodes/access_point.py:117-120 | the text of a dictionary: key, colon, value, with semicolons between pairs |
| Attributes.PrintParseExactlyWhenClean | src/nodes/access_point.py:117-120 | printing and parsing gives a dictionary back exactly when its keys are unique and its texts are stripped and free of separators |
| Attributes.ParsePrintParse | src/tables/cs_tables.py:24-32 | for every string, parsing, printing and parsing again is parsing once |
| IPv4.PrintedAddressParses | src/common/ipv4.py:66-71 | printing and parsing an address gives the bytes back exactly when there is at least one |
| IPv4.ParsedAddressPrints | src/common/ipv4.py:66-71 | an address that parses, signs, blanks and underscores included, prints back exactly when its parts are digits without leading zeros |
| IPv4.AddressRead | src/common/ipv4.py:66-67 | an address parses to b exactly when the parts between its dots are, in order, the numbers of the bytes of b |
| IPv4.IntRead | src/common/ipv4.py:66-67 | a part is a number exactly when, without blanks around it and a sign before it, it is digits with single underscores between them; its value is that of the digits |
| IPv4.AddressText | src/common/ipv4.py:70-71 | an address is its bytes in decimal with dots between them |
| IPv4.DecimalDigits | src/common/ipv4.py:70-71 | the characters of a number are its digits to base 10, without a leading zero |
| IPv4.IPv4RoundTrip | src/common/ipv4.py:28-59 | between canonical dotted quads a datagram serialises exactly when its payload has at most 65515 bytes, and then decodes to itself under any padding (section 3.1 of RFC 791) |
| IPv4.IPv4WireFormat | src/common/ipv4.py:28-45 | a datagram serialises exactly when both addresses parse and the length fits; the header field by field, constants included (section 3.1 of RFC 791) |
| IPv4.IPv4Accepted | src/common/ipv4.py:47-63 | any 20 bytes are accepted; where each field is read; version, flags and checksum are not looked at |
| SwitchFabric.VirtualSwitch.AddPort | src/simulation/virtual_link.py:180-183 | the port has an empty queue and its MAC points at it |
| SwitchFabric.VirtualSwitch.MayForward | src/simulation/virtual_link.py:191-205 | two ports may exchange frames exactly when they differ and there are no groups or they share one |
| SwitchFabric.VirtualSwitch.Send | src/simulation/virtual_link.py:209-254 | the send comes to what `SendOff` says; the next three rows say what that is |
| SwitchFabric.FrameForOnePort | src/simulation/virtual_link.py:224-254 | a frame for a named port, or for a known MAC, is put at the end of that port's queue and of no other, and counts as delivered; it waits while that queue is full; it is dropped if isolation forbids it or there is no such port |
| SwitchFabric.FrameForUnknownAddress | src/simulation/virtual_link.py:231-254 | a frame for an unknown MAC is put once at the end of the queue of each port that isolation allows and of no other |
| SwitchFabric.FrameForUnknownAddressWaits | src/simulation/virtual_link.py:231-250 | if a queue is full, the ports added before that one have the frame, and the send waits there with the allowed ones that remain |
| SwitchFabric.VirtualSwitch.Resume | src/simulation/virtual_link.py:240-254 | a send that waited goes on from the target at which it waited |
| SwitchFabric.SendReachesAllTargets | src/simulation/virtual_link.py:222-254 | when no target's queue is full, the send ends, every accepting target has the frame, and it counts as delivered exactly when there is one |
| SwitchFabric.PumpIsAdvancing | src/simulation/virtual_link.py:240-250 | what a send does before it ends or waits is a sequence of moves of the interleaved model |
| SwitchFabric.SendIsMoves | src/simulation/virtual_link.py:209-254 | and a whole send is the beginning, the advances and, if it ends, the completion of one task of that model |
| SwitchFabric.VirtualSwitch.Recv | src/simulation/virtual_link.py:256-261 | the frame that waited longest leaves its queue |
| SwitchFabric.SwitchStaysSound | src/simulation/virtual_link.py:180-261 | over every interleaving of blocked sends, receives and new ports: queues hold at most 1000 frames, the MAC table points at existing ports, and `sent` equals frames waiting plus received |
| SwitchFabric.FramesStayInTheirGroup | src/simulation/virtual_link.py:191-250 | every frame that waits at or was received from a port came from a different port of a shared group |
| SwitchFabric.PortsAreFifo | src/simulation/virtual_link.py:240-261 | what was queued at a port is received in the order it was queued |

## Left out

- ControlService.ControlServer.Receive: authentication requests and neighbour advertisements are accepted and ignored; the authentication reply is not modelled.
- Replication.ReplicationInvariant: one copy of each message per managed router; copies that arrive over a second interface of the control server or are relayed by another router are not modelled.
- Registrations.RecordStandsExactlyWhenNothingOverturns: runs are made of redirects, alerts and notifications; statuses set and registrations sent in the course of the run are not among its moves (messages already on their way are).
- Replication.ServingInvariant: statuses may be set from outside at any router except, for a user, the one the registry names; the source's scenario does the same.
- Termination.HandlingIsBounded: what access points, the control server and hosts send on control business is any sequence of control packets.
- Referrals.EndlessExactlyWhenReferralsGoOn: routes of at most 63 hops between the routers, and access point interfaces that lead out of the core, are assumed; `EndlessExactlyWhenARedirectRepeats` assumes neither.
- Signaling.FromDict: a field of the wrong JSON type is rejected, where `from_dict` would store some of them unchecked; the JSON text layer itself is a parameter.
- Signaling.AidFromJson: plain hex digits only, where `int(s, 16)` also takes signs, prefixes, blanks and underscores.
- IPv4.ParseInt: ASCII digits only, where `int(s)` also takes the decimal digits of other scripts, and refuses more than 4300 digits.
- AccessPoints.AccessPoint.ReceiveFrame: authentication requests and responses are left out, with the pending futures (a response is not tied to its request).
- AccessPoints.AccessPoint.AddLocalUser: the values of an attribute dictionary appear in the form that `str` gives them.
- Signaling.DictRoundTrip: a custom attribute that is NaN equals nothing, itself included, so it is not a value of the model.
- Route and space bases are 32-bit by type; `rid_lookup` raises on a configured base outside that range. Space identifiers are 16-bit by type.
- MAC addresses are byte values; parsing their textual form is not modelled. Interface numbers are taken to exist.
- Changing isolation groups or re-adding a port while frames are queued.
- `VirtualLink`: a two-ended link is the `wire` map of the network models, without loss or delay.
- The host and test server: their traffic is what runs inject.
- AID routing (`src/routing/aid_routing.py`): imported by the router but never called.
- Raw sockets, TAP devices, topology files, scheduling, timeouts, logging and metrics.
- The hash behind AIDs is not modelled; AIDs are arbitrary 128-bit values.
