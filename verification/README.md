# A verified model of the virtual switch

This Dafny project models the stateful core of the virtual switch and proves what its
parts promise together. `dafny verify dfyconfig.toml` checks all of it.

It covers four components.

* **Spanning tree** (IEEE 802.1D-1998, sections 8.6.8, 8.6.9 and 9.3.1). One bridge is the
  class `StpBridges.Bridge`, with the loops, timers and byte buffers of the original. A
  network of bridges joined by point-to-point links (`StpNetwork`) is then shown to settle
  only into a loop-free tree: one designated end per link, one agreed root, least-cost root
  paths. `StpRuns` follows a bridge with its switch through any run of events: roles and gates
  stay together, ports climb in exact time, root claims die out. `StpHistory` and `StpChanges` say
  over the same runs how long information is held, what a topology change does to learned addresses,
  and how long it is advertised. `Flooding` carries the tree over
  to data frames: a flood enters every bridge at most once. `StpScenes` walks runs from start-up
  to the states where a rule one might expect fails.
* **Switch data plane.** `SwitchModel` is a state machine whose steps are the critical
  sections of the switch; `SwitchCore`, `Fdb`, `Frames` and `Storm` are the objects that
  perform them, each proved equal to its step. `SwitchRaces` splits a delivery where a removal
  can come in between. `Delivery` reads deliveries off the bytes of a frame and the ports'
  attributes: who is let in, who gets a copy, what is learned. The forwarding table is tied to an event log,
  cached port references to the by-name registry, the token bucket to a rate bound.
* **vhost-user split virtqueue** (VIRTIO 1.1, sections 2.6 and 5.1.6.4). `DescChains` walks
  descriptor chains and gathers frames, `Vrings` keeps a ring with the history of everything
  offered, taken and returned, `VhostRx` scatters a received frame over guest buffers, and
  `TxPump` interleaves guest, control thread and transmit pump.
* **DHCPv4 leases** (RFC 2131, sections 4.3.1 and 4.3.2). `Leases` is the lease table and the
  binding match, `Dhcp4` the address selection and what holds over whole runs of the server.

## How to read it

Where the original updates an object in place, the model has a class, and each method states
its new state through functions and relations on plain values (`Ticked`, `Delivered`, `Drained`,
`Filling`, `Evaluated`, `Selects`, ...). The theorems are about those functions and about runs of
them. Loops over a Go map take the keys in any order; a pick that depends on the order is a
relation in the model.

The files by layer: `Wrappers`, `Division` (shared), `SwitchPorts`, `Storm`, `Fdb`, `Frames`,
`SwitchModel`, `SwitchCore`, `SwitchRaces`, `Delivery` (switch), `StpVectors`, `Bpdu`, `StpSteps`,
`StpBridge`, `StpTimers`, `StpElections`, `StpRuns`, `StpHistory`, `StpChanges` (one bridge), `CostChains`, `Forests`,
`StpNetwork`, `Flooding`, `StpScenes` (network), `Virtqueue`, `DescChains`,
`Scatter`, `Vrings`, `VhostRx`, `TxPump` (vhost-user), `Leases`, `Dhcp4` (DHCP).

Assumptions that are stated as preconditions or definitions:

* Links join bridges with different IDs, and path costs are positive. For agreement on one
  root all bridge IDs differ (`Net.DistinctIDs`).
* Path cost addition wraps at 2^32 in the model as in the code. `Net.CostsFit` bounds the
  configured costs so that a simple path stays below the wrap; it says nothing about the costs
  the bridges hold. `WrappedCostsLoop` shows a settled network with an active loop without it.
* Claims about root and roles are made after a recompute. A tick's resync may drop a port
  without one.
* A removal of a port is three steps (unregister, mark gone, flush) between which anything may
  happen. A delivery is one step; shutting a port on an unwanted BPDU or an own probe is part
  of the delivery that causes it. `SwitchRaces` takes both apart.
* The clock never goes back, and is positive where zero marks an unused token bucket.
* The driver never has more than `num` chains with the device, ring sizes are fixed once the
  addresses are set, guest buffers are disjoint from each other and from the rings, and the
  ranges in a ring's descriptors do not wrap at 2^64. What the bounds check does with ranges that
  wrap is `PassesIff` and `WrappedRangeFaults`.
* A kick file handed to the device is a new descriptor, though its eventfd may be an old one.
  A kick written to an eventfd while that eventfd is replaced is not counted as a kick; `RetiredKick`
  shows that it wakes nobody.
* DHCP requests are served one at a time, and names are compared as ASCII. Hardware addresses hold no
  slash, the separator of the client key (`KeyIff`).

Results that qualify what one might expect:

* Storm control (`OverloadPassesOneBudget`): refills are rounded down at every call, so a
  source that stays above its rate gets one second's budget through and then nothing for as
  long as the overload lasts. Refused calls take a token too (`RecoversAfter`): the pause after an
  overload first has to earn back one token for every call of it.
* Dwell times (`DwellTimes`): a port that a tick unblocks is climbed in that same tick, so the
  ticks counted include it; such a port is seen Listening at one tick end fewer than one unblocked
  between ticks.
* Message age (`RelayGrowsIff`, `WireAgeWraps`): the age on the wire is 16 bits of 1/256 s.
  Every hello relay adds a second exactly when MaxAge plus one second is at most 256 s.
* Acknowledgements (`MessageAge`, `LostRootAcknowledges`): a bridge whose root port a resync has
  dropped keeps its claim, and acknowledges a notification with age 0 for it.
* Reused IDs (`GatedByRoleIff`, `EnlistedIff`, `TwoResyncs`, `ReusedForwards`): a blocked tree port
  whose ID was registered anew forwards. The first resync after that only drops the old entry: the new
  port is then outside the tree and still forwards, until a second resync brings it in. So
  `FrameNeverReturns` and `OneCopyEach` ask for trees that are up to date, which any tree is after two
  resyncs with no removal open.
* Ties (`RecomputeKeepsIff`): recomputing on the same information leaves a bridge as it is, for every
  order of visiting, exactly when no other port offers the elected vector.
* Late learning (`LearnLateIff`, `LateLearn`): a delivery that was admitted before a removal marked its
  entry gone and learns after the flush leaves an address pointing to an entry that is gone.
* Port references (`RefAgreesWithName`): a cached reference and a lookup by name agree in every
  reachable state except between unregistering and marking the cached entry gone.
* Table sweeps (`SweepUnseen`, `SweepSeenIff`): a sweep is invisible while the ageing time is
  not raised, and the exact condition is given for any later ageing time.

## Model

| member | source | states |
|---|---|---|
| StpNetwork.SpanningTree | internal/switchcore/stp.go:293-359 | In every settled connected network all bridges agree on the bridge with the smallest ID as root, each reaches it over active links whose costs sum to its root cost, and no path to the root is cheaper. |
| StpNetwork.NoActiveLoop | internal/switchcore/stp.go:293-359 | In every settled network a trail over links with both ends unblocked never visits a bridge twice and is shorter than the number of bridges. |
| StpNetwork.ExactlyOneDesignated | internal/switchcore/stp.go:325-359 | In a settled network exactly one end of every link is designated, that end holds no information, and the root-role end is the elected one. |
| StpNetwork.AgreesOnRoot | internal/switchcore/stp.go:299-322 | Every bridge joined to a root bridge believes in that root, has no smaller ID, is itself root only if it is that bridge, and reaches it over its root ports. |
| StpNetwork.RootPath | internal/switchcore/stp.go:299-322 | Following root ports from any bridge ends at a root bridge, over active links whose receiving-port costs add up to the bridge's root cost. |
| StpNetwork.NoCheaperPath | internal/switchcore/stp.go:299-322 | No walk to the root costs less than a bridge's root cost. |
| StpNetwork.RootPortExact | internal/switchcore/stp.go:306-314 | When configured costs fit, a bridge's root cost is its parent's plus its root port's cost, without wrap. |
| StpNetwork.QuietIffSettled | internal/switchcore/stp.go:495-558 | Recomputed bridges are settled exactly when hearing a hello round leaves every port with what it holds and refreshes all of it. |
| StpElections.RecomputeKeepsIff | internal/switchcore/stp.go:304-341 | Recomputing on unchanged information, port by port in a given order, leaves a bridge exactly as it is for every such order if and only if no other port ties with its root port. |
| StpElections.RecomputedInIs | internal/switchcore/stp.go:299-341 | In whatever order the ports are visited, the result is a recomputed bridge on the same information. |
| StpElections.SameElection | internal/switchcore/stp.go:299-341 | Such a recompute always elects the same vector, gives the same roles on the same root port, and moves the root port only to a tie. |
| StpElections.BetterIff | internal/switchcore/stp.go:65-76 | Vectors compare by root, cost, bridge and port, in this order: the first field that differs decides. |
| StpElections.RootPortFirst | internal/switchcore/stp.go:299-322 | Against every port that heard another bridge, the root port has the smallest root, then the least cost through the port, then the smallest sender, then the smallest sender port. |
| StpElections.ClaimsRootIff | internal/switchcore/stp.go:299-322 | A bridge takes itself for the root if and only if no port heard of a smaller root, nor of this bridge at no cost from a smaller sender. |
| StpElections.RoleIff | internal/switchcore/stp.go:325-359 | After a recompute a port other than the root port is designated if and only if it heard nothing or the bridge's own vector comes first, field by field; else it is blocked. |
| StpSteps.BridgeIDOrder | internal/switchcore/stp.go:129-133 | Bridge IDs rank by priority, then hardware address, and are equal only if both are. |
| StpSteps.PortIDOrder | internal/switchcore/stp.go:135-137 | Port IDs rank by priority (128 when unset), then the low byte of the port number, and fit 16 bits. |
| StpNetwork.ActiveLinksRanked | internal/switchcore/stp.go:325-359 | Every active link is the root port of exactly one of its bridges, and leads to a bridge with a smaller root cost. |
| StpNetwork.WrappedCostsLoop | internal/switchcore/stp.go:310-310 | A concrete settled network with path costs 2^31 in which the wrapped sum keeps a vanished root alive and an active loop open. |
| CostChains.NoCycle | internal/switchcore/stp.go:306-314 | Following parents never returns to a bridge already passed, even with wrapping sums, when the bridges' cost caps together stay below the wrap. |
| CostChains.NoWrap | internal/switchcore/stp.go:306-314 | Under those caps every addition along the parents is exact. |
| Forests.TrailFacts | internal/switchcore/stp.go:325-359 | Where every link leads up on one side only and every node has one way up, a trail that never turns straight back visits each node at most once. |
| Forests.TrailUnique | internal/switchcore/stp.go:325-359 | There two such trails with the same first and last node are the same trail. |
| Flooding.FrameNeverReturns | internal/switchcore/switch.go:410-488 | In a settled plant of valid bridges, wired by ports that take part in the tree and with trees up to date, whatever the switches do hop by hop with a data frame, a copy never enters the same bridge twice and stops within the number of bridges. |
| Flooding.OneCopyEach | internal/switchcore/switch.go:410-488 | In such a plant any two copies of one frame that start at one bridge and reach one bridge went over the same wires, so a flood, however it branches, enters every bridge at most once. |
| Flooding.AllSeen | internal/switchcore/stp.go:263-281 | When trees are up to date, every wire between participating ports is a link of the tree's network. |
| Flooding.GatedByRoleIff | internal/switchcore/stp.go:263-281 | In every valid bridge the registered ports of the tree are gated as its roles say if and only if every tree port is registered and each blocked one is still the port registered under its ID; registered ports outside the tree forward. |
| Flooding.EventResyncs | internal/switchcore/stp.go:248-281 | Every tick and every port change of an enabled bridge resyncs: members stay or go and ports come in as one look at the registry says, whatever else the event does. |
| Flooding.ResyncCurrent | internal/switchcore/stp.go:263-281 | After a resync with no removal open every tree port is a registered live port, tied to the entry registered under its ID. |
| Flooding.EnlistedIff | internal/switchcore/stp.go:270-280 | After such a resync every registered port that takes part is in the tree, if and only if before it no participating port's ID was held in the tree by an entry that is gone. |
| Flooding.TwoResyncs | internal/switchcore/stp.go:263-281 | Two resyncs with no removal open bring any tree up to date: its ports are exactly the registered ports that have the tree on and are not disabled. |
| Flooding.ReusedLeftOut | internal/switchcore/stp.go:270-280 | After one resync a participating port whose ID the tree held for a gone entry is outside the tree, and forwards. |
| StpScenes.ReusedForwards | internal/switchcore/stp.go:263-281 | A concrete run from start-up: a blocked port's ID is registered anew and forwards, one port change later it is outside the tree and still forwards, and after the next the tree is up to date. |
| Flooding.SendsThroughGates | internal/switchcore/switch.go:410-488 | A copy sent out of a tree port means that both the port it came in by and the port it left by have a role other than blocked. |
| StpBridges.Bridge.Recompute | internal/switchcore/stp.go:293-344 | Leaves a least vector elected, every port with the role that election gives it and its gate to match, learned addresses cleared and the change signalled exactly if a role moved; does nothing while disabled. |
| StpBridges.Bridge.ElectRoot | internal/switchcore/stp.go:299-322 | For any visiting order the elected vector is a least one among the bridge's own claim and every port's information plus path cost (modulo 2^32). |
| StpBridges.Bridge.AssignRoles | internal/switchcore/stp.go:324-341 | Gives every port its role, gate and timer in one pass and reports a change exactly if some role moved. |
| StpBridges.Bridge.ApplyRole | internal/switchcore/stp.go:364-378 | A blocked role drops the gate to Blocking and flushes the port's addresses if it was not there; another role restarts the climb only from Blocking. |
| StpBridges.Bridge.SignalTopologyChange | internal/switchcore/stp.go:395-404 | The root advertises for MaxAge plus ForwardDelay, others mark a notification pending; either way exactly the learned addresses go. |
| StpBridges.Bridge.BecomeRoot | internal/switchcore/stp.go:284-289 | Resets the claim and recomputes: the state is the one a recompute of the old ports leaves. |
| StpBridges.Bridge.Resync | internal/switchcore/stp.go:263-281 | Ports and gates become those of the enrolment followed by the withdrawal, for any visiting order. |
| StpSteps.ResyncMeaning | internal/switchcore/stp.go:263-281 | After a resync a port is in the tree exactly if it was and its registered port takes part and its entry is not gone, or it was not and takes part; kept ports are untouched, new ones blocked. |
| StpSteps.ResyncKeeps | internal/switchcore/stp.go:263-281 | A resync keeps every enrolled port tied to its entry, blocked if and only if Blocking, and every other entry forwarding. |
| StpBridges.Bridge.Tick | internal/switchcore/stp.go:435-492 | The whole new state: resync, ageing, recompute exactly if something expired, climb, timers; at hello time one message out of every designated port with the right flag; information kept is younger than MaxAge. |
| StpBridges.Bridge.AgeInfos | internal/switchcore/stp.go:438-451 | Every stored vector grows older by the tick and is dropped exactly at MaxAge; reports whether any was. |
| StpBridges.Bridge.ClimbAll | internal/switchcore/stp.go:455-475 | Unblocked ports move along Listening, Learning, Forwarding as the forward delay fills, and exactly those reaching Forwarding lose their learned addresses. |
| StpBridges.Bridge.TransmitConfigs | internal/switchcore/stp.go:495-513 | Sends on exactly the designated ports, and on none when the root port has lost its information; each message carries the bridge's own vector. |
| StpBridges.Bridge.HandleBPDU | internal/switchcore/stp.go:516-573 | Ignores what it cannot read; acknowledges a notification on a designated port and signals the change; stores a configuration if first, refreshing or better and recomputes, then obeys its flags. |
| StpBridges.Bridge.HearConfig | internal/switchcore/stp.go:546-572 | The whole new state after a configuration message, accepted or not. |
| StpBridges.Bridge.PortChanged | internal/switchcore/stp.go:248-259 | Resync followed by a recompute, or nothing while disabled. |
| StpBridges.Bridge.SetConfig | internal/switchcore/stp.go:140-171 | Applies the configuration with its defaults; enabling resyncs and recomputes, disabling empties the tree, opens every gate and leaves claim, table and topology-change state alone. |
| StpBridges.Bridge.ConfigDecodes | internal/switchcore/stp.go:527-613 | For every bridge state within its field widths, the frame built for a port is an untagged reserved-group BPDU that decodes to the exact flags, root, cost, bridge, port and age. |
| StpSteps.ConfigVector | internal/switchcore/stp.go:589-607 | What any message carries beside its age: flags, the bridge's own vector for the port, and the three configured times. |
| StpSteps.PassGated | internal/switchcore/stp.go:325-378 | Giving roles, ageing and climbing each keep blocked role and Blocking gate together. |
| StpSteps.GivenRecomputed | internal/switchcore/stp.go:324-341 | Roles given from an elected claim leave the state a recompute promises. |
| StpVectors.RolesAside | internal/switchcore/stp.go:299-322 | Roles take no part in the election. |
| StpRuns.RunGated | internal/switchcore/stp.go:263-281 | In every state of every run of ticks, received BPDUs, port changes, configurations and switch steps, an enrolled port is blocked if and only if its gate is Blocking, other ports forward, and the switch is consistent. |
| StpRuns.SwitchStepGated | internal/switchcore/switch.go:156-252 | No step of the switch itself breaks the tie between blocked role and Blocking gate. |
| StpRuns.EventMoves | internal/switchcore/stp.go:364-475 | Every event moves gate and timer of a port that stays unblocked by one climb step if it is a tick and not at all otherwise; a port it unblocks starts to listen. |
| StpRuns.DwellTimes | internal/switchcore/stp.go:451-475 | In every run, from the event that unblocks a port on and while it stays unblocked, exactly ceil(F/d) ticks find it Listening and then exactly ceil(F/d) Learning before it forwards; a tick that unblocks it is the first of them. |
| StpRuns.InfoAge | internal/switchcore/stp.go:440-561 | In every run, information still held and not refreshed is as old as the message said plus the ticks since. |
| StpHistory.EventHolds | internal/switchcore/stp.go:440-561 | A port that stays in the tree keeps what it heard through every event that stores nothing on it, except that a tick drops it exactly when its age reaches MaxAge. |
| StpHistory.HeldExactly | internal/switchcore/stp.go:440-561 | In every run, a message stored on a port that stays and not refreshed is held exactly until a tick finds its age on arrival plus the time since at MaxAge or more. |
| StpHistory.TickRecomputes | internal/switchcore/stp.go:436-453 | A tick that finds a participating port's information too old leaves a recomputed bridge; any other keeps claim and roles, new ports being blocked. |
| StpHistory.HeardMeaning | internal/switchcore/stp.go:546-562 | A configuration message is stored with its age, and the bridge recomputed, if and only if the port holds nothing, it has the same sender, or it comes first field by field; otherwise ports and claim stay. |
| StpHistory.ConfigMeaning | internal/switchcore/stp.go:140-171 | A configuration takes effect field by field, absent fields as at start-up; on, it leaves a recomputed bridge; off, an empty tree with every gate open and claim, table and topology-change state untouched. |
| StpChanges.ChangeMeaning | internal/switchcore/stp.go:334-404 | Every event is a topology change exactly if a role moves or a notification reaches a designated port; then the root starts its timer and others get a notification pending. Learned addresses go with a change, with the flag in a message, and for a port reaching Forwarding, and no others. |
| StpChanges.ChangeCountsDown | internal/switchcore/stp.go:395-485 | In every run, after a change at the root the timer starts at MaxAge plus ForwardDelay and loses HelloTime per hello until it is used up. |
| StpChanges.ChangeAdvertised | internal/switchcore/stp.go:495-513 | A later hello carries the topology-change flag if and only if the hellos before it leave some of that time. |
| StpChanges.PendingIff | internal/switchcore/stp.go:395-404 | In every run a notification is pending if and only if some change of a bridge that is not root has not been acknowledged on its root port since. |
| StpChanges.HelloSpacing | internal/switchcore/stp.go:479-481 | In every run the next hello is due exactly with the first tick that brings the time since the last one to HelloTime. |
| StpRuns.HelloAge | internal/switchcore/stp.go:495-604 | A hello of the root carries age 0; any other carries the relayed age of its root port's information, which is below MaxAge. |
| StpRuns.MessageAge | internal/switchcore/stp.go:531-604 | Any message, acknowledgements included, carries that relayed age if and only if the root port is still in the tree, else age 0. |
| StpRuns.RootPortDropped | internal/switchcore/stp.go:436-453 | A tick in which nothing expires keeps the claim, and keeps the root port exactly while that takes part. |
| StpScenes.LostRootAcknowledges | internal/switchcore/stp.go:531-604 | A concrete run from start-up: a root is heard, its port disabled, and after the next tick the claim stands, the root port is gone and an acknowledgement has age 0. |
| StpTimers.WireAgeExact | internal/switchcore/stp.go:598-604 | For any list of holding times below a common MaxAge with MaxAge + 1 s at most 256 s, the relayed wire age is 256 units per hop plus the whole units of each time. |
| StpRuns.LegAge | internal/switchcore/stp.go:495-604 | What a bridge's run sends on is the relay of what it stored, held for the ticks in between, and was below MaxAge. |
| StpRuns.ClaimDiesOut | internal/switchcore/stp.go:440-453 | Along any chain of bridge runs relaying an unrefreshed claim, every relay raises the wire age by at least a second, hop seconds plus holding time stay below MaxAge, and the number of hops is bounded. |
| StpTimers.RelayGrowsIff | internal/switchcore/stp.go:598-604 | Relaying information of any age below MaxAge raises it by at least one second if and only if MaxAge + 1 s is at most 256 s. |
| StpTimers.WireAgeWraps | internal/switchcore/stp.go:598-604 | A concrete age above that limit which comes out younger after a relay. |
| Bpdu.BuildConfig | internal/switchcore/stp.go:579-613 | The buffer filled step by step is exactly the 60-byte frame of the message. |
| Bpdu.FrameHeader | internal/switchcore/stp.go:579-587 | Group address, source, 802.3 length and LLC, followed by zeros. |
| Bpdu.PutBE | internal/switchcore/stp.go:594-607 | Writes a number big-endian in place and nothing else. |
| Bpdu.ConfigRoundTrip | internal/switchcore/stp.go:527-561 | Every message that fits its fields is classed as an untagged reserved-group BPDU and decodes to the flags, vector and age sent. |
| Bpdu.TcnRoundTrip | internal/switchcore/stp.go:615-622 | A topology change notification is recognised as one. |
| Bpdu.BodyFields | internal/switchcore/stp.go:589-607 | Each field of the message lies at its offset in the payload. |
| Bpdu.AgeRoundsDown | internal/switchcore/stp.go:561-561 | Below 256 s the age survives the wire rounded down to 1/256 s. |
| SwitchModel.StepInv | internal/switchcore/switch.go:156-252 | Every step, including each third of a removal, keeps the registry consistent and every learned address pointing to an entry registered or still being removed. |
| SwitchModel.RunInv | internal/switchcore/switch.go:156-489 | That holds in every state of every run from an empty switch. |
| SwitchModel.RunNumbered | internal/switchcore/switch.go:156-174 | In every run entries are numbered from 1 in the order they were registered, modulo 2^16, no invalid attributes get in, and the ageing time stays positive. |
| SwitchModel.LearnedPointsToRegistered | internal/switchcore/fdb.go:43-50 | Once every started removal has finished, each learned address points to the entry registered under its ID. |
| SwitchModel.RefAgreesWithName | internal/switchcore/switch.go:62-74 | In every reachable state a port reference resolves as its name does, if and only if its cached entry is not between unregistering and marking gone. |
| SwitchModel.RunReplay | internal/switchcore/fdb.go:43-159 | In every state of every run the forwarding table is the replay of the table events the steps caused. |
| SwitchModel.RunLookup | internal/switchcore/fdb.go:55-67 | So a lookup in any reachable state answers the static port in force, else the latest uncleared learn not older than the ageing time then set, else nothing. |
| SwitchModel.CopiesProper | internal/switchcore/switch.go:410-488 | Every copy goes to one live port a flood would reach (other port, forwarding on both sides, same VLAN, not both isolated); a hit sends at most one, an unthrottled flood reaches exactly the flood set. |
| Delivery.IngressIff | internal/switchcore/switch.go:362-434 | From the bytes and the port: exactly which frames are let in and to which VLAN, which shut the port, and which go to the tree. |
| Delivery.CopyMeaning | internal/switchcore/switch.go:437-488 | Every copy is of a frame let in on a forwarding port, goes to another live, enabled, forwarding port of its VLAN or a trunk, not both isolated, and is tagged or bare as that port must see it. |
| Delivery.VlansSeparate | internal/switchcore/vlan.go:60-97 | Ports that are not trunks exchange frames only within one VLAN, a trunk reaches them only by the tag, isolated ports not at all, and a locked port sends only from its address. |
| Delivery.FloodIff | internal/switchcore/switch.go:474-488 | A frame the table does not decide about goes to exactly the registered ports that may get it, or to none when the storm budget is spent. |
| Delivery.UnicastIff | internal/switchcore/switch.go:459-472 | A frame the table decides about goes to the port its entry names, exactly if that may get it, and to no other. |
| Delivery.DeliveryLeaves | internal/switchcore/switch.go:362-450 | What a delivery changes: the source address of a frame let in is recorded unless static or a group; an own probe or unwanted BPDU disables the port and drops its learned addresses; nothing else but budget. |
| Delivery.SpendsIff | internal/switchcore/switch.go:474-481 | Budget is spent exactly by frames that are let in on a forwarding port with a budget and are not decided by the table. |
| Delivery.FollowsLearning | internal/switchcore/switch.go:437-472 | In every run, a frame for an address whose latest learn stands and is in age goes to the port it was learned on, exactly if that may get it, and to no other. |
| Delivery.FloodsUnknown | internal/switchcore/switch.go:474-488 | In every run, a frame for a group address or one nothing in the history stands for is flooded to exactly the ports that may get it, within budget. |
| SwitchCore.Core.Deliver | internal/switchcore/switch.go:362-489 | The in-place delivery performs exactly the model's step and lists each receiver's copy once. |
| SwitchCore.Core.Forward | internal/switchcore/switch.go:437-488 | Learning, then forwarding unless the source is learning, equal to the model's step. |
| SwitchCore.Core.Dispatch | internal/switchcore/switch.go:459-488 | A hit goes to its port only, everything else is flooded within the storm budget, and only then is budget spent. |
| SwitchCore.Core.Flood | internal/switchcore/switch.go:482-487 | One copy to every registered port in reach, for any visiting order. |
| SwitchCore.Core.Unicast | internal/switchcore/switch.go:459-472 | At most one copy, to the entry a hit names if it may receive it. |
| SwitchCore.Core.AddPort | internal/switchcore/switch.go:156-174 | Refuses invalid attributes, empty and taken IDs; otherwise registers a new entry with the next port number. |
| SwitchCore.Core.Unregister | internal/switchcore/switch.go:178-187 | First step of a removal: the ID becomes free, the entry is being removed. |
| SwitchCore.Core.MarkGone | internal/switchcore/switch.go:188-188 | Second step: the entry is marked gone. |
| SwitchCore.Core.FinishRemove | internal/switchcore/switch.go:190-208 | Third step: addresses learned under the ID go. |
| SwitchCore.Core.UpdatePortAttrs | internal/switchcore/switch.go:231-252 | Refuses invalid attributes and unknown ports; otherwise replaces the attributes, and a change of VLAN drops the port's learned addresses. |
| SwitchCore.Core.SetFDBMaxAge | internal/switchcore/switch.go:326-332 | Changes the ageing time if it is positive. |
| SwitchCore.Core.BlockPort | internal/switchcore/protect.go:42-50 | Disables the port and drops its learned addresses, nothing else. |
| SwitchCore.PortRef.Deliver | internal/switchcore/switch.go:62-74 | Delivers from the cached entry unless it is gone, else from the registered one, which it then caches. |
| SwitchRaces.LearnLateIff | internal/switchcore/switch.go:370-438 | With admission and learning as two steps, learning keeps every learned address backed if and only if the entry is registered or its removal has not flushed yet, or a static entry masks the key. |
| SwitchRaces.InTimePoints | internal/switchcore/switch.go:178-208 | In every run of admissions, learns, switch steps and ports shut by a delivery, whose learns come before the flush, once no removal is open each learned address points to the entry registered under its ID. |
| SwitchRaces.LateLearn | internal/switchcore/switch.go:188-208 | Whatever the state, a delivery admitted during a removal that learns after the flush leaves an address pointing to an entry that is gone. |
| Fdb.ReplayMeaning | internal/switchcore/fdb.go:43-159 | After any log of events the entry of a key is the static one in force, else the latest learn not masked and not cleared since, and absent otherwise. |
| Fdb.LookupMeaning | internal/switchcore/fdb.go:55-67 | A lookup answers the static port if one is installed, else the latest uncleared learn not older than the ageing time, else nothing. |
| Fdb.StaticUntouched | internal/switchcore/fdb.go:43-159 | No learn, flush or sweep alters a static entry. |
| Fdb.SweepUnseen | internal/switchcore/fdb.go:150-159 | A sweep changes no lookup, now or after any further events, while the ageing time is not raised. |
| Fdb.SweepSeenIff | internal/switchcore/fdb.go:150-159 | For any later ageing time, a sweep shows exactly when that time would still find an entry it removed. |
| Fdb.ForwardingTable.Learn | internal/switchcore/fdb.go:43-50 | Records port and time unless a static entry holds the key. |
| Fdb.ForwardingTable.Lookup | internal/switchcore/fdb.go:55-67 | Finds the entry unless it is learned and too old. |
| Fdb.ForwardingTable.AddStatic | internal/switchcore/fdb.go:82-86 | Installs a static entry over whatever was there. |
| Fdb.ForwardingTable.RemoveStatic | internal/switchcore/fdb.go:89-99 | Removes the key if it is static, and says whether it was. |
| Fdb.ForwardingTable.RemoveDynamic | internal/switchcore/fdb.go:102-115 | Removes the key if it is learned, and says whether it was. |
| Fdb.ForwardingTable.FlushPort | internal/switchcore/fdb.go:118-126 | Removes exactly the learned entries of the port. |
| Fdb.ForwardingTable.Flush | internal/switchcore/fdb.go:130-148 | Removes exactly the selected learned entries and counts them. |
| Fdb.ForwardingTable.Expire | internal/switchcore/fdb.go:150-159 | Removes exactly the learned entries older than the ageing time. |
| Frames.TrunkRoundTrip | internal/switchcore/vlan.go:59-145 | A frame from an access port of VLAN v over a trunk between two switches leaves an access port of v byte for byte. |
| Frames.FrameVariants.Render | internal/switchcore/vlan.go:101-145 | Renders the frame as the receiver must see it and remembers each form once built. |
| Storm.StormBucket.Allow | internal/switchcore/protect.go:73-88 | The in-place bucket refills, is capped and spends as the value-level bucket. |
| Storm.StormBound | internal/switchcore/protect.go:66-88 | After any earlier calls, any window of D ns starting at a call lets through at most pps + floor(pps*D/10^9). |
| Storm.OverloadPassesOneBudget | internal/switchcore/protect.go:73-88 | Calls that keep coming faster than pps get exactly the first pps through. |
| Storm.BurstPasses | internal/switchcore/protect.go:73-88 | After a pause, a burst passes exactly as far as the tokens left plus those the pause earned, up to one budget. |
| Storm.RecoversAfter | internal/switchcore/protect.go:73-88 | After any overload and a pause, a burst passes exactly as far as the budget less every call of the overload plus what the pause earned. |
| Virtqueue.BitTest | internal/vhostuser/device.go:182-190 | The test num & (num-1) == 0 accepts exactly the powers of two. |
| Virtqueue.ConsecutiveIff | internal/vhostuser/queue.go:78-95 | Slots stay consecutive across the 16-bit wrap if and only if the ring size divides 2^16. |
| Virtqueue.SlotOfIndex | internal/vhostuser/queue.go:78-95 | For every accepted size, reducing an index to 16 bits first does not change its slot. |
| DescChains.GpaSlice | internal/vhostuser/memory.go:80-92 | On every machine-word input: the place in the first region whose 64-bit test passes, an error when none does, or an out-of-range slice. |
| DescChains.PassesIff | internal/vhostuser/memory.go:86-88 | The 64-bit test tells coverage exactly unless the end of the range wraps to within the region. |
| DescChains.WrappedRangeFaults | internal/vhostuser/memory.go:86-88 | A concrete range that wraps, passes and is not covered. |
| DescChains.ResolveChain | internal/vhostuser/queue.go:139-171 | Terminates on every table of machine words and returns the walk bounded at 256 descriptors, errors and out-of-range slices told apart. |
| DescChains.WalkIs | internal/vhostuser/queue.go:139-171 | Without a wrapping range a walk has no out-of-range slice and ends with exactly the chain described. |
| DescChains.ResolvedIff | internal/vhostuser/queue.go:115-171 | A head resolves if and only if a well-formed chain of at most 256 descriptors starts there (in range, direct, each in one region, readable before writable); the result is exactly that chain's segments. |
| DescChains.CyclicRejected | internal/vhostuser/queue.go:139-171 | No chain whose next-links lead back into it resolves. |
| DescChains.GatherTX | internal/vhostuser/device.go:479-498 | The concatenated readable bytes without the first 12, or nothing when the size is out of range. |
| DescChains.CarriesFrame | internal/vhostuser/device.go:479-498 | A frame the driver put behind a 12-byte header comes out exactly, if it has 1 to 65535 bytes, and is dropped otherwise. |
| Vrings.Vring.constructor | internal/vhostuser/device.go:192-198 | A ring taken over at a base index has on offer exactly the heads between that base and the driver's index. |
| Vrings.Vring.PopAvail | internal/vhostuser/queue.go:175-182 | Takes the next head in the order offered, or nothing exactly when all are taken, across the index wrap. |
| Vrings.Vring.SetUsedElem | internal/vhostuser/queue.go:91-95 | Writes the element in the slot of its place in history. |
| Vrings.Vring.PublishUsed | internal/vhostuser/queue.go:85-88 | Advances the index the driver reads over the elements just written. |
| Vrings.Vring.Return | internal/vhostuser/device.go:587-591 | Hands chains back in order; the ring holds the last num elements of the history. |
| Vrings.Vring.DrainTX | internal/vhostuser/device.go:454-475 | Takes everything on offer, returns each head once in order with length zero, and yields exactly the frames those chains carry. |
| Vrings.Vring.Lag | internal/vhostuser/queue.go:83-95 | Between calls lastAvail - usedIdx is constant modulo 2^16. |
| Vrings.Vring.InOrder | internal/vhostuser/queue.go:83-95 | Reading on from any of the last num elements, the driver finds its own heads in its own order. |
| VhostRx.WriteFrame | internal/vhostuser/device.go:503-593 | Keeps the ring invariant in all outcomes: a whole frame returns its chains with their lengths; too few buffers leave ring and used elements as before; a malformed chain returns all taken chains with length zero. |
| VhostRx.TakeChains | internal/vhostuser/device.go:528-573 | Takes chains until the frame is whole, none is left or one is malformed, with memory changed exactly by pouring header and frame over their writable segments. |
| VhostRx.FillChain | internal/vhostuser/device.go:550-571 | Fills a chain's segments in order until nothing is left, and remembers the first segment that got header bytes. |
| VhostRx.FillSegment | internal/vhostuser/device.go:552-567 | Copies header bytes first, then frame bytes, as many as fit. |
| VhostRx.OutcomeIff | internal/vhostuser/device.go:528-580 | Exactly when each of the three outcomes occurs, and after how many chains, with and without mergeable buffers. |
| VhostRx.FrameArrives | internal/vhostuser/device.go:503-593 | After a delivery the used lengths sum to 12 + frame length, and the bytes the driver finds by following the used elements are a zeroed header (with the chain count when the first segment holds 12 bytes) and the exact frame. |
| TxPump.NoLostWakeup | internal/vhostuser/device.go:352-451 | In every interleaving of guest, control and pump steps a started ring has exactly one pump, and if it sleeps on the current kick file every chain kicked for has been taken. |
| TxPump.StepInv | internal/vhostuser/device.go:352-451 | Every step keeps: one pump exactly while pumpRunning, pumps only on the current or a closed file, started only with all that is needed, asleep only when caught up. |
| TxPump.CatchesUp | internal/vhostuser/device.go:420-451 | Left alone, the pump of a started ring takes every chain kicked for within six of its steps, hand-over included. |
| TxPump.RetiredKick | internal/vhostuser/device.go:352-359 | A kick on an eventfd that was replaced wakes nobody. |
| TxPump.StepSets | internal/vhostuser/device.go:182-415 | What every step leaves known and closed; a ring runs after a step if and only if the step considers starting it and all it needs is there, or it ran and was not stopped; only a pass over a running ring takes chains. |
| TxPump.HandshakeStarts | internal/vhostuser/device.go:352-401 | The front end's usual messages take a fresh ring through six states, none of them running before the last, to one with one pump, which takes what the guest kicks for. |
| TxPump.TxRing.EvalRing | internal/vhostuser/device.go:373-401 | Starts the ring once memory, size, addresses, kick file and enabling are there: a new pump if none runs, else a poke. |
| TxPump.TxRing.StopRing | internal/vhostuser/device.go:403-415 | Closes the kick file and forgets addresses and enabling; a pump still running is left on a closed file. |
| TxPump.TxRing.SetVringKick | internal/vhostuser/device.go:352-366 | Replaces the kick file and evaluates the ring. |
| TxPump.TxRing.SetVringEnable | internal/vhostuser/device.go:225-241 | Pauses, or resumes through evaluation. |
| TxPump.TxRing.SetMemTable | internal/vhostuser/device.go:276-295 | Stops the ring if memory was mapped before, then evaluates it. |
| TxPump.TxRing.DrainPass | internal/vhostuser/device.go:434-439 | Takes everything on offer if the ring is started, then goes on to read. |
| TxPump.TxRing.PumpExit | internal/vhostuser/device.go:421-431 | Hands over to a fresh pump on the current file if the ring is live. |
| Leases.MatchBinding | internal/gateway/binding.go:37-69 | The binding that applies with the most conditions, then the highest order, or none exactly when none applies. |
| Leases.KeyIff | internal/gateway/binding.go:119-122 | Two clients are the same for the lease table if and only if hardware address and identifier are, case aside. |
| Leases.LeaseTable.ByClient | internal/gateway/binding.go:136-147 | A live lease of the client, or none exactly when it has none. |
| Leases.LeaseTable.InUseByOther | internal/gateway/binding.go:178-186 | Whether another client holds a live lease on the address. |
| Leases.LeaseTable.Allocate | internal/gateway/binding.go:217-233 | Books the first address that is neither skipped nor under a live lease, or nothing exactly when there is none. |
| Leases.LeaseTable.ExpireSweep | internal/gateway/binding.go:188-197 | Removes exactly the leases that ran out. |
| Leases.LeaseTable.ReleaseByPort | internal/gateway/binding.go:166-174 | Removes exactly the leases of the port. |
| Leases.LeaseTable.Release | internal/gateway/binding.go:155-163 | Removes the lease on the address, and says whether there was one. |
| Leases.LeaseTable.Set | internal/gateway/binding.go:149-153 | Books the lease under its address and leaves all others. |
| Dhcp4.Server.SelectIP | internal/gateway/dhcp4.go:223-276 | Performs one selection: binding, then own lease, then requested address, then pool. |
| Dhcp4.Server.ReplyToDiscover | internal/gateway/dhcp4.go:278-284 | Offers what the selection gives, silent when it gives nothing. |
| Dhcp4.Server.ReplyToRequest | internal/gateway/dhcp4.go:286-303 | Acknowledges exactly when the selection gives the address named by option 50, else by ciaddr; refuses otherwise, though the selection stays booked. |
| Dhcp4.SelectsSafely | internal/gateway/dhcp4.go:223-276 | A selection changes no live lease of another client, gives only addresses no other client holds, and books nothing but what it gives. |
| Dhcp4.BoundClient | internal/gateway/dhcp4.go:249-257 | A client with a binding that outranks all others it meets gets the bound address, booked as static, if and only if no other client has a live lease on it, and nothing otherwise. |
| Dhcp4.NewcomerGets | internal/gateway/dhcp4.go:258-275 | A client without binding and lease gets the address it asks for when that is in the pool and free, else the lowest free pool address, and nothing exactly when none is free; the lease booked is the one described. |
| Dhcp4.HoldStep | internal/gateway/dhcp4.go:223-303 | A live lease stays with its holder through every step that neither ends nor outlasts it, and meanwhile nobody else is given the address. |
| Dhcp4.ExclusiveUntilOver | internal/gateway/dhcp4.go:223-303 | Over every run, with binding and pool changes, an address given to one client and later to another was in between released, declined, dropped with its port, or ran out. |
| Dhcp4.DeclinedWithheld | internal/gateway/dhcp4.go:206-211 | In every run a declined address is given to nobody until the hold on it was released, dropped or ran out. |
| Dhcp4.StepLeaves | internal/gateway/binding.go:155-197 | Exactly which leases every step but a selection removes, and that it leaves all others as they are. |
| Dhcp4.PlainClient | internal/gateway/dhcp4.go:258-275 | With pool and bindings fixed since an empty table, a client no binding applies to holds at most one live lease, gets only pool addresses neither the gateway's nor bound, and is refused only when all of those are live-leased. |
| Dhcp4.SameAddress | internal/gateway/dhcp4.go:258-262 | Such a client gets the same address on every re-ask until its lease is over. |

## Left out

- Sockets, taps, AF_XDP, vsock and process start-up (`internal/ports`, `cmd`): input and output over the kernel.
- REST interface and record keeping (`internal/api`, `internal/manager`): would only add easy members.
- The gateway's netstack wrappers, router advertisements and forwards (`internal/gateway/gateway.go`, `craft.go`, `ra.go`, `forwards.go`): thin layers over code that is not part of this model.
- DHCPv6 (`internal/gateway/dhcp6.go`): repeats the DHCPv4 selection without the requested-address path.
- DHCP message parsing and reply bytes: done by an external library; the model takes the decoded fields.
- mmap, descriptor passing and eventfd system calls: memory is an array, eventfds are counters.
- `uvaSlice`: the same search as `gpaSlice` on another base address.
- Packet counters, status and snapshot queries, block reasons: no decision depends on them.
- Spanning-tree convergence time and delivery of topology changes to the root: liveness over lossy links; the model proves what settled networks look like and what every step keeps.
- Sending loop probes and `Switch.Close`: recognising an own probe and shutting the port is modelled.
- Used-ring notifications: `DrainTX` says when one is due; suppression by the driver and the call eventfd are not modelled.
- StormBucket.Allow: exact arithmetic and one call at a time; float rounding and races between callers are not modelled.
- SwitchModel.RunInv: a delivery is one step; a removal coming in between its admission and its learning is `SwitchRaces`, two deliveries interleaving inside `deliver` are not covered.
- TxPump.NoLostWakeup: the drain is one step that takes everything on offer; a front end is taken to restore the index it was given after a stop.
- VhostRx.FrameArrives: needs the written segments to be disjoint; with overlapping guest buffers memory is still exactly the one `TakeChains` states.
- Vrings.Vring.constructor: takes descriptor tables whose ranges do not wrap at 2^64; an out-of-range slice ends the process and with it the ring.
- TxPump.TxRing.DrainPass: counts the chains it takes; the ring's own drain is `Vrings.Vring.DrainTX`.
- Leases.MatchBinding: `EqualFold` and lower-casing are modelled on ASCII, which hardware addresses and hex identifiers are.
- Dhcp4.PlainClient: the placeholder that holds declined addresses is not a client, so its key is excluded.
