# Dual-Stack Mobile IPv6: a verified model

A mobile node keeps its home addresses, one IPv4 and one IPv6, while it moves between
networks. It tells its home agent its current care-of address in a binding update, and
both ends tunnel the traffic of the home addresses to each other, inside UDP where a NAT
is in between (RFC 6275 and RFC 5555). This project models the two programs and the ping
that goes with them, and proves what they promise:

* **The home agent** (`HomeAgent*.dfy`). NAT probes, binding updates and the sweep after
  60 silent seconds drive the record of each mobile node. Every change to the kernel, a
  tunnel, a route in table 251 or 252, a rule of priority 887 or a UDP encapsulation, is
  one request, and a handoff is a list of requests. The XFRM states are shared by all nodes.
  After every event of a run the kernel holds for each mobile node exactly what its record
  says, if and only if no event is one of three that are named; a move is make-before-break
  after every single request exactly if the last change of the node's tunnels was not a move
  from a NATed IPv4 to an IPv6 address. `HomeAgentLedger.dfy` tells each record by the
  events alone: when the node was last heard, the slot of each of its interfaces, the way
  its traffic goes; and `HomeAgentService.dfy` tells by them what the kernel forwards and
  encapsulates, and which events change it. `HomeAgentWitnesses.dfy` reaches each failing
  case by a concrete run, and `HomeAgentEncap.dfy` carries the encapsulation requests back to the
  XFRM entries of `UdpEncapsulation.dfy`.
* **The mobile node** (`Mobile*.dfy`, `TunnelPool.dfy`, `TunnelLru.dfy`). The handoff on
  the other side, over a pool of kernel tunnels that is a least-recently-used cache of 25
  slots for each tunnel type. `MobileSystem.dfy` has the runs of the node over the real pool,
  with the times of a clock: the pool never gives up a tunnel that is in use while the clock
  moves on between handoffs, and otherwise does so in one case exactly. `MobileLedger.dfy`
  tells the record, the tunnels in use and all the updates sent by the events alone.
  `MobileNode.dfy` is the class that works on that pool; `MobileWitnesses.dfy` reaches the
  failing cases.
* **Between the two** (`BindingUpdateMessage.dfy`, `SequenceWindow.dfy`): the message the
  mobile node prints is read back by the home agent, and over any number of updates, none of
  them ten or more late, an overtaken one has no effect exactly if none straddles a multiple
  of 65536.
* **The mobility option codec** (`MobilityOptions.dfy`, `MobilityRoundTrip.dfy`,
  `MobilityRules.dfy`), the
  **XFRM entries of UDP encapsulation** (`UdpEncapsulation.dfy`), **DHCP options**
  (`DhcpOptions.dfy`) and **netlink attributes** (`NetlinkAttributes.dfy`).
* **Ping** (`Checksum.dfy`, `SquareRoot.dfy`, `AckWindow.dfy`, `ReplyTable.dfy`,
  `TokenBucket.dfy`): the incremental checksum, Newton's square root, the 16-bit
  acknowledgement window, the duplicate bitmap and the pacing.

Code that works step by step is a method, with the loops and fields it has in C, proved
against a function of the old state; the properties are lemmas about that function, over
all inputs and all runs. `HomeAgent.Agent` and `MobileNode.Node` issue their kernel requests
one at a time and log them, so the lemmas about lists of requests are about every
intermediate state of the kernel.

## What is assumed

* The kernel carries out its requests; what it refuses by itself is modelled: adding a route
  that is there, encapsulating twice, deleting what is not there. It hands out interface
  indexes that are not in use; a kernel that gives back a tunnel it has between the same two
  addresses, as the repository's `ipip.c` does, would do so exactly if some node is bound to
  the address (`KnownIsBound`), so at a rebinding to the same care-of address through the
  shadow slot, and for two nodes with one address. Deleting a tunnel deletes the routes into
  it. A second IPv4 rule is refused as a duplicate, a second IPv6 rule is not, as their
  netlink flags have it. Only in `UdpEncapsulation` may any add fail.
* Home addresses are distinct, and there are at most ten mobile nodes. The unused entries of
  `mns[]` are left out.
* What the model cannot compute is a parameter: the clock, the translated source of a probe
  (`getnatsrc`), whether a probe's checksum is right, whether `bu_worker` is due, what
  `send_probe` comes to, which adds the kernel refuses, and what lies in memory after the
  11 entries of `mh_opts_dup_ok` (`beyond`: the two types past its end are repeatable or not
  as that memory has it).
* The clock of the tunnel pool stands below 0x7fffffff. Nothing else is asked of it for what
  is installed and routed; that the tunnels in use survive is said of clocks that do not go
  back.
* `Addresses` holds words as a little-endian machine does.

## What turned out not to hold

Each of these is proved as an exact condition, in both directions; the lemmas named
`...Reached` give a run from the start that gets there.

* A probe that turns the active slot from un-NATed to NATed under the same care-of address
  slips past the snapshot test (`ProbeInstalled`, `OnePortFlips`, `RunFlips`,
  `SilentFlipReached`; ha.c:995-1002).
* A binding update for 0.0.0.0 matches the unused slot 0 and makes a bound node look unbound
  with its tunnels still up (`UpdateInstalled`, `NoAddressReached`; ha.c:1070-1078).
* XFRM states are found by the local and the NAT address alone. A node that binds through a
  NAT address another bound node is encapsulated with finds the state there, gets no policies,
  and is recorded as encapsulated all the same; whichever of the two stops first takes the
  state away (`UpdateInstalled`, `StepKeeps`, `RunInvExactly`, `SharedNatReached`; ha.c:1109,
  1133, 1278, whose results are not looked at).
* Leaving a NATed IPv4 address for an IPv6 one leaves table 251 and its rules behind, so the
  next move is not make-before-break (`MoveLeftovers`, `SecondMove`, `RunLeftovers`, `AnyMove`,
  `LeavingNatReached`; the `else if` at ha.c:1444).
* The mobile node going home straight from IPv4 deletes its routes under a source address
  they were not added with, so they stay, and the next move's adds are turned down for each
  route that is still there (`HandoffRouted`, `RunRouted`, `StaleRoutes`, `StaleRoutesReached`;
  mn.c:528-535).
* Taking an IPv4 address without encapsulation (type 2) while one with it is in use leaves
  the old encapsulation in place (`HandoffInstalled`, `RunInstalled`, `OldEncapReached`;
  mn.c:760-768). Of do_handoff's arguments only: no caller in the repository passes type 2.
* With a clock of whole seconds, a handoff can give up the tunnel in use: exactly if the
  segment is full, was asked for at one time only, lacks the new address, and has that tunnel
  first (`RunMakesBeforeBreak`, `TieEviction`, `TieReached`; tunlctl.h:84-92).
* After the 16-bit sequence number wraps, an overtaken update from before is acted on:
  exactly if it straddles a multiple of 65536 (`OvertakenIsIgnored`, `FollowsNewest`,
  `OvertakenHasNoEffect`, `WrapReached`). The runs meant are those in which no update comes
  ten or more numbers late, or leads by more than 65526 into another round of the number,
  which the window would take for late.
* `advance_ntransmitted` means to give up `acked` at 32768 unacknowledged probes, but
  subtracts the words as ints: it does so exactly if `acked` is below 32768, and what follows
  is not what the comment there says (`WindowExceeded`, `GivenUp`, `GoesRound`).
* After a full output queue that is to be tried again, waiting the time `pinger` returns is
  enough exactly if the interval is at most 10 ms (`WaitSuffices`).
* `llsqrt(a)` is the integer square root of a + 1, so one too many when a + 1 is a square, and
  the largest argument comes back unchanged (`Llsqrt`).
* The DHCP lookup takes the byte after an overload option's value for the value, so it goes
  on into the file and sname fields exactly as the bits of the next option's code, or of
  END, say (`OverloadReads`; dhcp.h:408-416).
* An encapsulation that fails half-way deletes entries it did not make, if there were any
  (`FailureRestores`).

## Model

| member | source | states |
|---|---|---|
| Addresses.MapUnmap | mn/common.h:507-524 | mapping an IPv4 address and unmapping are inverse, and exactly the v4-mapped addresses unmap |
| Addresses.IpSpecial | dsmip-ha/dual-stack-mobile-ipv6-lh/ha.c:79-92 | an address is special iff it differs from the configured one in at most three bits |
| HomeAgentKernel.ThroughoutIsEveryPrefix | dsmip-ha/dual-stack-mobile-ipv6-lh/ha.c:1386-1465 | delivery throughout a list of requests is delivery after every non-empty prefix of it, in the kernel that all nodes share |
| HomeAgentKernel.ConfinedFrame | dsmip-ha/dual-stack-mobile-ipv6-lh/ha.c:1065-1466 | requests made for one mobile node leave tunnels, routes, rules and policies of every other one as they are |
| HomeAgentKernel.StatesSurvive | dsmip-ha/dual-stack-mobile-ipv6-lh/ha-xfrm.h:425-500 | an XFRM state, which all nodes share, outlives every list of requests that does not stop that very pair of addresses, port included |
| HomeAgentEncap.Start | dsmip-ha/dual-stack-mobile-ipv6-lh/ha-xfrm.h:587-661 | an encapsulation request of the kernel model is what `start_udp_encap` leaves in the two XFRM databases of all nodes, and fails exactly when it does |
| HomeAgentEncap.Stop | dsmip-ha/dual-stack-mobile-ipv6-lh/ha-xfrm.h:674-738 | ... and the same of `stop_udp_encap` |
| HomeAgentRuns.UpdateInstalled | dsmip-ha/dual-stack-mobile-ipv6-lh/ha.c:1058-1466 | after a binding update the kernel holds exactly what the record says, iff the update neither names 0.0.0.0 for a bound node nor starts an encapsulation whose state another one has; the only tunnels and states that come are its own |
| HomeAgentRuns.UpdateBinds | dsmip-ha/dual-stack-mobile-ipv6-lh/ha.c:1058-1466 | an accepted update binds to just the address it names, an unknown IPv4 address changes nothing, and the home address ends the binding |
| HomeAgentRuns.ProbeInstalled | dsmip-ha/dual-stack-mobile-ipv6-lh/ha.c:982-1018 | a probe never redirects traffic; with the shadow slot the record goes on saying what is installed, iff the probe is not a silent flip |
| HomeAgentRuns.OnePortFlips | dsmip-ha/dual-stack-mobile-ipv6-lh/ha.c:995-1018 | if all probes come from one port, the silent flips are just the turns from un-NATed to NATed under the active address |
| HomeAgentRuns.ExpireInstalled | dsmip-ha/dual-stack-mobile-ipv6-lh/ha.c:778-838 | the clean-up of a node leaves it unbound, with none of its tunnels, routes or encapsulation, and no other tunnel gone |
| HomeAgentRuns.StepKeeps | dsmip-ha/dual-stack-mobile-ipv6-lh/ha.c:976-1491 | one event keeps the invariant of all nodes together, iff it is neither a silent flip, nor an update for 0.0.0.0, nor one that takes a node behind a NAT address another bound node is encapsulated with |
| HomeAgentRuns.BootInv | dsmip-ha/dual-stack-mobile-ipv6-lh/ha.c:1500-1530 | the invariant holds once the list of mobile nodes is read |
| HomeAgentRuns.RunInv | dsmip-ha/dual-stack-mobile-ipv6-lh/ha.c:910-1491 | over every run without those events each node has exactly the tunnels, routes, policies and XFRM state its `active` says, and no tunnel or state exists that does not belong to just one node |
| HomeAgentHistory.RunInvExactly | dsmip-ha/dual-stack-mobile-ipv6-lh/ha.c:910-1491 | that holds after every single event of a run iff none of its events is one of the three |
| HomeAgentHistory.KnownIsBound | dsmip-ha/dual-stack-mobile-ipv6-lh/tnls/ipip/ipip.c:214-226 | the kernel has a tunnel between the two addresses already iff some node is bound to the remote one |
| HomeAgentHistory.RunFlips | dsmip-ha/dual-stack-mobile-ipv6-lh/ha.c:995-1018 | after any run from start-up whose probes come from one port, a probe is a silent flip iff it turns the active slot from un-NATed to NATed under its address |
| HomeAgentHistory.RunLeftovers | dsmip-ha/dual-stack-mobile-ipv6-lh/ha.c:1367-1465 | after any legal run from start-up table 251 holds something for a node iff the last event that changed its tunnels left a NATed IPv4 address for IPv6, and its IPv6 rules of priority 887 number exactly those moves |
| HomeAgentHistory.AnyMove | dsmip-ha/dual-stack-mobile-ipv6-lh/ha.c:1159-1465 | after any legal run from start-up a move between foreign addresses is make-before-break iff that last event was not such a move |
| HomeAgentWitnesses.SilentFlipReached | dsmip-ha/dual-stack-mobile-ipv6-lh/ha.c:995-1002 | a node bound without NAT whose next probe is NATed: the invariant, kept so far, is broken |
| HomeAgentWitnesses.NoAddressReached | dsmip-ha/dual-stack-mobile-ipv6-lh/ha.c:1070-1078 | a bound node that registers 0.0.0.0 breaks it |
| HomeAgentWitnesses.SharedNatReached | dsmip-ha/dual-stack-mobile-ipv6-lh/ha-xfrm.h:606-616 | two nodes behind one NAT address: the second one's update breaks it |
| HomeAgentWitnesses.LeavingNatReached | dsmip-ha/dual-stack-mobile-ipv6-lh/ha.c:1431-1465 | a legal run after which a move between two IPv6 addresses interrupts delivery |
| HomeAgentLedger.RunTold | dsmip-ha/dual-stack-mobile-ipv6-lh/ha.c:976-1491 | after any run from start-up, whatever goes wrong in it, a record is what the events tell: number and time of the last accepted update, for each interface a slot with what its last probe said and no slot else, and the way traffic goes |
| HomeAgentLedger.SlotsKept | dsmip-ha/dual-stack-mobile-ipv6-lh/ha.c:840-846 | until the node is dropped an interface keeps its slot, and no two interfaces share one |
| HomeAgentService.RunServes | dsmip-ha/dual-stack-mobile-ipv6-lh/ha.c:1079-1465 | after any legal run both home addresses are forwarded into tunnels to the address the last events say, and encapsulated iff its probe met a NAT: towards that NAT's address and port, from the tunnel's own local end, or from the second address if the NAT's is special |
| HomeAgentService.UpdateChanges | dsmip-ha/dual-stack-mobile-ipv6-lh/ha.c:1058-1466 | after any legal run an update changes the kernel iff it turns the way traffic goes, as the events tell it; otherwise the record is the same but for number and time; one for a foreign address that turns it is answered with new tunnels on its link |
| HomeAgentService.SweepExactly | dsmip-ha/dual-stack-mobile-ipv6-lh/ha.c:1486-1491 | a sweep after any legal run unbinds a node, and frees all it owns, iff its last accepted update is over 60 s old; otherwise its record, tunnels, routes, rules and policies are as they were |
| HomeAgentHandoff.MakeBeforeBreak | dsmip-ha/dual-stack-mobile-ipv6-lh/ha.c:1159-1276 | in a move between foreign addresses both home addresses lead into a live tunnel after every single request, iff table 251 held nothing for the node; then no route add collides, else both temporary ones do, and beyond that just an encapsulation whose state is taken is turned down |
| HomeAgentHandoff.MoveLeftovers | dsmip-ha/dual-stack-mobile-ipv6-lh/ha.c:1431-1465 | a move leaves table 251 and its rules empty, iff it does not go from a NATed IPv4 to an IPv6 address; then it leaves both routes and one more IPv6 rule |
| HomeAgentHandoff.SecondMove | dsmip-ha/dual-stack-mobile-ipv6-lh/ha.c:1367-1465 | of two moves in a row, the first of which keeps record and kernel in step, the second is make-before-break iff the first did not go from NATed IPv4 to IPv6 |
| HomeAgent.Agent.constructor | dsmip-ha/dual-stack-mobile-ipv6-lh/ha.c:1500-1530 | starts in the boot state, with the invariant of all nodes |
| HomeAgent.Agent.FindMn | dsmip-ha/dual-stack-mobile-ipv6-lh/ha.c:1050-1053 | finds the first record with the home address, or none |
| HomeAgent.Agent.NifMap | dsmip-ha/dual-stack-mobile-ipv6-lh/ha.c:840-846 | gives an interface the index it is known by, or the next free one |
| HomeAgent.Agent.MnStateCleanup | dsmip-ha/dual-stack-mobile-ipv6-lh/ha.c:778-838 | makes exactly the requests of the clean-up, in order, and resets the record |
| HomeAgent.Agent.NatProbe | dsmip-ha/dual-stack-mobile-ipv6-lh/ha.c:979-1018 | takes the probe into the record as the reference step does, and makes no request |
| HomeAgent.Agent.BindTo4 | dsmip-ha/dual-stack-mobile-ipv6-lh/ha.c:1079-1288 | makes exactly the requests of a move to IPv4, in order, with new interface indexes |
| HomeAgent.Agent.BindTo6 | dsmip-ha/dual-stack-mobile-ipv6-lh/ha.c:1367-1465 | makes exactly the requests of a move to IPv6, in order, with a new interface index |
| HomeAgent.Agent.BindingUpdate | dsmip-ha/dual-stack-mobile-ipv6-lh/ha.c:1048-1466 | takes kernel and records where the reference step takes them, and tells whether the update was stale |
| HomeAgent.Agent.Sweep | dsmip-ha/dual-stack-mobile-ipv6-lh/ha.c:1486-1491 | cleans up just the silent nodes, in table order |
| HomeAgent.Agent.Turn | dsmip-ha/dual-stack-mobile-ipv6-lh/ha.c:935-1491 | a turn of the main loop is a run of its events, a stale update skips the sweep, and the invariant of all nodes is kept if its events are sound |
| MobilityOptions.OptPad | dsmip-ha/dual-stack-mobile-ipv6-lh/ha.c:284-287 | the least padding that brings an offset to the alignment xn+y |
| MobilityOptions.MhTryPad | dsmip-ha/dual-stack-mobile-ipv6-lh/ha.c:289-346 | writes the header and the padded options, and never more than two pieces for each it was given |
| MobilityOptions.MhLength | dsmip-ha/dual-stack-mobile-ipv6-lh/ha.c:348-357 | adds up to the length of the message the pieces make |
| MobilityOptions.MhOptParse | dsmip-ha/dual-stack-mobile-ipv6-lh/ha.c:185-235 | on all bytes ends without reading past the message, and fails, counts and records as the reference parser does |
| MobilityRoundTrip.PaddedMessage | dsmip-ha/dual-stack-mobile-ipv6-lh/ha.c:289-346 | the padded message is the header and then every option unchanged, at an offset with its required alignment, and a multiple of 8 long |
| MobilityRoundTrip.NoPaddingAfterBauth | dsmip-ha/dual-stack-mobile-ipv6-lh/ha.c:305-345 | nothing is padded after Binding Authorization Data, which the parser would reject |
| MobilityRoundTrip.PadThenParse | dsmip-ha/dual-stack-mobile-ipv6-lh/ha.c:185-346 | padding and parsing succeeds iff no option repeats that may not and Binding Authorization Data is last; then the count and all recorded offsets are where the options were placed |
| MobilityRules.AllInPlace | dsmip-ha/dual-stack-mobile-ipv6-lh/ha.c:289-346 | in a padded message every option lies at the offset the standards want for its type, with the length they give it |
| MobilityRules.LengthsChecked | dsmip-ha/dual-stack-mobile-ipv6-lh/ha.c:185-235 | a defined option of another length makes the parser fail wherever it is met |
| MobilityRules.ParsesJust | dsmip-ha/dual-stack-mobile-ipv6-lh/ha.c:185-235 | a padded message parses iff nothing but the mobile network prefix is repeated, save where memory behind the table of repeatable types allows it, and authorization data is last |
| BindingUpdateMessage.SendBu | mn/mn.c:217-236 | the message is 32 bytes long, its length field says so, and its hand-made padding is what the padder would put there |
| BindingUpdateMessage.RecvBu | dsmip-ha/dual-stack-mobile-ipv6-lh/ha.c:611-630 | reads a message as the reference reader does, rejecting what is no update or does not parse |
| BindingUpdateMessage.UpdateRoundTrip | dsmip-ha/dual-stack-mobile-ipv6-lh/ha.c:613-628 | what the mobile node sends is read as the same sequence number modulo 65536 and the same care-of address, and a mapped IPv4 address unmaps to itself |
| BindingUpdateMessage.UpdateBytes | mn/mn.c:217-236 | the update on the wire byte by byte, but for the address |
| BindingUpdateMessage.ReceivesJust | dsmip-ha/dual-stack-mobile-ipv6-lh/ha.c:611-630 | of a message of well-formed options the reader makes something iff it is a binding update, parses and has an alternate care-of address, and then the number of its header and the first such address |
| SequenceWindow.MessageArrives | mn/mn.c:226-236 | the numbers and addresses the window reasons about are those the home agent reads from the bytes sent |
| SequenceWindow.NumberedNumbers | mn/mn.c:82 | the list of updates a run of the mobile node leaves is numbered as the window takes it, below 65536 |
| SequenceWindow.OvertakenIsIgnored | dsmip-ha/dual-stack-mobile-ipv6-lh/ha.c:1058-1063 | with any number of updates, one that is up to nine numbers behind the newest is ignored, the record unchanged, iff no multiple of 65536 lies between the two |
| SequenceWindow.ArrivalGoesBack | dsmip-ha/dual-stack-mobile-ipv6-lh/ha.c:1058-1063 | while below 65536 updates were sent, an arrival sets the home agent's number back iff it is ten or more behind; up to nine behind it changes nothing at all |
| SequenceWindow.FollowsNewest | dsmip-ha/dual-stack-mobile-ipv6-lh/ha.c:1058-1063 | over every run of any length in which no update comes ten or more numbers late, or more than 65526 ahead in another round, `last_bu_seq` is throughout the highest number to arrive since the last expiry, modulo 65536, iff no overtaken update straddles a multiple of 65536 |
| SequenceWindow.OvertakenHasNoEffect | dsmip-ha/dual-stack-mobile-ipv6-lh/ha.c:1058-1063 | over every such run the record is after every event what it would be had the overtaken updates never arrived, iff none straddles a multiple of 65536 |
| SequenceWindow.WrapReached | dsmip-ha/dual-stack-mobile-ipv6-lh/ha.c:1058-1063 | three arrivals at the first wrap, two numbers apart at most, of which the overtaken one has an effect |
| SequenceWindow.SafeInOneRound | dsmip-ha/dual-stack-mobile-ipv6-lh/ha.c:1058-1063 | below 65536 updates, none ten or more late, no overtaken one has an effect and the number is the highest to arrive |
| TunnelPool.Pool.constructor | mn/tunlctl.h:94-107 | starts with an empty pool in order and no tunnel |
| TunnelPool.Pool.FindTunnel | mn/tunlctl.h:53-92 | though it stops at the first free slot, finds the key's slot if there is one, else the first free slot, else the first least recently used one, which must go |
| TunnelPool.Pool.TunnelAdd | mn/tunlctl.h:216-236 | keeps occupied slots a prefix of each segment, keys and tunnels distinct and the pool's tunnels exactly the kernel's; a tunnel is made only if the key has none |
| TunnelPool.Pool.TnlCleanup | mn/tunlctl.h:109-129 | no tunnel is left in the kernel |
| TunnelLru.LeastRecentlyUsed | mn/tunlctl.h:71-92 | after any sequence of adds at increasing times a segment holds exactly the keys asked for most recently, each with its time |
| TunnelLru.PreviousSurvives | mn/tunlctl.h:216-236 | the tunnel an add returned is still there, the same, after the next add of its type |
| TunnelLru.TieEviction | mn/tunlctl.h:84-92 | under a clock that stands still, the latest tunnel is given up iff the segment is full, lacks the key and holds one time only, and that tunnel is in its first slot |
| MobileHandoff.MoveTo6Is | mn/mn.c:564-683 | a move to IPv6, request by request, ends with the old binding's entries gone and the new one's in place |
| MobileHandoff.MoveTo4Is | mn/mn.c:742-865 | a move to IPv4, request by request, ends with the old binding's entries gone and the new one's in place |
| MobileRuns.HandoffInstalled | mn/mn.c:368-884 | after a handoff the tunnels, home address option and encapsulation are exactly what the care-of type says, iff it does not go from type 1 to type 2 |
| MobileRuns.HandoffRouted | mn/mn.c:368-884 | no add of a handoff from a routed state collides, and table 252 follows the binding afterwards iff the handoff does not go home from IPv4 |
| MobileRuns.MakeBeforeBreak | mn/mn.c:564-861 | in a move between foreign addresses both home addresses lead into a live tunnel after every single request iff the pool gives up no tunnel in use; table 251 and its rules are empty again in any case |
| MobileRuns.StaleRoutes | mn/mn.c:505-535 | in a move away from home the routes still in table 252 stay, unless the pool gives up their tunnels, and for each that stays the new one is turned down |
| MobileRuns.HandoffAnnounces | mn/mn.c:452-879 | a handoff sends updates for the new address only, one or ten and one more from IPv4 to IPv6, numbered on without a gap |
| MobileRuns.CleanupLeavesNothing | mn/mn.c:1583-1666 | the clean-up leaves no tunnel, route, encapsulation or home address option, whatever the binding |
| MobileSystem.RunTunnels | mn/tunlctl.h:216-236 | after any run over the real pool, whatever the clock does, the kernel's tunnels are just the pool's, and the updates sent are numbered from 1 without a gap |
| MobileSystem.RunInstalled | mn/mn.c:368-884 | the kernel holds what the care-of type says after every event of a run over the real pool, iff no handoff of it goes from type 1 to type 2 |
| MobileSystem.RunRouted | mn/mn.c:368-884 | table 252 is in step with the binding after every event of such a run iff it never goes home straight from IPv4, and then no add of the run is turned down |
| MobileSystem.RunEnds | mn/mn.c:1583-1666 | ending the program after such a run leaves nothing in the kernel, stale routes included |
| MobileSystem.RunMakesBeforeBreak | mn/tunlctl.h:71-92 | after any run with a clock that does not go back, a move between foreign addresses delivers after every single request iff it meets no tie in the real pool; if the clock moves on between handoffs it meets none |
| MobileLedger.RunTold | mn/mn.c:368-884 | after any run the node is bound to the address of the last handoff that went anywhere, over pool tunnels from there to the home agent; its updates are, in order, one or ten for each of these, one more from IPv4 to IPv6, and one for each due tick away from home |
| MobileLedger.HandoffTells | mn/mn.c:385-450 | after any run a handoff for an interface not preferred or not known, for the address in use or for the IPv4 home address changes neither kernel nor pool nor binding and sends nothing; any other binds to just its target |
| MobileLedger.HandoffNotes | mn/mn.c:385-409 | moving or not, a handoff writes down the address for its own interface only, an IPv4 one just if it is of type 1 |
| MobileLedger.TickTells | mn/mn.c:1878-1910 | after any run without type 2 the periodic update sends nothing at home and away just one update, for the address the last one was for, which is the one installed |
| MobileWitnesses.StaleRoutesReached | mn/mn.c:505-535 | away on IPv4, straight home and away again: both new routes are turned down and the old ones lead into the first address's tunnels |
| MobileWitnesses.OldEncapReached | mn/mn.c:760-768 | from a type 1 to a type 2 address: the encapsulation of the first is left |
| MobileWitnesses.TieReached | mn/tunlctl.h:84-92 | twenty-six handoffs in one second, after which the next move meets a tie |
| MobileSystem.BootIs | mn/mn.c:1535-1562 | the mobile node starts with these invariants |
| MobileNode.Node.constructor | mn/mn.c:1535-1562 | starts in the boot state over an empty pool |
| MobileNode.Node.TunnelFor | mn/tunlctl.h:216-236 | the kernel sees at most the victim deleted and then the tunnel, and has exactly the pool's tunnels |
| MobileNode.Node.BindTo6 | mn/mn.c:564-683 | makes exactly the requests of a move to IPv6, in order, with the tunnel the pool answers |
| MobileNode.Node.BindTo4 | mn/mn.c:742-861 | makes exactly the requests of a move to IPv4, in order, with the tunnels the pool answers |
| MobileNode.Node.DoHandoff | mn/mn.c:368-884 | at whatever time, any number of times: makes the handoff's requests in order with the tunnels the pool answers, ends with the record and the pool of the reference step, and refuses what it refuses; what is installed agrees with the record iff it does not go from type 1 to type 2 |
| MobileNode.Node.BuWorker | mn/mn.c:1878-1910 | sends one update for the current address if it is due and the node is away |
| MobileNode.Node.MnCleanup | mn/mn.c:1583-1666 | makes the clean-up's requests in order; if the kernel held what the record says, nothing is left |
| UdpEncapsulation.SelectorsDistinct | mn/mn-xfrm.h:569-584 | the selectors of one encapsulation are all different, so their policies do not get in each other's way |
| UdpEncapsulation.Xfrm.StartUdpEncap | mn/mn-xfrm.h:586-679 | whatever adds fail, returns 0 iff none fails and no entry was there, and then exactly one state and all policies are added; otherwise the states are unchanged, and the policies too if none of these was there |
| UdpEncapsulation.Xfrm.StopUdpEncap | dsmip-ha/dual-stack-mobile-ipv6-lh/ha-xfrm.h:674-738 | none of the policies, nor the state, is left, and nothing else is touched |
| UdpEncapsulation.FailureRestores | mn/mn-xfrm.h:670-679 | the clean-up of a failed start changes no policy iff none of its selectors was there before |
| UdpEncapsulation.StopUndoesStart | mn/mn-xfrm.h:682-747 | stopping after a successful start restores both databases exactly |
| UdpEncapsulation.PoliciesApart | dsmip-ha/dual-stack-mobile-ipv6-lh/ha-xfrm.h:606-661 | two mobile nodes at one home agent have no policy selector in common |
| UdpEncapsulation.EncapsulatesJust | mn/mn-xfrm.h:569-660 | the policies of one encapsulation match just the packets from the home address that are Mobile IPv6 signalling, echo, ICMP, TCP or UDP at the mobile node, and all those to the home address at the home agent |
| DhcpOptions.GetOption | mn/dhcp.h:378-434 | ends on every content of the three fields, and a value it returns lies wholly inside one of them behind its code |
| DhcpOptions.EndOption | mn/dhcp.h:440-449 | finds the END the options lead to |
| DhcpOptions.AddOptionString | mn/dhcp.h:457-469 | either refuses and changes nothing, or puts the option before a new END and leaves every other field as it was |
| DhcpOptions.AddThenGet | mn/dhcp.h:378-469 | after any adds to a field that held just END, the lookup returns the value of the first option added with the code that fitted, and nothing iff there is none |
| DhcpOptions.LookItems | mn/dhcp.h:378-434 | in each of the three fields the lookup passes padding and other options, and finds the first option with the code, or goes on from the END |
| DhcpOptions.OverloadReads | mn/dhcp.h:408-426 | behind an overload option the lookup goes on, and into the other fields as the bits of the byte after its value say |
| NetlinkAttributes.Message.AddattrL | mn/rtnl.h:543-560 | appends the attribute at the aligned end iff it fits the bound, else changes nothing |
| NetlinkAttributes.Message.Addattr32 | mn/rtnl.h:528-541 | appends the four bytes as `addattr_l` would |
| NetlinkAttributes.BuiltGrown | mn/rtnl.h:528-560 | over every run of appends the length stays 4-aligned and within the bound, and what was there before untouched; the attributes that fitted follow one another |
| NetlinkAttributes.RefusedJust | mn/rtnl.h:549-552 | an append is refused iff header, data and padding would pass the bound |
| NetlinkAttributes.ParseRtattr | mn/rtnl.h:610-622 | ends on all bytes, and fills the table as the reference parser does |
| NetlinkAttributes.BuildThenParse | mn/rtnl.h:528-622 | after any run of appends the parser consumes the attributes exactly and has, for each type in the table, the last attribute appended with it |
| NetlinkAttributes.LengthReadsBack | mn/rtnl.h:555-556 | the stored length is the attribute's own iff that is below 65536 |
| Checksum.InCksum | cngictrl/ping/ping.c:1311-1341 | the complement of the end-around-carry sum of the words, if the 31-bit accumulator has room, which it never leaves |
| Checksum.ChecksumLoop | mn/dhcp.h:224-251 | folding until nothing is left gives the same |
| Checksum.TwoStep | cngictrl/ping/ping.c:1335-1338 | two folding steps are enough for every 31-bit sum |
| Checksum.OverflowExactly | cngictrl/ping/ping.c:1311-1333 | the lengths and starting sums for which no contents overflow; 65536 bytes from 0 never do |
| Checksum.ChecksumVerifies | cngictrl/ping/ping.c:1154-1155 | a packet that carries its checksum sums to 0 |
| Checksum.ChecksumIncremental | cngictrl/ping/ping.c:1157-1164 | summing with a span zeroed and folding the span in with the complement as start is summing it all |
| Checksum.ByteOrderIndependent | mn/dhcp.h:240-247 | the stored bytes do not depend on the machine's byte order, odd last byte included |
| Checksum.SendProbe | cngictrl/ping/ping.c:1124-1164 | the packet that goes out is the same whether its time stamp was summed first or folded in late |
| Checksum.SummedVerifies | cngictrl/ping/ping.c:1130-1164 | that packet verifies |
| SquareRoot.Llsqrt | cngictrl/ping/ping.c:881-894 | without overflow, r with r*r <= a+1 < (r+1)*(r+1) for every a from 1 up to the last but one; other arguments come back as they are |
| AckWindow.Ping.Acknowledge | cngictrl/ping/ping_common.h:165-175 | updates `acked` and `pipesize` as the reference step does |
| AckWindow.Ping.AdvanceNtransmitted | cngictrl/ping/ping_common.h:177-183 | updates the count and `acked` as the reference step does |
| AckWindow.RunInStep | cngictrl/ping/ping_common.h:159-183 | over every timely run the 16-bit `acked` is the highest probe acknowledged, and `in_flight` is exactly how many probes follow it |
| AckWindow.StepInStep | cngictrl/ping/ping_common.h:165-183 | one timely step keeps that, and `pipesize` is the greatest distance seen |
| AckWindow.TakesReply | cngictrl/ping/ping_common.h:165-175 | a reply to one of the last 32768 probes moves `acked` to it iff it is up to 32767 ahead as words go, or the count's word is 32768 or more above `acked` |
| AckWindow.OldIgnored | cngictrl/ping/ping_common.h:165-175 | a reply to a probe 32768 or more behind changes nothing |
| AckWindow.WindowExceeded | cngictrl/ping/ping_common.h:177-183 | at 32768 unacknowledged probes `acked` is given up iff it is below 32768 |
| AckWindow.GivenUp | cngictrl/ping/ping_common.h:165-183 | once given up, a reply is taken iff the count is 65535 modulo 65536, and after the next probe nothing counts as in flight |
| AckWindow.GoesRound | cngictrl/ping/ping_common.h:159-183 | not given up, the window goes round: after 65536 probes without a reply nothing counts as in flight |
| ReplyTable.Statistics.Probe | cngictrl/ping/ping.c:1136 | clears the probe's bit, and the bits of all recent probes go on telling whether they are answered |
| ReplyTable.Statistics.Gather | cngictrl/ping/ping.c:737-792 | from 16-bit number and bitmap alone counts the reply as first, repeated or damaged, as the set of answered probes has it |
| ReplyTable.ChangeIs | cngictrl/ping/ping_common.h:32-36 | setting or clearing a bit of the table changes that bit only |
| ReplyTable.RunCounts | cngictrl/ping/ping.c:737-792 | over every run in which replies answer one of the last 65535 probes, each probe counts at most once, `nreceived <= ntransmitted`, and replies are received, repeated or damaged |
| ReplyTable.RunTallies | cngictrl/ping/ping.c:737-792 | the reference counters told by the events: probes sent, probes some good reply answers, good replies beyond the first, damaged ones |
| TokenBucket.Ping.Pinger | cngictrl/ping/ping.c:362-472 | takes the bucket where the reference step does, through all its outcomes, and returns its waiting time |
| TokenBucket.CallConserves | cngictrl/ping/ping.c:374-472 | no outcome makes tokens; a probe that leaves takes an interval's worth, and `ntransmitted` counts just those and the hard errors |
| TokenBucket.RateBound | cngictrl/ping/ping.c:362-472 | in any stretch of any run, sends times interval is at most the time passed plus preload times interval |
| TokenBucket.WaitExactly | cngictrl/ping/ping.c:368-420 | after a call too early or a probe that left, a later call gets to send iff there is anything still to be sent and the returned time is over |
| TokenBucket.WaitSuffices | cngictrl/ping/ping.c:393-472 | waiting the returned time lets the next call send, if anything is still to be sent, iff the call did not find a full queue, not yet for too long, at an interval above 10 ms |
| TokenBucket.NeverTooMany | cngictrl/ping/ping.c:368-370 | over every run with a count and no deadline, no more probes than that are sent or taken to be |
| TokenBucket.FloodExactly | cngictrl/ping/ping.c:386-392 | without an interval a call is held back iff the last was under 10 ms ago with as many probes out as preloaded, and then just until the 10 ms are over |
| TokenBucket.FailureEmpties | cngictrl/ping/ping.c:457-471 | after a hard error the next call sends iff a whole interval is over |
| TokenBucket.RefundIsWhole | cngictrl/ping/ping.c:440-450 | after a full socket buffer or an ICMP error the next call may send at once, and is asked to wait 10 ms |
| TokenBucket.RunBacksOff | cngictrl/ping/ping.c:420-439 | after any run a call that finds the queue full for the nth time since a probe left waits half an interval, 10 to 500 ms, iff n such waits are below the linger time, else the probe is taken to be lost |

## Left out

- Sockets, ioctls, netlink transport, `system()`, configuration files, logging, signals: each kernel call is its effect on the model's kernel.
- Failures of kernel requests other than those of UDP encapsulation, and interrupted programs.
- The adds of the home agent's encapsulation that the kernel refuses for reasons of its own: `HomeAgentKernel` refuses what is there; `UdpEncapsulation` has every pattern of refusals.
- A probe for an unknown home address: the source looks into the record past the end of its table before it rejects the probe (ha.c:982-990), the model rejects it first.
- Binding acknowledgements, the return value of `mn_state_cleanup` (not initialised in the source) and the clean-up of all nodes after the loop, which repeats that of one.
- The records of a move are written at its end in the model; the source writes the same fields between its requests.
- HomeAgentService.SweepExactly: is about one sweep; the source runs it at every turn, but a turn with a stale update skips it (`continue` at ha.c:1060), as `HomeAgent.Agent.Turn` says.
- The mobile node's rules of priority 870, its interface addresses, NAT probes, gateways and the choice of the interface: they do not touch the routes modelled. Their tables differ between add and delete (mn.c:512, 645, 724).
- BindingUpdateMessage.RecvBu: a message without the address option, or with one cut off, gives nothing; the source would follow a null pointer or read past the message.
- The flag bytes of a binding update: on a little-endian machine they come out as 00 C0, not where section 6.1.7 of RFC 6275 has the A and H bits. They are modelled as the code has them.
- Interface indexes, times and counters are unbounded integers, save where a word's width is the point: sequence numbers, `acked`, `rta_len`, the checksum and the square root.
- ReplyTable.Statistics.Gather: the bit operations are arithmetic on bytes; round-trip times are left out.
- TokenBucket.Ping.Pinger: resends without an error are one attempt; adaptive intervals, the halting of ping and `interval * preload` beyond an int are left out; the clock counts whole milliseconds, so differences of microseconds are not rounded.
- DhcpOptions.OverloadReads: for an overload option behind a first option of one byte, as a message type is; the source takes the first option's length for that of the overload. For others the lookup is proved to end and to stay in its field.
- DhcpOptions.EndOption: asks for an END to get to, as the source has no bound there.
- `xfrm_state_add` and the binding of the home address option's policy are two flags in `MobileKernel`; priorities and templates of policies other than those of UDP encapsulation are left out.
- The mn/ha.c and dsmip-ha mn.c copies, the control shell, the test variants of the XFRM code, the kernel module `udpencap.c`, ARP, neighbour discovery and the adaptive and flood modes of ping.
