# BaleVPN: a verified model of its packet layer, control plane, queues and codec

BaleVPN tunnels IP traffic through voice calls. This project models the four parts of it in which fast or
interleaved code has to agree with a simple specification, and proves that it does.

- **The userspace packet layer** (`Bytes`, `Checksum`, `Packets`, `Rewriting`, `Rebuilding`, `Headers`, `Layout`,
  `Reassembly`, `Provenance`, `NatDispatcher`, `Fragmenting`, `RoundTrip`, `Filter`, `Gateway`, `Leases`,
  `Isolation`): the Internet checksum and its incremental update, packet building and parsing, address rewriting in place, fragmentation and reassembly, and the pool of
  source-address leases built on them. The main results are that an incremental rewrite is byte for byte a
  rebuild, that emitted fragments reassemble in any order to what was sent, and that a packet sent through the
  gateway comes back to the tunnel that sent it.
- **The control plane** (`Runs`, `Activation`, `Calls`, `Watchers`, `Rpc`, `Replies`, `RuleEngine`): each protocol is a
  state machine whose actions are single loads, stores, swaps, lock operations and sends of interleaved threads. `After(run)` is
  the state after any sequence of actions, and the results hold for every run.
- **The data-plane queues** (`SendQueue`, `InboundQueue`, `Framing`, `TunBridge`, `Reactor`): no lost wakeup, order,
  conservation, and a handler table whose deferred removals cannot be observed.
- **The protobuf codec** (`Proto`, `Messages`, `Damaged`, `Utf8`): round trips, decoders that ignore unknown fields, and
  what they make of damaged messages.

How the model is laid out:

- Code that changes buffers and objects is a method or a class, proved against functions on sequences; the theorems
  are lemmas about those functions. The protocols of concurrent threads are state machines on values.
- Bytes and words are bounded integers, and masks and shifts are divisions and remainders. Every wrap-around of the
  source that can matter is written out: 32-bit sums, the 16-bit total length of a reassembled packet, wrapping
  milliseconds, 32-bit call indices, 64-bit varints and tokens.
- Atomic operations are sequentially consistent, each one action; what is done under a lock is split into its
  separate reads where other threads can store between them.
- The clock, the operating system's answers to writes, the events a tunnel reports, the responses a server sends and
  what handlers do when invoked are parameters, and the results hold for all of them.

Where the code does not do what its own documentation says, the model follows the code:

- `push_packed` reports success and discards a packet of 65536 bytes (rtp.rs:55), which `send_raw_frame` admits
  (lib.rs:648). `Framing.SendableExact` gives the exact condition.
- `rpc_call` says that its entry never leaks on cancellation (ws.rs:686-687). It does when the caller drops the call
  while it waits (`Rpc.AbandonedLeavesEntry`), and stays exactly until a response matches it or a drain takes it
  (`Rpc.EntryExact`).
- The access token is said to be read on reconnect (ws.rs:618-620); a loop keeps the token it was started with
  (`RuleEngine.TokenCanGoStale`). `RuleEngine.SetTokenExact` says exactly when a new token reaches the loop.
- A client watcher whose tunnel is gone between the bump of the session count and the upgrade of its reference leaves
  the count raised: `Calls.CountCanLeak`, with `Calls.SessionsConserved` saying exactly when.
- Resetting the session count is said to keep the watchers of an earlier mode from affecting the new one
  (manager.rs:132-134). The end of such a call still lowers the count below the sessions that are live
  (`Calls.StaleEndIsCounted`); `Calls.CountStaysExact` and `Calls.MissedExact` say exactly which steps do.
- No packet aimed at the lease addresses is said to be forwarded (tun_gateway.rs:222-227). The filter looks at the
  destination before the source is rewritten, and for a TCP header length of 0, which neither refuses, the rewriting
  changes the destination (`Isolation.ShortHeaderReachesPeer`). `Isolation.NoPeerToPeer` and
  `Isolation.DestinationKept` give the exact conditions.
- Rewriting an address there and back is not the identity on packets whose IP or TCP checksum field holds 0xffff, an
  encoding no builder produces: `Rebuilding.RewriteUndo` gives the exact condition.
- The signaling gate starts active while `last_push` starts false (ws.rs:630, manager.rs:115): `Activation.GateFollowsRule`
  says exactly when the two agree.
- A lease whose tunnel is dropped without `unregister` is said to drain by itself (tun_gateway.rs:108-110). Its slot
  stays taken for good (`Leases.DiscardLeavesLease`, `Leases.DiscardedKeepsLease`); `Leases.SlotHistory` and
  `Leases.ExhaustedExactly` say exactly who holds the slots and when there is none left.
- Reassembled totals of 65516 to 65535 bytes pass the size limit and are then always dropped, because the rebuilt
  header's length field wraps: `Reassembly.CompleteSound`.

`dafny verify dfyconfig.toml` checks the whole project.

## Model

| member | source | states |
|---|---|---|
| `Checksum.AddWords` | lktunnel-rust/lktunnel/src/nat/ip_packet.rs:22-31 | the adding loop computes seed plus the word sum modulo 2^32, odd last byte padded |
| `Checksum.ChecksumPartial` | lktunnel-rust/lktunnel/src/nat/ip_packet.rs:22-36 | the folded sum, with the wrap-around; with a seed of at most 0xffff and at most 131072 bytes nothing wraps |
| `Checksum.FoldStep` | lktunnel-rust/lktunnel/src/nat/ip_packet.rs:32-34 | one end-around fold strictly decreases the sum and keeps its one's-complement value |
| `Checksum.FoldLoop` | lktunnel-rust/lktunnel/src/nat/ip_packet.rs:38-41 | folding terminates and gives 0 for 0, else ((x-1) mod 65535)+1 |
| `Checksum.FoldCongruent` | lktunnel-rust/lktunnel/src/nat/ip_packet.rs:38-43 | two sums fold to the same value if and only if they agree modulo 65535 and on being zero |
| `Checksum.FoldResumes` | lktunnel-rust/lktunnel/src/nat/ip_packet.rs:49-68 | summing may be resumed from a folded partial sum |
| `Checksum.WordSumConcat` | lktunnel-rust/lktunnel/src/nat/ip_packet.rs:22-31 | summing in even-length pieces equals summing the whole |
| `Checksum.ChecksumFinal` | lktunnel-rust/lktunnel/src/nat/ip_packet.rs:38-43 | the complement of the folded sum |
| `Checksum.InternetChecksum` | lktunnel-rust/lktunnel/src/nat/ip_packet.rs:45-47 | the RFC 1071 checksum of the 32-bit sum, which is that of the data for at most 131072 bytes |
| `Checksum.L4Checksum` | lktunnel-rust/lktunnel/src/nat/ip_packet.rs:49-55 | four chained partial sums are the checksum of IPv4 pseudo-header and segment |
| `Checksum.L4Checksum6` | lktunnel-rust/lktunnel/src/nat/ip_packet.rs:56-69 | the same for the IPv6 pseudo-header, as the checksum of all bytes laid end to end |
| `Checksum.ComputeCsumUpdate16` | lktunnel-rust/lktunnel/src/nat/ip_packet.rs:256-267 | the update's fold loop meets equation 3 of RFC 1624 |
| `Checksum.UpdateConserves` | lktunnel-rust/lktunnel/src/nat/ip_packet.rs:256-278 | an update conserves checksum plus address modulo 65535, and yields 0xffff exactly in one case |
| `Packets.ParsePacket` | lktunnel-rust/lktunnel/src/nat/ip_packet.rs:88-117 | the parser with its checks in the source's order accepts exactly what the specification `Parse` accepts, with those fields |
| `Packets.WriteHeader` | lktunnel-rust/lktunnel/src/nat/ip_packet.rs:178-210 | the 20 header bytes written in place are the header whose checksum is right, and nothing else changes |
| `Packets.BuildTcp` | lktunnel-rust/lktunnel/src/nat/ip_packet.rs:212-254 | 0 and no write exactly for IPv6, unaligned options, oversize or a short buffer; otherwise the packet, written at offset 0 |
| `Packets.BuildUdp` | lktunnel-rust/lktunnel/src/nat/ip_packet.rs:345-366 | the same for UDP, with 0 sent as 0xffff |
| `Packets.RewriteV4Addr` | lktunnel-rust/lktunnel/src/nat/ip_packet.rs:289-343 | in-place rewriting equals the function `Rewrite` on every input, including packets refused after their IP header was changed |
| `Rewriting.RewritePreservesValidity` | lktunnel-rust/lktunnel/src/nat/ip_packet.rs:289-343 | every whole unfragmented packet (options, odd lengths, any protocol) is accepted, carries the new address, has a transport checksum exactly if it had one (a zero UDP checksum stays zero), and each of its checksums verifies after exactly when it did before |
| `Rewriting.RewriteFrame` | lktunnel-rust/lktunnel/src/nat/ip_packet.rs:289-343 | on every input, only the address and the two checksum fields can change |
| `Rewriting.RewriteAccepts` | lktunnel-rust/lktunnel/src/nat/ip_packet.rs:289-343 | exactly which packets are rewritten, on all inputs, and which are left unchanged |
| `Rewriting.RewriteConserves` | lktunnel-rust/lktunnel/src/nat/ip_packet.rs:289-343 | for every accepted packet, fragments included, the header sum is kept and the transport checksum moves with the address modulo 65535 |
| `Rebuilding.RewriteEqualsRebuild` | lktunnel-rust/lktunnel/src/nat/ip_packet.rs:212-343 | rewriting a built TCP or UDP segment's packet gives, byte for byte, the packet built for the new address |
| `Rebuilding.TcpRewriteIsRebuild` | lktunnel-rust/lktunnel/src/nat/ip_packet.rs:212-343 | ... for every request to the TCP builder and either address |
| `Rebuilding.UdpRewriteIsRebuild` | lktunnel-rust/lktunnel/src/nat/ip_packet.rs:289-366 | ... for every request to the UDP builder, including the 0 to 0xffff rule of RFC 768 |
| `Rebuilding.HeaderVerifies` | lktunnel-rust/lktunnel/src/nat/ip_packet.rs:178-210 | every built header verifies |
| `Rebuilding.ParseBuilt` | lktunnel-rust/lktunnel/src/nat/ip_packet.rs:88-210 | every built packet parses back to its fields, whatever follows it in the buffer |
| `Headers.TcpRoundTrip` | lktunnel-rust/lktunnel/src/nat/ip_packet.rs:126-254 | every buildable TCP request parses back as an unfragmented packet between its addresses whose segment, read by position, has its ports, numbers, flags, window, data offset, options and payload and verifies; and the dispatcher delivers it to the flow of its ports |
| `Headers.UdpRoundTrip` | lktunnel-rust/lktunnel/src/nat/ip_packet.rs:139-366 | the same for UDP, with the length field and the payload |
| `Headers.ParseLaidOut` | lktunnel-rust/lktunnel/src/nat/ip_packet.rs:88-117 | any header laid out as RFC 791 says, options included, parses to its fields exactly if its checksum verifies |
| `Headers.ParsedIsLaidOut` | lktunnel-rust/lktunnel/src/nat/ip_packet.rs:88-117 | the parser accepts nothing else |
| `Headers.RouteByCase` | lktunnel-rust/lktunnel/src/nat/dispatcher.rs:189-209 | which packets go to which flow, are refused or passed over |
| `Layout.TcpLayout` | lktunnel-rust/lktunnel/src/nat/ip_packet.rs:178-254 | a built TCP packet byte for byte: identifier 0, fragmentation forbidden, time to live 64 |
| `Layout.UdpLayout` | lktunnel-rust/lktunnel/src/nat/ip_packet.rs:178-366 | the same for UDP |
| `Layout.FragmentLayout` | lktunnel-rust/lktunnel/src/nat/ip_packet.rs:194-210 | an emitted fragment byte for byte: identifier, offset and more-fragments bit |
| `Rebuilding.RewriteUndo` | lktunnel-rust/lktunnel/src/nat/ip_packet.rs:289-343 | rewriting there and back restores every byte if and only if no IP or TCP checksum field holds 0xffff |
| `Reassembly.SortStable` | lktunnel-rust/lktunnel/src/nat/dispatcher.rs:257-257 | the sort is by offset, a permutation, and keeps the order of arrival of parts with the same offset |
| `Reassembly.JoinPlaces` | lktunnel-rust/lktunnel/src/nat/dispatcher.rs:258-276 | in a tiled payload each part stands at its own offset |
| `Reassembly.CompleteSound` | lktunnel-rust/lktunnel/src/nat/dispatcher.rs:255-320 | a stream with all bytes delivers exactly what its sorted parts tile, and is dropped if and only if they leave a gap, overlap, overrun, or total 65516 or more |
| `Reassembly.TableStep` | lktunnel-rust/lktunnel/src/nat/dispatcher.rs:212-253 | every fragment keeps the table's invariant: at most 64 streams, accumulated equals the sum of part lengths and is at most 65535, parts inside the limit |
| `Reassembly.Sweep` | lktunnel-rust/lktunnel/src/nat/dispatcher.rs:447-458 | expiry keeps the invariant, changes no stream, and keeps exactly those of at most 30 seconds on the wrapping clock |
| `Reassembly.Run` | lktunnel-rust/lktunnel/src/nat/dispatcher.rs:173-320 | the invariant holds after every sequence of packets and sweeps, one outcome each |
| `Reassembly.StreamsAreIndependent` | lktunnel-rust/lktunnel/src/nat/dispatcher.rs:212-320 | a stream neither evicted nor expired behaves as if alone, whatever is interleaved |
| `Provenance.OutcomesByHistory` | lktunnel-rust/lktunnel/src/nat/dispatcher.rs:173-320 | over every sequence of packets and sweeps, every fragment is held, rejected or delivered as the fragments of its stream since the one that opened it say; what is delivered is tiled exactly by them, each used once |
| `Provenance.RemovedBecause` | lktunnel-rust/lktunnel/src/nat/dispatcher.rs:212-320 | a stream leaves the table only by its own fragment, as an oldest one of 64 when another begins, or when swept after more than 30 seconds |
| `NatDispatcher.CopyParts` | lktunnel-rust/lktunnel/src/nat/dispatcher.rs:258-282 | the copy loop stays in bounds, succeeds exactly if the parts tile the total, and then holds their concatenation |
| `NatDispatcher.CompleteStream` | lktunnel-rust/lktunnel/src/nat/dispatcher.rs:255-320 | completion on buffers equals its specification |
| `NatDispatcher.NatDispatcher.OldestStream` | lktunnel-rust/lktunnel/src/nat/dispatcher.rs:222-227 | a stream with the earliest arrival |
| `NatDispatcher.NatDispatcher.HandleFragment` | lktunnel-rust/lktunnel/src/nat/dispatcher.rs:212-320 | one fragment on the mutable table is one specified step, evicting an oldest stream when full |
| `NatDispatcher.NatDispatcher.Process` | lktunnel-rust/lktunnel/src/nat/dispatcher.rs:173-210 | one packet is one step of the run, counted |
| `NatDispatcher.NatDispatcher.SweepIdle` | lktunnel-rust/lktunnel/src/nat/dispatcher.rs:447-458 | removes exactly the streams older than the expiry, in wrapping milliseconds |
| `Fragmenting.BuildAndEmit` | lktunnel-rust/lktunnel/src/nat/udp_session.rs:205-257 | emits nothing, one packet, or the fragments, as the size says; the identifier advances modulo 2^16 only with fragments |
| `Fragmenting.PartsTile` | lktunnel-rust/lktunnel/src/nat/udp_session.rs:240-257 | the pieces tile the datagram and join to it |
| `Fragmenting.PartsShape` | lktunnel-rust/lktunnel/src/nat/udp_session.rs:240-257 | pieces are in order, multiples of 8 but the last, at most 976 bytes |
| `Fragmenting.FragmentsParse` | lktunnel-rust/lktunnel/src/nat/udp_session.rs:245-256 | each emitted fragment is at most 1000 bytes and parses to its piece, offset and more-fragments flag |
| `Layout.PiecesAreFull` | lktunnel-rust/lktunnel/src/nat/udp_session.rs:240-257 | every piece but the last has 976 bytes, so the pieces are as few as possible |
| `RoundTrip.SortedUnique` | lktunnel-rust/lktunnel/src/nat/dispatcher.rs:257-257 | two strictly sorted lists of the same parts are the same list |
| `RoundTrip.FragmentsReassemble` | lktunnel-rust/lktunnel/src/nat/udp_session.rs:205-257 | the pieces in any order, amid any other traffic without eviction or expiry, complete exactly on the last arrival and deliver the original datagram |
| `RoundTrip.EmissionReassembles` | lktunnel-rust/lktunnel/src/nat/udp_session.rs:205-257 | the same for the emitted bytes themselves, for every payload of 973 to 65507 bytes |
| `RoundTrip.EmptyDispatcherReassembles` | lktunnel-rust/lktunnel/src/nat/dispatcher.rs:173-320 | an empty dispatcher fed all emitted packets in any order holds each until the last and then delivers the reply |
| `RoundTrip.EmissionByCase` | lktunnel-rust/lktunnel/src/nat/udp_session.rs:205-257 | a reply of at most 972 bytes is one packet that is delivered as it is; a larger one is fragmented; and nothing is emitted exactly beyond 65507 bytes or for other addresses |
| `Gateway.StepKeepsInv` | lktunnel-rust/lktunnel/src/server/tun_gateway.rs:111-175 | every step keeps leases distinct and matched with the handlers, if and only if it does not register a tunnel that still holds a lease |
| `Gateway.StepKeepsLeases` | lktunnel-rust/lktunnel/src/server/tun_gateway.rs:111-175 | a new lease is in 2..254, was free and is the lowest such; no step touches another tunnel's lease |
| `Gateway.RunKeepsInv` | lktunnel-rust/lktunnel/src/server/tun_gateway.rs:111-175 | over every run in which each tunnel is registered once, including tunnels dropped without unregistering |
| `Gateway.DropExact` | lktunnel-rust/lktunnel/src/server/tun_gateway.rs:217-233 | the filter drops exactly what is not IPv4 and what goes to a blocked range |
| `Gateway.OutboundExact` | lktunnel-rust/lktunnel/src/server/tun_gateway.rs:127-152 | a packet goes out, under the lease, exactly if its destination is in no blocked range and the rewriting accepts it, as every whole packet is |
| `Gateway.OwnerExact` | lktunnel-rust/lktunnel/src/server/tun_gateway.rs:275-298 | a packet is for a tunnel exactly when its destination is that tunnel's lease |
| `Gateway.InboundReachesOwner` | lktunnel-rust/lktunnel/src/server/tun_gateway.rs:275-308 | a packet reaches only the tunnel that owns its destination lease |
| `Gateway.InboundExact` | lktunnel-rust/lktunnel/src/server/tun_gateway.rs:275-308 | a packet reaches a tunnel exactly if its destination is that tunnel's lease and the rewriting accepts it |
| `Gateway.InboundDelivers` | lktunnel-rust/lktunnel/src/server/tun_gateway.rs:275-308 | every whole packet to a live lease reaches its tunnel, addressed to 10.8.0.2, its checksums verifying exactly as before |
| `Gateway.SnatRoundTrip` | lktunnel-rust/lktunnel/src/server/tun_gateway.rs:127-308 | over a whole run: out under the lease, and any answer comes back to the same tunnel at the client's address, both with unchanged checksum verdicts |
| `Isolation.NoPeerToPeer` | lktunnel-rust/lktunnel/src/server/tun_gateway.rs:217-288 | what a tunnel gets past the filter is routed to a tunnel exactly if it is a TCP packet with header length 0 whose updated checksum spells 10.8 in the destination |
| `Isolation.DestinationKept` | lktunnel-rust/lktunnel/src/server/tun_gateway.rs:127-142 | rewriting the source keeps the destination, except exactly for two short header lengths when the checksum in its place changes, stated by the two source addresses |
| `Isolation.ShortHeaderReachesPeer` | lktunnel-rust/lktunnel/src/server/tun_gateway.rs:217-233 | a packet that is not kept from another tunnel's lease |
| `Leases.SlotHistory` | lktunnel-rust/lktunnel/src/server/tun_gateway.rs:58-63 | over every run, a slot holds a tunnel exactly if a registration put it there and no unregistration followed |
| `Leases.ExhaustedExactly` | lktunnel-rust/lktunnel/src/server/tun_gateway.rs:111-117 | registration fails exactly when 253 tunnels were given a lease and never unregistered, discarded ones included |
| `Leases.DiscardedKeepsLease` | lktunnel-rust/lktunnel/src/server/tun_gateway.rs:108-117 | the lease of a tunnel dropped without unregistering is never free again |
| `Leases.DiscardLeavesLease` | lktunnel-rust/lktunnel/src/server/tun_gateway.rs:108-117 | a run in which that happens |
| `Filter.BlockedExact` | lktunnel-rust/lktunnel/src/nat/filter.rs:49-82 | the octet tests of the IPv4 destination filter block exactly the addresses with the prefixes of the policy |
| `Gateway.TunGateway.Position` | lktunnel-rust/lktunnel/src/server/tun_gateway.rs:113-116 | the first slot with a given content, or none |
| `Gateway.TunGateway.Register` | lktunnel-rust/lktunnel/src/server/tun_gateway.rs:111-154 | the first free slot, or an error exactly when there is none |
| `Gateway.TunGateway.Unregister` | lktunnel-rust/lktunnel/src/server/tun_gateway.rs:159-175 | frees the tunnel's slot and its handler; no effect on an unknown tunnel |
| `Gateway.TunGateway.RouteInbound` | lktunnel-rust/lktunnel/src/server/tun_gateway.rs:275-308 | one packet of the read loop, rewritten in its buffer, goes where the specification says |
| `Gateway.TunGateway.HandleOutbound` | lktunnel-rust/lktunnel/src/server/tun_gateway.rs:127-152 | what the installed handler writes |
| `Activation.StepKeepsInv` | lktunnel-rust/lktunnel/src/manager.rs:135-172 | every single load, store, swap and hook call keeps: either a thread has yet to reconcile, or what has been read so far is what the inputs say |
| `Activation.GateFollowsRule` | lktunnel-rust/lktunnel/src/manager.rs:107-172 | over every interleaving: when no thread is between store and end of reconcile the last push is the rule, pushes alternate from an activation on, the count is never negative, and the signaling layer follows the rule exactly if it was ever pushed to |
| `Activation.InputsAreLatest` | lktunnel-rust/lktunnel/src/manager.rs:132-152 | the mode, the foreground state and the session count are what the setters were last given |
| `Activation.SetterTakesEffect` | lktunnel-rust/lktunnel/src/manager.rs:119-172 | a setter called in a quiet state stores its argument, a mode change clears the count, and after at most nine steps the gate follows the new inputs, with a push exactly if the decision changed |
| `Activation.GateByCase` | lktunnel-rust/lktunnel/src/manager.rs:161-172 | the decision case by case: a server is active; a client in the foreground without a session is; no other |
| `Activation.Settles` | lktunnel-rust/lktunnel/src/manager.rs:132-172 | from every state a bounded number of steps of the threads under way makes all quiet |
| `Calls.TracesAreOrderly` | lktunnel-rust/lktunnel/src/manager.rs:253-391 | over every interleaving each call's notices are none, Connected, Connected then Disconnected, or Failed; the terminal one is given exactly by a finished watcher that cleared its own slot |
| `Watchers.DisconnectionEnds` | lktunnel-rust/lktunnel/src/manager.rs:354-386 | in every reachable state with the watcher waiting, a disconnection and three steps finish the call: with Disconnected if Connected was given, with Failed if not, if it held the slot, which is then empty; silently otherwise |
| `Watchers.DownIsHeeded` | lktunnel-rust/lktunnel/src/manager.rs:328-386 | over every run, no watcher waits on after a disconnection |
| `Watchers.ConnectionIsTold` | lktunnel-rust/lktunnel/src/manager.rs:330-353 | a first connection of the call in the slot is counted and told |
| `Watchers.SupersededIsSilent` | lktunnel-rust/lktunnel/src/manager.rs:332-345 | that of a superseded call is neither, and its watcher finishes |
| `Watchers.OthersAreIgnored` | lktunnel-rust/lktunnel/src/manager.rs:328-387 | other events are passed over |
| `Watchers.CallIsPlaced` | lktunnel-rust/lktunnel/src/manager.rs:253-270 | a new call takes the slot, hangs up its predecessor, and its watcher comes to wait |
| `Watchers.DropHangsUp` | lktunnel-rust/lktunnel/src/manager.rs:210-216 | dropping the manager empties the slot and hangs its call up |
| `Calls.NeverEvictsSuccessor` | lktunnel-rust/lktunnel/src/manager.rs:311-327 | over any number of steps of other watchers the call in the slot stays there, until it is superseded, dropped or disconnected itself |
| `Calls.SessionsConserved` | lktunnel-rust/lktunnel/src/manager.rs:328-386 | over every run, with resets of the count: it is never negative and never above the calls counted since the last reset; with none left over from before, it is exact, the clamp never acts, and when all watchers are done it is the number that ended without their Disconnected |
| `Calls.MissedExact` | lktunnel-rust/lktunnel/src/manager.rs:132-152 | exactly what every step does to the number of sessions the count misses |
| `Calls.CountStaysExact` | lktunnel-rust/lktunnel/src/manager.rs:132-152 | a step keeps an exact count exact if and only if it is not the end of a call from before the last reset at a count above zero |
| `Calls.StaleEndIsCounted` | lktunnel-rust/lktunnel/src/manager.rs:132-152 | a run in which the end of a call from before a reset takes a live session out of the count |
| `Calls.CountCanLeak` | lktunnel-rust/lktunnel/src/manager.rs:346-350 | such a watcher exists: superseded and hung up between the bump and the upgrade of its reference |
| `Calls.SupersededAreHungUp` | lktunnel-rust/lktunnel/src/manager.rs:210-270 | every call taken from the slot by another is hung up once `place_call` or the drop is done |
| `SendQueue.WakeupsAreNotLost` | lktunnel-rust/lktunnel/src/lib.rs:647-688 | over every interleaving while the sender lives: parked waiters imply a non-empty queue or a sender between pop and drain; packets leave in order; wakeups are conserved |
| `SendQueue.WaitersProgress` | lktunnel-rust/lktunnel/src/lib.rs:1452-1489 | from any such state a possible step drains the waiters or is one of a bounded number before that |
| `SendQueue.WaitersAreDrained` | lktunnel-rust/lktunnel/src/lib.rs:1452-1489 | from every such state a bounded run of the sender and the lock holder alone takes every parked waiter into the sender's hand |
| `SendQueue.CapacityIs64` | lktunnel-rust/lktunnel/src/lib.rs:647-688 | a packet is accepted exactly while fewer than 64 are queued, and a caller parks exactly while 64 are |
| `SendQueue.TeardownWakesAll` | lktunnel-rust/lktunnel/src/lib.rs:1279-1282 | once the sender is aborted, a bounded run of the teardown gives every wakeup |
| `SendQueue.QueueIsSent` | lktunnel-rust/lktunnel/src/lib.rs:1452-1479 | a bounded run of the sender alone pops everything accepted |
| `InboundQueue.NeverStranded` | lktunnel-rust/lktunnel/src/lib.rs:542-572 | a non-empty queue has a pusher about to post, a posted drain or a running one; it never exceeds 8192 |
| `InboundQueue.InOrderAndConserved` | lktunnel-rust/lktunnel/src/lib.rs:542-572 | delivered, in hand and queued packets are in arrival order, and with the dropped, counted exactly, they are all that arrived |
| `InboundQueue.DropsOnlyWhenFull` | lktunnel-rust/lktunnel/src/lib.rs:545-558 | a packet is dropped only by an arrival at a queue of 8192, and is the oldest |
| `InboundQueue.QueueIsDelivered` | lktunnel-rust/lktunnel/src/lib.rs:559-571 | without new arrivals, a bounded run of posts and drains delivers the whole queue in order |
| `Framing.UnpackFrame` | lktunnel-rust/lktunnel/src/rtp.rs:68-80 | the walk over a frame returns the specified packets on every input |
| `Framing.EntryLayout` | lktunnel-rust/lktunnel/src/rtp.rs:54-61 | an entry is the length, high byte first, and the packet |
| `Framing.UnpackPack` | lktunnel-rust/lktunnel/src/rtp.rs:54-80 | unpacking what was packed gives the packets back up to the first empty one: all of them exactly if none is empty |
| `Framing.TruncatedIsPrefix` | lktunnel-rust/lktunnel/src/rtp.rs:68-80 | a truncated frame, built or not, yields a prefix of its packets |
| `Framing.SendableExact` | lktunnel-rust/lktunnel/src/rtp.rs:54-61 | of packets the queue admits, all are sent exactly if none has 65536 bytes |
| `Framing.Sender.PushPacked` | lktunnel-rust/lktunnel/src/rtp.rs:54-61 | refuses exactly when a non-empty batch has no room; empty packets are packed, oversize ones accepted and discarded |
| `Framing.OfferToTracks` | lktunnel-rust/lktunnel/src/lib.rs:1412-1449 | the sweeps offer the frame round the tracks, so the track that takes it is as far from the cursor as offers were declined |
| `Framing.Sender.Flush` | lktunnel-rust/lktunnel/src/lib.rs:1399-1450 | hands the batch to that track, moves the cursor past it and clears the batch, or does nothing without tracks |
| `Framing.Sender.Run` | lktunnel-rust/lktunnel/src/lib.rs:1452-1493 | for every split into bursts the receiver gets the sendable packets in order; a frame over 1275 bytes holds one packet; mid-burst flushes only when the next packet does not fit; every frame goes to its track in turn |
| `TunBridge.UnwrapWrap` | lktunnel-rust/lktunnel/src/tun.rs:330-363 | unwrapping a wire form gives the packet back |
| `TunBridge.WireFamily` | lktunnel-rust/lktunnel/src/tun.rs:330-363 | the address family on macOS, and nothing elsewhere |
| `TunBridge.DrainConserves` | lktunnel-rust/lktunnel/src/tun.rs:178-204 | for every mix of full, partial, would-block, interrupted and failed writes, bytes taken and bytes pending are those that were pending, in order |
| `TunBridge.DrainByCase` | lktunnel-rust/lktunnel/src/tun.rs:178-204 | after any number of full writes, a full device and a partial write end the drain as a success and a failure as a failure, with exactly what is then left |
| `TunBridge.DrainAll` | lktunnel-rust/lktunnel/src/tun.rs:178-204 | full writes leave nothing |
| `TunBridge.InterruptedIsRetried` | lktunnel-rust/lktunnel/src/tun.rs:193-193 | interrupted writes make no difference |
| `TunBridge.Bridge.Drain` | lktunnel-rust/lktunnel/src/tun.rs:178-226 | keeps: written then pending is what was accepted; after success write interest is on exactly if something is pending |
| `TunBridge.Bridge.Inject` | lktunnel-rust/lktunnel/src/tun.rs:153-163 | refuses exactly at 4096 pending, else accepts the wire form whatever the device does |
| `TunBridge.Bridge.Resume` | lktunnel-rust/lktunnel/src/tun.rs:166-170 | read interest is restored only if it was paused |
| `Reactor.Dispatcher.RunBatch` | lktunnel-rust/lktunnel/src/dispatcher.rs:205-235 | with deferred removal a batch does exactly what removal at once would have done |
| `Reactor.BatchLogs` | lktunnel-rust/lktunnel/src/dispatcher.rs:216-235 | what a batch does, event by event: every handler whose token was not deregistered earlier in the batch is invoked once, and then its commands are executed; the tasks of a wakeup likewise |
| `Reactor.Dispatcher.DrainPendingRemoves` | lktunnel-rust/lktunnel/src/dispatcher.rs:125-130 | removes exactly the handlers of tokens that are not live, so never a later registration |
| `Reactor.Dispatcher.AllocToken` | lktunnel-rust/lktunnel/src/dispatcher.rs:194-197 | tokens count up, and start again from 0 where the waker's would come |
| `Reactor.BatchKeepsSound` | lktunnel-rust/lktunnel/src/dispatcher.rs:205-235 | across every batch in which handlers and tasks deregister themselves or others, no handler is invoked and no token given out after its deregistration |
| `Reactor.SkippedOnlyIfDeregistered` | lktunnel-rust/lktunnel/src/dispatcher.rs:226-235 | a token stops being live only by a deregistration, so an event is skipped only for one earlier in the batch |
| `Proto.VarintRoundTrip` | bale-signaling-rust/bale-signaling/src/proto.rs:27-112 | every 64-bit value is read back, from at most 10 bytes |
| `Proto.VarintLayout` | bale-signaling-rust/bale-signaling/src/proto.rs:27-35 | seven bits a byte, the lowest first, the high bit on all but the last, which is not zero unless alone |
| `Proto.SmallTags` | bale-signaling-rust/bale-signaling/src/proto.rs:37-39 | field numbers below 16 make one-byte tags |
| `Proto.FieldsRoundTrip` | bale-signaling-rust/bale-signaling/src/proto.rs:27-129 | every list of varint and bytes fields is read back |
| `Proto.SignedRoundTrip` | bale-signaling-rust/bale-signaling/src/proto.rs:41-42 | the signed conversions are undone by the decoders' casts |
| `Proto.SkipExtends` | bale-signaling-rust/bale-signaling/src/proto.rs:140-157 | a successful skip does not depend on what follows |
| `Proto.ProtoWriter.Varint` | bale-signaling-rust/bale-signaling/src/proto.rs:27-35 | the writer's loop appends the encoding |
| `Proto.ProtoWriter.Bytes` | bale-signaling-rust/bale-signaling/src/proto.rs:45-49 | tag, length and bytes are appended |
| `Proto.ProtoReader.Varint` | bale-signaling-rust/bale-signaling/src/proto.rs:98-112 | the reader's loop stays in the buffer, terminates, consumes what the specification says and drops bits beyond the 64th |
| `Proto.ProtoReader.Advance` | bale-signaling-rust/bale-signaling/src/proto.rs:150-157 | a length that overflows the position is Eof, one beyond the buffer TruncatedLength; nothing is consumed |
| `Proto.ProtoReader.Bytes` | bale-signaling-rust/bale-signaling/src/proto.rs:120-129 | bytes behind their length; on truncation only the length is consumed; which error, in each case |
| `Proto.ProtoReader.Skip` | bale-signaling-rust/bale-signaling/src/proto.rs:140-148 | wire types 0, 1, 2 and 5 are passed over, others refused; which error, in each case |
| `Messages.DecodeRpcResponse` | bale-signaling-rust/bale-signaling/src/ws.rs:200-213 | the decoding loop terminates on every input and returns the specified response, or the error of the first reading that fails |
| `Messages.DecodeRpcConcat` | bale-signaling-rust/bale-signaling/src/ws.rs:200-213 | whole fields followed by more bytes decode one after the other |
| `Messages.RpcIgnoresUnknown` | bale-signaling-rust/bale-signaling/src/ws.rs:200-213 | an unknown field between whole fields changes neither the response nor whether there is one |
| `Messages.RpcErrorIgnoresUnknown` | bale-signaling-rust/bale-signaling/src/ws.rs:200-213 | ... and the error of a broken message only from a truncation to an early end, for a length within the buffer's of 2^64 |
| `Messages.RpcRoundTrip` | bale-signaling-rust/bale-signaling/src/ws.rs:200-213 | a written list of fields decodes to the last of each known one |
| `Messages.UnknownFieldForms` | bale-signaling-rust/bale-signaling/src/proto.rs:140-148 | well-formed fields of all four wire types count as unknown fields when their number is |
| `Messages.ParseCallEntity` | bale-signaling-rust/bale-signaling/src/ws.rs:287-308 | the lenient loop terminates on every input and returns the specified call |
| `Messages.CallIgnoresUnknown` | bale-signaling-rust/bale-signaling/src/ws.rs:287-308 | an unknown field behind whole fields does not change the call, whatever follows, broken or not |
| `Messages.CallRoundTrip` | bale-signaling-rust/bale-signaling/src/ws.rs:274-308 | every call with valid strings and integers in range is read back from its fields, each from its own number |
| `Utf8.ValidExactly` | bale-signaling-rust/bale-signaling/src/proto.rs:131-133 | the strings accepted are exactly the encodings of sequences of Unicode scalar values |
| `Damaged.CutTextIsEmpty` | bale-signaling-rust/bale-signaling/src/ws.rs:293-295 | a text field cut short is empty, and reading goes on behind its length |
| `Damaged.BadTextIsEmpty` | bale-signaling-rust/bale-signaling/src/ws.rs:293-294 | text that is not UTF-8 is empty, and reading goes on behind it |
| `Damaged.EndlessNumberIsZero` | bale-signaling-rust/bale-signaling/src/ws.rs:292-302 | a number that does not end within ten bytes is zero, and reading goes on behind them |
| `Damaged.BrokenUnknownEnds` | bale-signaling-rust/bale-signaling/src/ws.rs:200-308 | an unknown field that is endless, cut short or of an unsupported wire type ends a call, of which what was read so far stands, and a response, which is refused |
| `Damaged.CallWireTypeIgnored` | bale-signaling-rust/bale-signaling/src/ws.rs:291-302 | the wire type of a known field is not looked at |
| `Damaged.DamagedResponseIsRefused` | bale-signaling-rust/bale-signaling/src/ws.rs:203-212 | a response with a field cut short, an endless index or an unsupported wire type is refused |
| `Damaged.RpcWireTypeIgnored` | bale-signaling-rust/bale-signaling/src/ws.rs:205-208 | the wire type of a known field is not looked at here either |
| `Damaged.ErrorIsLenient` | bale-signaling-rust/bale-signaling/src/ws.rs:223-235 | unknown and damaged fields of an error envelope are passed over or take their defaults |
| `Damaged.WrappedIsFirst` | bale-signaling-rust/bale-signaling/src/ws.rs:262-272 | of a wrapped string only the first field with number 1 counts |
| `Messages.RpcErrorRoundTrip` | bale-signaling-rust/bale-signaling/src/ws.rs:223-235 | every error envelope is read back |
| `Rpc.StepKeepsInv` | bale-signaling-rust/bale-signaling/src/ws.rs:657-747 | every step of callers, dispatcher and drains keeps the table's invariant |
| `Rpc.InsertKeepsInv` | bale-signaling-rust/bale-signaling/src/ws.rs:663-670 | with fewer than 2^32 calls no entry is ever overwritten |
| `Rpc.ReturnedCall` | bale-signaling-rust/bale-signaling/src/ws.rs:657-713 | a returned call has no entry; a success or error is that of a response with its own index that came after it entered the table |
| `Replies.ReturnedBecause` | bale-signaling-rust/bale-signaling/src/ws.rs:657-747 | over every run, a call is canceled only if a drain closed its channel and no response was matched with it, times out only by its timer, is not connected only if its send failed, and else returns what its channel holds |
| `Replies.ResponseIsReturned` | bale-signaling-rust/bale-signaling/src/ws.rs:685-713 | in every reachable state a response with a waiting call's index ends, in four steps, with the call returning its reply |
| `Replies.SentIsReturned` | bale-signaling-rust/bale-signaling/src/ws.rs:685-695 | a call that was sent its reply returns it |
| `Replies.DrainCancels` | bale-signaling-rust/bale-signaling/src/ws.rs:738-747 | a drain cancels every waiting call |
| `Replies.TimerTimesOut` | bale-signaling-rust/bale-signaling/src/ws.rs:685-691 | the timer ends a waiting call |
| `Replies.FailedSendReturns` | bale-signaling-rust/bale-signaling/src/ws.rs:673-683 | a failed send ends a call |
| `Replies.StrayResponse` | bale-signaling-rust/bale-signaling/src/ws.rs:702-731 | a response that no call waits for changes no call and no entry |
| `Replies.CallWaits` | bale-signaling-rust/bale-signaling/src/ws.rs:663-685 | a new call comes to wait under an index of its own |
| `Replies.ReplyFromWire` | bale-signaling-rust/bale-signaling/src/ws.rs:703-710 | the reply by the response's bytes: an error wins over a payload, and a response with neither is an empty success |
| `Replies.IndexCounts` | bale-signaling-rust/bale-signaling/src/ws.rs:663-663 | calls are numbered from 1, wrapping at 32 bits |
| `Rpc.MatchIsFinal` | bale-signaling-rust/bale-signaling/src/ws.rs:702-713 | a call resolves at most once |
| `Rpc.ResponsesAreUsedOnce` | bale-signaling-rust/bale-signaling/src/ws.rs:702-713 | no response resolves two calls |
| `Rpc.EntryExact` | bale-signaling-rust/bale-signaling/src/ws.rs:657-747 | over every run, exactly the calls that entered the table and did not return have an entry, until a response or a drain takes it; abandoned calls included |
| `Rpc.AbandonedLeavesEntry` | bale-signaling-rust/bale-signaling/src/ws.rs:685-688 | a run in which a call dropped while it waits leaves its entry |
| `RuleEngine.SlotFollowsRule` | bale-signaling-rust/bale-signaling/src/ws.rs:829-941 | over every interleaving: when no setter is between store and end of evaluate the slot is occupied exactly when the rule says so, even if loops finish; at most one un-aborted loop runs, the slot's |
| `RuleEngine.InputsAreLatest` | bale-signaling-rust/bale-signaling/src/ws.rs:829-854 | the inputs are what the setters were last given |
| `RuleEngine.SetterTakesEffect` | bale-signaling-rust/bale-signaling/src/ws.rs:829-941 | a setter called in a quiet state stores its argument, and if that changed, after at most eight steps a loop has been started, aborted, replaced or kept as the new inputs want it |
| `RuleEngine.SlotByCase` | bale-signaling-rust/bale-signaling/src/ws.rs:877-941 | without a token, disconnected by the user or not wanted, the slot is empty and no loop runs; else it is occupied |
| `RuleEngine.Settles` | bale-signaling-rust/bale-signaling/src/ws.rs:900-941 | from every state a bounded number of steps of the threads under way makes all quiet |
| `RuleEngine.StepKeepsInv` | bale-signaling-rust/bale-signaling/src/ws.rs:829-941 | each single read, store, spawn and abort keeps the invariant behind it |
| `RuleEngine.SetTokenExact` | bale-signaling-rust/bale-signaling/src/ws.rs:829-941 | after a whole set_token the slot's loop was started with the new token if and only if there was none, it already had been, or it had finished and the token changed |
| `RuleEngine.TokenCanGoStale` | bale-signaling-rust/bale-signaling/src/ws.rs:915-941 | a run in which a live loop keeps the old token |

## Left out

- The TCP and UDP session machines behind the NAT: a delivered datagram or segment is the model's output.
- The receive-window fan-out, idle UDP and TCP sweeping and statistics of the NAT dispatcher.
- `ipv6.rs`: the same checksum on another fixed layout.
- Rewriting.RewritePreservesValidity: requires an unfragmented packet with a header of at least 20 bytes and a full transport header, the packets for which transport checksums can be verified at all; `Rewriting.RewriteFrame` and `Packets.RewriteV4Addr` cover every other input.
- Gateway.RunKeepsInv: each tunnel is registered once, as the manager does; `Gateway.StepKeepsInv` says exactly which step breaks the invariant otherwise.
- The destination filter for IPv6, closing the gateway, and the poll loop around its reads.
- The server manager's watcher and admission map: the client's protocol without supersession or counting.
- WebSocket `CallEnded` handling: it only hangs a tunnel up, whose consequences are among the arbitrary events of the model.
- Activation.GateFollowsRule: session counts are unbounded integers, without 64-bit overflow.
- SendQueue.WakeupsAreNotLost: a channel send is one action, without the moment between taking a permit and storing the value.
- The retry delay in `flush_with_backpressure`, and the case that no track ever accepts a frame.
- The reading side of the TUN bridge and its pausing, except `Resume`.
- Reactor.Dispatcher.RegisterSource: fewer than 2^64 - 2 registrations, and the poll reports only sources registered at that time.
- The other decoders of the signaling messages, which repeat the codec's results.
- Subscription handling of unmatched responses, the run loop's sessions, reconnection and backoff.
- Weak memory orderings: see the note on atomic operations above.
- Liveness that depends on timers, peers or scheduling.
- WebRTC and LiveKit signaling, QUIC, SOCKS5, sockets and device set-up, the user interfaces and bindings, authentication and contact requests, and configuration files.
