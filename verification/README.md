# HushWire tunnel core: a Dafny model

This project models the platform-independent core of HushWire, a small VPN, and
proves what its parts promise: the session protocol with its rekeys and replay
window, the byte formats and the TCP framing, the routing decision and the route
plan, the maintenance scheduler, the Linux gateway lifecycle, and the
start/stop/call protocol of the C interface.

| file | source it models |
|---|---|
| `Bits.dfy`, `Replay.dfy` | `src/replay.rs`: the sliding bitmap and the set of counters it stands for |
| `Wire.dfy`, `TcpFraming.dfy` | `src/auth.rs`, `src/tcp_transport.rs` and the Swift decoder: packet and stream formats |
| `Prefixes.dfy`, `Routing.dfy`, `RoutePlan.dfy` | `src/router.rs` and the Swift route planner |
| `Noise.dfy`, `Sessions.dfy`, `SessionManager.dfy` | `src/noise.rs` and the `SessionManager` of `src/engine.rs` |
| `Network.dfy`, `NetworkRuns.dfy`, `Guarantees.dfy` | any number of managers over a lossy, duplicating, reordering network |
| `Windows.dfy`, `InFlight.dfy` | which packets in flight open, and what a rekey does to them |
| `Engine.dfy`, `EngineEffects.dfy`, `EngineGuarantees.dfy`, `EngineHistory.dfy` | the `Engine` of `src/engine.rs`: its calls, what each of them does, and what it promises |
| `EngineRuns.dfy`, `Fleet.dfy`, `Arrival.dfy`, `Crossing.dfy` | several engines over one wire, a packet that gets through, and two engines that start at the same time |
| `Scheduler.dfy`, `SchedulerRuns.dfy`, `SchedulerPeers.dfy` | `src/scheduler.rs`: one tick, its runs, and what it does for each peer |
| `Gateway.dfy`, `GatewayRuns.dfy` | `src/gateway.rs` |
| `Ffi.dfy` | `src/ffi.rs`, locking only |

Every file of the source that updates objects in place is a class here, and each
of its methods is proved equal to a function on values; the lemmas are about
those functions and about whole runs of them. What a function decides is stated a
second time, without naming it and with every limit written out, in
`EngineEffects` and `SchedulerPeers`.

## How the model is built

- **Ideal cryptography.** A handshake is named by the ephemeral keys of its two
  sides, which are never drawn twice. A response is accepted only for the first
  message that it answers; a ciphertext authenticates only under the key,
  direction and nonce that made it (Noise Protocol Framework, revision 34,
  sections 5.1, 9 and 11.4). Packet headers, identifiers and unauthenticated
  bytes are chosen freely by the network. Session and handshake identifiers may
  collide, except where a lemma says that they do not.
- **One clock.** The code takes `now` from its caller in some places and reads
  the clock in others; the model has one instant per call, and time does not go
  back in a run. A session and the candidate that stores it share an instant.
- **Peers are numbers.** A peer's name is the number of its node; the engine
  keeps a map from configured names to numbers.
- **Order of hash maps.** Where the code takes the first matching entry of a hash
  map, the model takes any matching one.
- **Machine integers.** 64-bit words are integers below 2^64 with shifts and bit
  operations written out; counters that saturate or stop do so explicitly.
- **Failure and randomness** are parameters: whether the cipher accepts to seal,
  what is drawn, which system command fails, how many bytes a socket takes.
- **Network steps.** In `Network` every manager call is an atomic step, so the
  calls of one engine operation may be interleaved with any others.
  `EngineRuns` shows that each engine operation is a sequence of steps of its own
  node, with the clock and all other nodes unchanged, and `Fleet` that any history
  of calls of any engines over one wire is a run of the network. So the results
  about runs apply to engines, and they give the end-to-end result: an IP packet
  that is written at one engine was given to another, and is written once.

## What turned out not to hold

- Crossed initiations: the two sides may both accept. The side with the smaller
  identifier accepts the other's first message exactly when it arrives after its
  own exchange is finished (`WinnerAcceptsIff`, `BothMayAccept`). Both sides
  still end on the session of the smaller identifier.
- Splitting the default route changes the decision for an address exactly when the
  default route is the longest included match of that address and an excluded
  default route is its longest excluded match (`SplitChangesDecisionIff`). The
  configuration loader refuses such an exclusion.
- Removing the last gateway leaves forwarding as it was before the first apply, under
  any failures, exactly when it was `1`; or it was `0` and no apply succeeded while the
  file for the original value was half-written; or no apply succeeded
  (`ForwardingRestoredIff`). Any other value is forgotten, and forwarding stays on. So is
  `0`, when a first apply fails to write the file and to delete it again, and a second
  one succeeds over the empty file (`HalfWrittenFileForgets`).
- The previous session lets packets in flight survive one rekey
  (`InFlightSurvivesRekey`), not two: when the session that replaced theirs is replaced
  in turn, they are lost, although their own has not expired (`InFlightLostAtSecondRekey`).
- The order of the routes decides a lookup exactly when two different routes are
  eligible for the address and both are of maximal length (`OrderMattersIff`).
  Different canonical prefixes exclude that (`LookupIgnoresPeerOrder`); two
  spellings of one network do not (`OrderMattersForLooseNetworks`).
- `stopping` is false while a stop waits exactly when another stop finished while
  it waited and none took effect since (`WaitingWithoutStoppingIff`); the
  protection of the engine rests on the call counter alone. As long as no stop
  finishes beside a waiting one, a waiting stop does mean that the runtime is
  stopping (`WaitingMeansStopping`).
- A duplicate first message leaves the responder's sessions alone exactly when
  the peer is not both passive and marked for recovery (`DuplicateInit`); in
  states the engine can reach it is not.

## Model

| member | source | states |
|---|---|---|
| Replay.ReplayWindow.WouldAccept | src/replay.rs:31-44 | true exactly for a counter that is new to the set of accepted ones: nothing accepted yet, above the highest, or less than 4096 below it and not in the set |
| Replay.ReplayWindow.MarkAuthenticated | src/replay.rs:48-68 | refines the set: the same answer as the pre-check, and the bitmap afterwards represents the set with the counter added |
| Replay.ReplayWindow.BitIsSet | src/replay.rs:75-79 | reads the bit of one distance |
| Replay.ReplayWindow.SetBit | src/replay.rs:81-85 | sets the bit of one distance and no other |
| Replay.ReplayWindow.ShiftOlder | src/replay.rs:87-109 | for every amount: the bit at distance i is the old bit at i - amount, or 0 below it |
| Replay.OneBitShifted | src/replay.rs:99-108 | what one source word contributes to each destination bit, across word boundaries |
| Replay.OneWordShifted | src/replay.rs:99-108 | one loop iteration extends the shifted part by exactly one source word |
| Replay.AcceptedSetIsTheRun | src/replay.rs:48-68 | after any calls, the accepted set is exactly the counters whose call returned true |
| Replay.NoCounterAcceptedTwice | src/replay.rs:48-68 | no counter is accepted twice in any run, 2^64-1 included |
| Wire.EncodeHandshake | src/auth.rs:80-92 | the bytes are the encoding of the handshake packet |
| Wire.EncodeTransport | src/auth.rs:94-106 | the bytes are the encoding of the transport packet, counter big-endian |
| Wire.WireLayout | src/auth.rs:80-106 | the bytes of each packet: version 3, kind, eight bytes of identifier, counter most significant byte first; and which packets are long enough |
| Wire.PlaintextLayout | src/auth.rs:58-62 | data is marked 0, keepalives 1 |
| Wire.EncodeThenDecode | src/auth.rs:80-142 | decoding an encoding gives the packet back if and only if it is well formed |
| Wire.DecodeThenEncode | src/auth.rs:108-142 | every accepted byte string is the encoding of what it decodes to |
| Wire.EncodeTransportPlaintext | src/auth.rs:144-149 | the type byte comes first, inside the authenticated part |
| Wire.PlaintextRoundTrip | src/auth.rs:144-157 | a plaintext decodes to a type and payload if and only if it is their encoding |
| TcpFraming.PendingWrites.EnqueueFrame | src/tcp_transport.rs:49-72 | a frame is queued whole or refused with nothing changed; refused exactly when too long or over the limit |
| TcpFraming.PendingWrites.FlushTo | src/tcp_transport.rs:74-97 | for every schedule of short writes: exactly which bytes are taken, what stays pending, and when it is an error |
| TcpFraming.FlushEndsAt | src/tcp_transport.rs:74-97 | a flush takes all that is offered up to the first write that makes no progress, and ends there in an error for a write of nothing or a failure, otherwise quietly |
| TcpFraming.FlushNeverStops | src/tcp_transport.rs:74-97 | without such a write it takes all that is offered and is no error |
| TcpFraming.FlushFailsIff | src/tcp_transport.rs:74-97 | it fails if and only if a write of nothing or a failure comes before everything is taken |
| TcpFraming.FrameLayout | src/tcp_transport.rs:49-72 | the prefix is the length as a big-endian number of two bytes |
| TcpFraming.PendingWrites.Compact | src/tcp_transport.rs:99-111 | drops only bytes the socket has taken |
| TcpFraming.ConnState.QueueFrame | src/tcp_transport.rs:201-209 | written plus pending bytes are the encodings of exactly the accepted frames; whether the frame is accepted, how many bytes are written, and which error is returned |
| TcpFraming.ConnState.TryReadFrame | src/tcp_transport.rs:153-199 | for every chunking: the frames returned are those of the received stream in order, and none that is complete stays behind; what is received, and exactly when it is which error |
| TcpFraming.FillEndsAt | src/tcp_transport.rs:160-183 | reading receives every chunk before the outcome that ends it, and is an error exactly when the peer closed there or the read failed |
| TcpFraming.SwiftReader.DeliverTCPFrames | macos/SystemExtension/PacketTunnel/HushWireNetworkTransport.swift:213-238 | delivers all complete frames and keeps the incomplete rest |
| TcpFraming.TcpFrame | macos/SystemExtension/PacketTunnel/HushWireNetworkTransport.swift:240-245 | the same encoding as the Rust side |
| TcpFraming.FramesAccountForStream | src/tcp_transport.rs:153-199 | splitting loses no byte and stops only at an incomplete frame |
| TcpFraming.FramesOfChunks | src/tcp_transport.rs:153-199 | what a reader sees does not depend on where the stream was cut |
| TcpFraming.StreamRoundTrip | src/tcp_transport.rs:49-209 | from any prefix of the written stream a reader gets a prefix of the accepted frames, and every frame that has arrived in full |
| TcpFraming.PacketsSurviveTheStream | src/tcp_transport.rs:49-209 | packets written as frames come back as the packets they were |
| TcpFraming.ReaderSeesAcceptedFrames | src/tcp_transport.rs:45-209 | writer and reader composed, with bytes still pending |
| Prefixes.LongestIsMaximum | src/router.rs:98-114 | the longest containing prefix is the maximum over all containing ones |
| Prefixes.CanonicalMatchIsUnique | src/router.rs:98-114 | two canonical prefixes of one length that share an address are equal |
| Prefixes.ContainsIff | src/router.rs:98-114 | a prefix contains an address exactly when they agree in all bits but the last |
| Routing.NewRouter | src/router.rs:61-96 | fails exactly when a prefix repeats, naming the first repetition; otherwise both tables are the stable sorts |
| Routing.SortIsStable | src/router.rs:86-94 | the sort orders by length, keeps every route, and keeps equal lengths in configuration order |
| Routing.LookupIsBest | src/router.rs:98-114 | lookup is none exactly when no route beats its peer's exclusions, otherwise the first longest such route |
| Routing.LookupIgnoresPeerOrder | src/router.rs:98-114 | with canonical, distinct prefixes the answer does not depend on the order |
| Routing.OrderMattersIff | src/router.rs:98-114 | two orders of the same routes answer differently if and only if two different eligible routes share the maximal length |
| Routing.TopInFrontIsFound | src/router.rs:86-114 | every eligible route of maximal length is the answer in some order |
| Routing.OrderMattersForLooseNetworks | src/router.rs:98-114 | a table of two spellings of one network, where the order does decide |
| Routing.EndpointExceptionPeers | src/router.rs:126-142 | one peer per endpoint address that the routes themselves would capture, and every such address |
| RoutePlan.SplitChangesDecisionIff | macos/SystemExtension/Shared/HushWireConfigurationPolicy.swift:209-220 | exactly when two /1 routes decide differently from the default route |
| RoutePlan.SplitKeepsEveryDecision | macos/SystemExtension/Shared/HushWireConfigurationPolicy.swift:209-220 | never, for any address, when no exclusion is a default route |
| RoutePlan.ExcludedDefaultBreaksTheSplit | macos/SystemExtension/Shared/HushWireConfigurationPolicy.swift:209-220 | with the default route as the only included and the only excluded route, every address changes its decision |
| RoutePlan.RouterAgreesWithPlanner | macos/SystemExtension/Shared/HushWireConfigurationPolicy.swift:475-496 | for a single peer the Rust lookup finds a route if and only if the Swift decision is the tunnel |
| RoutePlan.HostExclusion | macos/SystemExtension/Shared/HushWireConfigurationPolicy.swift:446-473 | a /32 exclusion changes the decision for its own address only |
| RoutePlan.ContainsPrefixIff | macos/SystemExtension/Shared/HushWireConfigurationPolicy.swift:148-150 | an exclusion is covered by a route exactly when every address of it is in the route |
| RoutePlan.ProtectedExclusions | macos/SystemExtension/Shared/HushWireConfigurationPolicy.swift:446-473 | succeeds exactly when every exclusion is covered; takes only the endpoint out of the tunnel |
| RoutePlan.ValidateDNS | macos/SystemExtension/Shared/HushWireConfigurationPolicy.swift:423-444 | accepts exactly servers other than the endpoint that are tunnelled under the final exclusions |
| RoutePlan.NewNetworkPolicy | macos/SystemExtension/Shared/HushWireConfigurationPolicy.swift:47-80 | which policies exist: the servers are the distinct given ones, all usable, and only where the mode allows them |
| RoutePlan.DistinctServers | macos/SystemExtension/Shared/HushWireConfigurationPolicy.swift:47-80 | the servers of a policy are the given ones, each once, in the order of their first mention |
| RoutePlan.ValidateProtectedPolicy | macos/SystemExtension/Shared/HushWireConfigurationPolicy.swift:383-421 | accepts exactly one peer behind an IPv4 endpoint with recovery configured |
| RoutePlan.MakePlan | macos/SystemExtension/Shared/HushWireConfigurationPolicy.swift:245-381 | a plan exists exactly for plannable configurations; in every mode no IPv4 peer endpoint enters the tunnel, every other decision is the configured one, every DNS server is tunnelled; with the installed half routes too, unless a default route is excluded |
| RoutePlan.InstalledRoutesKeepThePlan | macos/SystemExtension/Shared/HushWireConfigurationPolicy.swift:209-220 | the installed half routes give all the guarantees of the plan |
| Noise.SealThenOpen | src/noise.rs:84-138 | what one side seals the other opens, once, with the same message |
| Noise.LiveSession.Encrypt | src/noise.rs:84-102 | the counter is spent even when the cipher fails, and 2^64-1 is never used |
| Noise.LiveSession.Decrypt | src/noise.rs:106-138 | authentication before the window moves; a bad inner type byte fails after it has moved |
| Sessions.EncryptKeepsInvariant | src/engine.rs:76-99 | keeps: ids distinct over all slots, pending and candidate exclusive, candidate implies cached answer, recovery preference implies no session |
| Sessions.DecryptKeepsInvariant | src/engine.rs:101-178 | the same, through expiry and promotion |
| Sessions.StoreKeepsInvariant | src/engine.rs:180-210 | the same |
| Sessions.CachedKeepsInvariant | src/engine.rs:212-231 | the same, with an expired entry and its candidate gone |
| Sessions.AcceptKeepsInvariant | src/engine.rs:242-268 | the same |
| Sessions.StartKeepsInvariant | src/engine.rs:272-338 | the same |
| Sessions.FinalizeKeepsInvariant | src/engine.rs:340-366 | the same |
| Sessions.InvalidateKeepsInvariant | src/engine.rs:390-402 | the same |
| SessionManagers.SessionManager.EncryptForPeer | src/engine.rs:76-99 | drops what expired, seals with the active session only; keeps the invariant |
| SessionManagers.SessionManager.DecryptTransport | src/engine.rs:101-178 | the one session with this identifier decrypts, whatever slot it is in; a candidate that succeeds is promoted |
| SessionManagers.SessionManager.StoreResponderCandidate | src/engine.rs:180-210 | refuses an identifier in use, otherwise stores candidate and answer and clears the local attempt |
| SessionManagers.SessionManager.CachedResponderResponse | src/engine.rs:212-231 | the remembered answer to exactly the same first message |
| SessionManagers.SessionManager.AcceptInboundInitiation | src/engine.rs:242-268 | recovery preference of a passive peer first, then the smaller identifier |
| SessionManagers.SessionManager.StartOrRetryHandshake | src/engine.rs:272-338 | retransmission, waiting, or a new exchange |
| SessionManagers.SessionManager.FinalizeInitiator | src/engine.rs:340-366 | the pending exchange is dropped even when the answer is bad |
| SessionManagers.SessionManager.InvalidatePeer | src/engine.rs:390-402 | everything of the peer goes, and it is marked for recovery |
| SessionManagers.SessionManager.SessionIdInUse | src/engine.rs:418-425 | whether some slot holds this identifier |
| SessionManagers.SessionManager.InstallActiveSession | src/engine.rs:427-434 | the session that was active becomes the previous one |
| NetworkRuns.RunKeepsOk | src/engine.rs:76-434 | every state of every run of any number of nodes keeps the network invariant |
| Guarantees.LogIsHistory | src/engine.rs:76-434 | the log of a run only grows and time does not go back |
| Guarantees.InstalledAfterStored | src/engine.rs:340-366 | an initiator installs a session only after its peer stored it |
| Guarantees.PromotedAfterInstalled | src/engine.rs:153-178 | a responder promotes a session only after its initiator installed it |
| Guarantees.OneInstallPerInitiation | src/engine.rs:340-366 | one pending initiation installs at most one session |
| Guarantees.SessionHasPartner | src/engine.rs:43-50 | what each stored session says about the other side |
| Guarantees.SameKeyTwoEnds | src/engine.rs:43-50 | two sessions under one key are the two ends of one session |
| Guarantees.ReachableManagers | src/engine.rs:43-50 | the manager invariant in every reachable state |
| Guarantees.OpenedAtMostOnce | src/engine.rs:101-178 | no ciphertext is opened twice in a run, across any number of rekeys |
| Guarantees.OpenedWasSealed | src/noise.rs:84-138 | what is opened was sealed before, by exactly one cipher call, with that plaintext |
| Guarantees.DeliveredWasSent | src/engine.rs:101-178 | a delivered message was encrypted by the named peer for this node and was not delivered before |
| Guarantees.NoncesIncrease | src/noise.rs:84-102 | nonces under one key and direction strictly increase and stay below 2^64-1 |
| Guarantees.OnlyActiveEncrypts | src/engine.rs:76-99 | in any run, a transport packet that a node sends is sealed by the active unexpired session of its peer with the next nonce, or is the confirmation of a session being installed |
| Guarantees.ReceiveOnly | src/engine.rs:153-178 | no step changes the send counter of a previous or candidate session |
| Guarantees.RetransmissionIsIdentical | src/engine.rs:282-293 | two transmissions of one exchange carry the same bytes, at least 5 s apart and less than 30 s |
| Guarantees.AtMostSixSends | src/engine.rs:282-293 | one exchange is transmitted at most six times in any run |
| Guarantees.SixSendsHappen | src/engine.rs:272-338 | for every number up to six a run in which one exchange is sent that often, five seconds apart |
| Windows.FreshIffTimely | src/replay.rs:31-44 | in every reachable state the window of a session takes a counter exactly when, under its key, that nonce was not opened yet and none that is 4096 or more newer was |
| InFlight.InFlightOpensIff | src/engine.rs:101-178 | in any later state of any run a sealed packet opens at its peer exactly when the peer still holds its key in some slot, unexpired, and the packet was neither opened before nor overtaken by 4096; what is opened is the sealed message |
| InFlight.OldKeyOutlivesRekey | src/engine.rs:427-434 | over any run, the session that a rekey replaces is kept for receiving until it expires, while the new one is active |
| InFlight.InFlightSurvivesRekey | src/engine.rs:59-64 | so a packet sealed under the replaced session, before or after, opens exactly when it is in time |
| InFlight.InFlightLostAtSecondRekey | src/engine.rs:427-434 | and it does not open after the live session that replaced its own was replaced in turn |
| Engines.Engine.ProcessOutboundIp | src/engine.rs:530-575 | an IP packet: parse, route, seal or start a handshake |
| Engines.Engine.ProcessInboundTransport | src/engine.rs:578-715 | a frame: answer, finalize or deliver |
| Engines.Engine.DecodeHandshakeInit | src/engine.rs:856-877 | finds the peer exactly when a routed peer authenticates the message |
| Engines.Engine.CreateKeepalive | src/engine.rs:790-829 | seals a keepalive or starts a handshake; unknown peers are an error |
| Engines.Engine.UpdateResolvedEndpoint | src/engine.rs:748-771 | a new address clears what was learned and all sessions of the peer |
| Engines.Engine.InitiateHandshake | src/engine.rs:774-787 | starts or retries for a routed peer |
| Engines.Engine.EndpointOf | src/engine.rs:887-904 | the learned endpoint if usable, else the configured one if usable |
| EngineEffects.HandshakeEffect | src/engine.rs:272-338 | with a usable endpoint: an attempt younger than 30 s is repeated once it is 5 s quiet; otherwise, unless a live candidate waits, a new first message is sent exactly when there is no live session, or it is 120 s old or has carried 2^32 messages in a direction |
| EngineEffects.SealEffect | src/engine.rs:538-572 | exactly what leaves for a packet: the first message that is due, if one is, and the payload if there is a session younger than 180 s and the cipher seals |
| EngineEffects.EndpointChoice | src/engine.rs:887-904 | frames go to where the peer was last heard from, otherwise to its resolved or configured address |
| EngineEffects.ForgetEffect | src/engine.rs:390-402 | nothing of the peer remains, it is marked for recovery, and other peers do not notice |
| EngineEffects.FirstMessageEffect | src/engine.rs:236-268 | a first message is turned away exactly when its peer is not a passive one marked for recovery and an own attempt younger than 30 s has an identifier that is not larger; otherwise it is answered, with the answer of the last 60 s or a new one, and mark and own attempt are gone |
| EngineEffects.AnswerFinishes | src/engine.rs:340-366 | the whole state after an answer: the new session active with one nonce spent on the confirmation, the old one previous, nothing else under way; any other answer ends only the attempt |
| EngineEffects.AnswerTouchesItsAttempt | src/engine.rs:340-366 | an answer touches no attempt but one with its own identifier, and is ignored without one |
| EngineEffects.PacketOpens | src/engine.rs:101-178 | the whole state after a packet opens: expired sessions gone, one window moved, a candidate promoted |
| EngineEffects.PacketRefused | src/noise.rs:106-138 | which error a packet that does not open gives |
| EngineEffects.PacketUnknown | src/engine.rs:101-178 | a packet under an identifier that no live session has is ignored |
| EngineEffects.DataIsHandled | src/engine.rs:697-709 | opened data is written exactly when it is IPv4, and counted either way |
| EngineEffects.KeepaliveIsHandled | src/engine.rs:683-696 | an opened keepalive that is no probe only notes the peer |
| EngineEffects.ProbeIsHandled | src/engine.rs:683-696 | an opened probe is acknowledged under the live session, to where it came from |
| EngineEffects.UpdateEffect | src/engine.rs:748-771 | which updates are refused, ignored or taken, and what a taken one changes |
| EngineEffects.UnroutedPeers | src/engine.rs:774-829 | keepalives and handshakes are for routed peers only |
| EngineGuarantees.DestinationIff | src/packet.rs:24-61 | a packet has an address as its destination exactly when it is IPv4 and octets 16 to 19 are that address |
| EngineGuarantees.RefusedPackets | src/packet.rs:24-43 | exactly which error every other packet gives |
| EngineGuarantees.UnauthenticatedPreserves | src/engine.rs:578-715 | a frame that does not authenticate changes no active or previous session, no window and no learned endpoint |
| EngineGuarantees.LearnedEndpointIsProven | src/engine.rs:639-715 | the endpoint learned for a peer changes only to the source of a frame that authenticates for that peer |
| EngineGuarantees.FloodChangesNothing | src/engine.rs:578-715 | nor does any number of them, in any order, beyond the expiry of sessions |
| EngineGuarantees.DuplicateInit | src/engine.rs:212-268 | a duplicate first message gets the identical answer; when exactly the state changes |
| EngineGuarantees.DuplicateChangesNothing | src/engine.rs:591-618 | in a state the engine can be in, it changes nothing |
| EngineGuarantees.FirstInitIsAnswered | src/engine.rs:591-638 | an answered first message is one whose duplicates will be answered the same |
| EngineGuarantees.InboundKeepsOk | src/engine.rs:578-715 | received frames keep the engine invariant |
| EngineGuarantees.SealKeepsOk | src/engine.rs:530-575 | sending keeps the engine invariant |
| EngineGuarantees.UpdateKeepsOk | src/engine.rs:748-771 | DNS updates keep the engine invariant |
| EngineGuarantees.SealedForThePeer | src/engine.rs:538-572 | what is sent for a peer goes to its usable endpoint: at most a first message, and the payload exactly when the active session can seal it |
| EngineGuarantees.OutboundFollowsRoutes | src/engine.rs:530-575 | a packet with a given address in octets 16 to 19 is sent along the best route eligible for it, or nothing happens; a packet that is not IPv4 is refused |
| EngineGuarantees.UpdateMovesThePeer | src/engine.rs:748-771 | after an update nothing old remains, the next handshake is new and goes to the new address; a repeated update does nothing |
| EngineGuarantees.UpdateKeepsOthers | src/engine.rs:748-771 | other peers do not notice |
| EngineHistory.ReachableEngineOk | src/engine.rs:530-829 | after any calls in any order: the manager invariant, and no passive peer with a waiting candidate is marked for recovery |
| EngineHistory.WaitingKeepsAnswer | src/engine.rs:180-231 | whatever is called in between, a candidate that waits kept its remembered answer since its key was drawn |
| EngineHistory.DuplicatesGetTheSameAnswer | src/engine.rs:591-638 | while the candidate waits and its answer is younger than 60 s, a duplicate at any later moment gets the identical answer and changes nothing |
| EngineRuns.InboundIsSteps | src/engine.rs:578-715 | handling any frame that can arrive is a sequence of network steps of the node; the clock and all other nodes stay as they are |
| EngineRuns.SealIsSteps | src/engine.rs:538-572 | so is sending, and it adds exactly the seal of the payload when the session seals |
| EngineRuns.UpdateIsSteps | src/engine.rs:748-771 | so is a DNS update |
| Fleets.CallIsSteps | src/engine.rs:530-829 | so is every call of an engine |
| Fleets.FleetIsNetworkRun | src/engine.rs:530-829 | any history of calls of any engines over one wire is a run of the network that ends in their session states |
| Fleets.WrittenWasGiven | src/engine.rs:530-715 | an IP packet written as coming from a peer was given, byte for byte, to that peer's engine, which routed and sealed it for this one |
| Fleets.EachSealOnce | src/engine.rs:530-715 | no sealing of a packet is written twice, and no two packets share one |
| Fleets.EveryWriteIsTold | src/engine.rs:683-712 | the traffic that those results speak of holds every write that an engine asks for |
| Arrival.PacketCanArrive | src/engine.rs:530-715 | for all engines of which one routes an IP packet to another at a usable endpoint, a run in which that packet is given to the one and written at the other |
| Arrival.EventsHappen | src/engine.rs:76-434 | a run of the network in which one session is stored, installed and promoted and a packet is opened under it |
| Crossings.CrossedInitiationsConverge | src/engine.rs:180-366 | in every interleaving of the packets of two crossed exchanges both sides end on the session of the smaller identifier |
| Crossings.LoserInstallsNothing | src/engine.rs:340-366 | the other exchange never yields a session at its initiator |
| Crossings.WinnerAcceptsIff | src/engine.rs:242-268 | when exactly the side with the smaller identifier accepts too |
| Crossings.BothMayAccept | src/engine.rs:242-268 | an order in which both accept, from any crossing |
| Crossings.FreshCrossing | src/engine.rs:272-338 | a crossing of two fresh nodes |
| Schedulers.RecoveryPolicyFor | src/scheduler.rs:253-268 | a policy exists exactly when a timeout applies, and its timeout is positive |
| Schedulers.DueMeansSilent | src/scheduler.rs:270-280 | a recovery is due exactly one timeout after both the last sign of life and the last attempt |
| Schedulers.EngineScheduler.Tick | src/scheduler.rs:112-228 | a tick is retries, at most one recovery, and keepalives, in this order, on the engine |
| Schedulers.EngineScheduler.RecoverOne | src/scheduler.rs:139-189 | the first peer that needs it is recovered |
| Schedulers.EngineScheduler.constructor | src/scheduler.rs:84-105 | the policy of each peer from its options |
| SchedulerRuns.AtMostOneRecovery | src/scheduler.rs:139-189 | one tick recovers at most one peer, the first that needs it |
| SchedulerRuns.RebindReachesEveryone | src/scheduler.rs:191-225 | after a successful rebind every peer gets exactly one keepalive operation in that tick, after the replacement handshake, which follows the rebind |
| SchedulerRuns.TickInstallsNone | src/scheduler.rs:112-228 | a tick installs no session, and the recovered peer loses its own |
| SchedulerRuns.TickPacesKeepalives | src/scheduler.rs:191-225 | the time remembered for a peer moves only to now, and a periodic keepalive waits a whole interval after it |
| SchedulerRuns.TurnOfPeer | src/scheduler.rs:191-225 | a peer gets a keepalive exactly when the time remembered for it before the tick says so, and what is remembered then depends only on that and on its own session |
| SchedulerRuns.KeepalivesArePaced | src/scheduler.rs:282-298 | over any run, the next periodic keepalive after a recorded one is at least its interval later |
| SchedulerRuns.RebindsAreSpaced | src/scheduler.rs:155-172 | a rebind attempt is at least the triggering peer's timeout after every earlier one |
| SchedulerRuns.RecoveriesNeedNewSession | src/scheduler.rs:145-178 | between two recoveries of one peer a session was newly installed |
| SchedulerPeers.PolicyOfOptions | src/config.rs:292-300 | the policy of every combination of options |
| SchedulerPeers.ProtectedPeersRecover | macos/SystemExtension/Shared/HushWireConfigurationPolicy.swift:404-419 | what the planner demands of a protected peer is exactly that the scheduler recovers it later than its keepalives, over UDP by a rebind |
| SchedulerPeers.RetriedAreWaiting | src/scheduler.rs:120-132 | a tick retries exactly the peers with an exchange under way, once each, in order |
| SchedulerPeers.RetryRepeats | src/scheduler.rs:120-132 | the retry of an attempt that is five seconds quiet repeats its first message |
| SchedulerPeers.FirstSilentIsRecovered | src/scheduler.rs:139-163 | a tick recovers the first peer that was sent a keepalive, has a live session, and has been silent for its timeout since the last sign of life and the last attempt; nobody exactly when there is none |
| SchedulerPeers.RecoveryEffect | src/scheduler.rs:164-189 | the socket is rebound first if that is the policy, the peer is given up and marked, and the report tells the silence |
| SchedulerPeers.RecoverySendsFirstMessage | src/scheduler.rs:174-180 | a new first message goes to the endpoint of the recovered peer |
| SchedulerPeers.RecoveryTakesOne | src/scheduler.rs:139-189 | recovery takes the live session of the recovered peer and no other |
| SchedulerPeers.TickOfPeer | src/scheduler.rs:191-225 | from the state before a tick: whether a peer gets a keepalive, and that it is remembered exactly when the peer has a live session or no recovery |
| SchedulerPeers.KeepaliveIsSealed | src/scheduler.rs:205-217 | the keepalive of a peer with a live session is sealed under it, a probe if the peer has recovery and empty otherwise |
| SchedulerPeers.PeriodicKeepalivesArePaced | src/scheduler.rs:282-298 | over any run, two periodic keepalives are an interval apart if the peer had a live session at the first or no recovery |
| SchedulerPeers.SilentPeerIsRecovered | src/scheduler.rs:139-189 | over any run, a peer that was probed under a live session and stays silent for its timeout since its last sign of life and every attempt that holds it back is recovered in the next tick, unless a peer before it is |
| SchedulerPeers.ReportInOrder | src/scheduler.rs:231-245 | the report keeps the order of the calls |
| SchedulerPeers.EverythingIsReported | src/scheduler.rs:231-245 | every engine call of a tick is reported, as output or as error, and nothing else is |
| Gateways.Gateway.Apply | src/gateway.rs:210-273 | under any schedule of failures: what an apply leaves, whether it succeeds or rolls back; it succeeds if nothing fails; if one command fails, and the original value was recorded or no gateway was marked, everything is as before except that owned rules may be gone |
| Gateways.Gateway.Remove | src/gateway.rs:275-309 | under any schedule of failures: what a removal leaves |
| Gateways.Gateway.DeleteOwnedRules | src/gateway.rs:415-444 | ends, removes exactly the owned rules or gives up, and touches no other |
| Gateways.Gateway.CountOwnedRules | src/gateway.rs:403-413 | the number of owned rules over all three chains |
| Gateways.Gateway.Reconcile | src/gateway.rs:232-242 | leaves the chains alone exactly when they hold the five rules once each, otherwise deletes what is owned |
| Gateways.Gateway.DeleteAdded | src/gateway.rs:255-257 | a rollback without failures leaves no owned rule where rules were added |
| Gateways.Gateway.Rollback | src/gateway.rs:254-266 | rules, marker, original value and forwarding after a failed apply |
| Gateways.Gateway.AddRules | src/gateway.rs:243-247 | five rules where there were none, nothing where there were five |
| Gateways.FiveAreTheFive | src/gateway.rs:232-242 | if all five rules are there and five are owned, each is there once |
| Gateways.RulesMean | src/gateway.rs:84-185 | the rules of an applied gateway let the LAN into the tunnel and only answers back, hide what leaves by the tunnel, and clamp segments both ways |
| Gateways.Host.RecordOriginal | src/gateway.rs:657-674 | a new state file is complete, absent, or reported as torn, and then it is empty or complete |
| Gateways.Host.RecordMarker | src/gateway.rs:591-606 | the same for a marker, which is rewritten if it exists |
| GatewayRuns.ForwardingRestoredIff | src/gateway.rs:210-309 | over any run of any gateways, under any failures: after the last removal forwarding is what it was before the first apply exactly when it was 1, or it was 0 and no apply succeeded over a half-written file, or no apply succeeded |
| GatewayRuns.OffUntilForgotten | src/gateway.rs:210-309 | a machine that did not forward stays off, or it is remembered that it was, until an apply succeeds over a half-written file; from then on forwarding is on for good |
| GatewayRuns.ForwardingRestoredWithoutTornFile | src/gateway.rs:210-309 | when no state file was left half-written: exactly when the first value was 0 or 1, or no apply succeeded |
| GatewayRuns.ForwardingIsRestored | src/gateway.rs:210-309 | in that case, and if the first value was 0 or 1, it is restored and the machine is as clean as before |
| GatewayRuns.HalfWrittenFileForgets | src/gateway.rs:657-674 | a run in which forwarding was 0, a first apply leaves the file half-written, a second succeeds, and after the removal forwarding is 1 |
| GatewayRuns.OriginalIsKept | src/gateway.rs:218-265 | while a gateway is marked and no state file was left half-written, a first value of 0 or 1 is not lost |
| GatewayRuns.OriginalIsKeptSince | src/gateway.rs:218-265 | as long as some gateway stays marked and no state file was left half-written, the value in force before the first of them is not lost, whatever it was |
| GatewayRuns.RestoredIff | src/gateway.rs:289-300 | exactly which values are restored |
| GatewayRuns.OthersKeepTheirRules | src/gateway.rs:415-444 | rules of other owners keep content and order through any run |
| GatewayRuns.AppliedRulesStay | src/gateway.rs:232-252 | an applied gateway has exactly its five rules, once each, while others come and go |
| GatewayRuns.ReapplyChangesNoChain | src/gateway.rs:232-252 | applying again changes no chain, even if it fails |
| Ffi.HwRuntime.BeginStart | src/ffi.rs:438-465 | start refuses while stopping, keeps a running engine, or creates one |
| Ffi.HwRuntime.BeginStop | src/ffi.rs:480-493 | stop marks the runtime and waits while calls are outstanding |
| Ffi.HwRuntime.Begin | src/ffi.rs:237-255 | a call begins exactly with an engine and no stop, and holds that engine |
| Ffi.HwRuntime.End | src/ffi.rs:216-225 | the last call that ends wakes every waiting stop |
| Ffi.CallsHoldTheEngine | src/ffi.rs:210-255 | in every interleaving the counter is the number of outstanding calls and each holds the current engine |
| Ffi.ClearedOnlyAtZero | src/ffi.rs:488-506 | the engine goes away only when no call is outstanding |
| Ffi.BegunTickFindsItsScheduler | src/ffi.rs:613-625 | a begun tick finds a scheduler, that of its engine |
| Ffi.EngineAndSchedulerTogether | src/ffi.rs:454-505 | from outside the locks engine and scheduler exist together |
| Ffi.SomeoneCanGoOn | src/ffi.rs:488-506 | no deadlock over the two locks and no lost wakeup: some thread can always go on without a wakeup that nobody sent |
| Ffi.CallsDrain | src/ffi.rs:237-255 | while a stop is under way, in any interleaving, no call begins |
| Ffi.StartOutcome | src/ffi.rs:438-465 | a start that succeeds leaves an engine that no stop is erasing; when it fails, and that nothing changed then |
| Ffi.WaitingWithoutStoppingIff | src/ffi.rs:480-507 | a waiting stop finds `stopping` false if and only if another stop finished while it waited and none took effect since |
| Ffi.WaitingMeansStopping | src/ffi.rs:480-507 | while no stop finishes beside a waiting one, a waiting stop means that the runtime is stopping |
| Ffi.StopMayWaitWithoutStopping | src/ffi.rs:480-507 | a run of two stops and a start in which a stop waits while `stopping` is false |

## Left out

- Noise, x25519, ChaCha20-Poly1305 and base64: ideal operations instead.
- TUN devices, sockets, threads, signals, the operating system's route commands and `src/firewall.rs`: foreign calls with no algorithm.
- Accepting and dialling TCP connections, and which connection a frame belongs to: only one connection's queue and reader.
- The check for a frame length above 65535 in the TCP reader, and the second replay check after authentication: both can never fail, so they are not in the model.
- TOML parsing and most of configuration validation: only what routing, gateways and recovery rely on.
- Swift string handling, host names in endpoints, summaries, and the text order of exclusions of equal length: the planner works on parsed addresses and prefixes.
- DNS resolution: a resolved address is a parameter.
- Handshake creation failing inside the Noise library: `initiator_start` always succeeds here.
- Byte counters of a peer: natural numbers without the 64-bit limit.
- Sessions inside the manager's maps are values; the in-place form of a session with its bitmap is `Noise.LiveSession`, proved equal to the same functions. Aliasing between a session and its window is not modelled inside the manager.
- FFI argument checks, pointers, callbacks and poisoned locks: only the locking protocol; callbacks follow their documented rules.
- Gateways.Gateway.Apply: the checks before anything is recorded are one command that may fail; a failed apply does not put back owned rules that it had already deleted, and nothing is promised about the gateway's own rules when the rollback fails too.
- GatewayRuns.ForwardingRestoredIff: assumes that a failed write of the original value leaves nothing or all of it, which for `0` and `1` is every case, that `sysctl` either takes effect or not, and that nobody else changes forwarding.
- GatewayRuns.OriginalIsKept: only where no state file was left half-written; what is kept otherwise is in `OffUntilForgotten`.
- Crossings.CrossedInitiationsConverge: for deliveries while both attempts are younger than thirty seconds, and session identifiers that are new at both sides.
