# Verified model of the RE2 remote-desktop stack

RE2 connects a phone (the client) with a computer (the agent). The two sides speak REUDP, a small
reliable protocol on UDP, and on top of it an ordered Noise channel for control messages and a
loss-tolerant sealed plane for video. A relay brokers the connection when the two are not on one
network. The agent also splits encoder output into access units, adapts the bitrate, mirrors an
IDE conversation into a terminal, and finds relays by crawling.

This project models the state machines and incremental algorithms of that stack in Dafny and proves
what they are for:

- **REUDP is a FIFO.** Two endpoints and a network that loses, duplicates, delays and reorders
  datagrams: on every run the payloads delivered are a prefix of those accepted, in order and each
  once, every acknowledgement on the wire is true, no packet the peer waits for is ever dropped, and
  every reachable state can still finish (`Network`, `Stream`, `Progress`). Session resets are safe
  exactly where the proofs say, and the 32-bit sequence space is used up to the last number but not
  beyond (`Sessions`). Unreliable payloads are handed over as they arrive (`Unreliable`). The window
  grows additively, halves with each loss and lets exactly a window go out at once (`Congestion`).
- **Nonces always match.** When reliable traffic goes through `sendTunnel` on REUDP, no nonce is
  consumed without its packet entering the stream in nonce order, so the receive loop never fails to
  authenticate (`Tunnel`, `SendTunnel`).
- **The relay never leaks or overruns capacity**, and a device has one controller, who loses a channel
  only in the ways listed, over every interleaving of client and agent loops (`RelayHub`,
  `RelayRuns`).
- **Splitters do not depend on how bytes arrive**: the Annex-B access-unit splitter and the terminal
  input parser (`AnnexB`, `Mirror`).
- **The crawl computes the ball** of relays around the seeds, up to its caps (`Crawl`).
- **Fragments reassemble**: video parts with their repair cache, phone-camera parts, reordered input
  events (`Video`, `PhoneCam`, `InputOrder`).
- **The bitrate controller holds the picture and converges**, and stays in its limits exactly where
  the proofs say (`Abr`).
- **Every codec round-trips**, so that networks of datagrams are networks of bytes (`PacketCodec`,
  `FrameCodec`, `Channel`, `Video`, `PhoneCam`).

## How it is put together

Each source object that updates fields is a class (`Reudp.Endpoint`, `Congestion.Controller`,
`RelayHub.Hub`, `Bandwidth.Limiter`, `AnnexB.Splitter`, `Mirror.Session`, `Abr.Controller`,
`Video.KeyframeCache`, `PhoneCam.Assembly`, `InputOrder.Orderer`, `SendTunnel.Session`). Its methods
are proved equal to functions on values of the state; the theorems about runs are about those
functions. Loops over buffers (`Encode`, `EncodeVideo`, `FragmentNAL`, `FindStartCodes`, `EscapeSeq`,
`Crawl`, ...) are methods with invariants.

A run is a list of atomic steps. The network is the set of datagrams sent and not lost; delivering
one leaves it there, which gives duplication and reordering. Clock readings, randomness, JSON and
base64 decoding, `NormalizeRelayURL` and `FetchPeers` are parameters. Windows, losses and scales are
reals; 16-, 32- and 64-bit words wrap explicitly.

## What the theorems assume

- One reader per endpoint, as with `PreferDirectAddr`; `PreferDirect` starts a second reader, and
  `handleData` unlocks while draining (`internal/reudp/endpoint.go:626`).
- Sends are serialised, as `sendTunnel` does: CanSend, the sequence number, the inflight entry and
  OnSend are separate critical sections (`internal/reudp/endpoint.go:388-447`), and the window bounds
  need them to be one step.
- The incoming queue is drained; otherwise `internal/reudp/endpoint.go:631` drops a payload after 2 s.
- At most 2^32 - 1 reliable payloads a session and direction. `Sessions.BeyondLimitRepeats` shows
  that one more breaks the stream.
- No datagram survives from an earlier session, since there is no epoch on the wire.
- Handshake messages travel unreliably, as the code sends them (`cmd/agent/desktop.go:488-492`).
  `docs/protocol-v2.md:30` says they use the reliable channel; the model follows the code.
- Once the session stands no late copy of a handshake datagram arrives: it would fail to decrypt, and
  from 32 to 80 bytes it makes the agent start over (`cmd/agent/desktop.go:371-391`).
- The AEAD is any pair of functions with the three properties of `Tunnel.Correct`, one of them that
  no ciphertext looks like a video-plane packet. `SendTunnel.CorrectIsSatisfiable` exhibits one.
- The relay has a limiter. A session ticket names a device id under which an agent has registered.
- Slots, capacity and arbitration are right over every run exactly for separated sets of device ids: no
  device that can be bound shares the route of its data channel with another device
  (`RelayRuns.SafeIffSeparated`; each attached connection alive, in one slot, within the counter and
  of the client identity its device names). Ids without
  `#` are separated; so are many with it, since the agent of such an id is looked up under the part
  before its last `#`.

## Where the code falls short of the property

Each of these is stated with the exact condition and a case that a run reaches.

- A second reset of the sending side, once the agent has accepted a reliable payload, loses the
  stream (`Sessions.SendResetKeepsInv`, `Sessions.SendResetTooLate`).
- A full reset in that place keeps the FIFO exactly while nothing has been accepted or delivered by
  the agent, the client still holds everything it sent and no acknowledgement is under way
  (`Sessions.FullResetKeepsInv`). Otherwise the agent delivers the client's stream from its first
  payload again, and gets to packet n exactly when no packet below n has gone
  (`Sessions.FullResetWaitsForever`, `Sessions.FullResetRecovers`, `Sessions.FullResetReachesIff`).
  Every run can go on to a state where all have gone (`Sessions.PacketsCanBeGone`,
  `Sessions.OpenCanBeGone`).
- Through the relay `sendTunnel` checks no size before Encrypt: the nonce is lost exactly when the frame
  exceeds 1 MiB or the connection is missing (`SendTunnel.RelaySkipsNonceIff`); on REUDP, only when the
  endpoint is closed during SendReliable's poll (`SendTunnel.Send`).
- The stream breaks with reliable payload number 2^32 (`Sessions.BeyondLimitRepeats`).
- A device whose id is the route of another device's data channel leaks that device's slot
  (`RelayRuns.SafeIffSeparated`, `RelayRuns.SharedRouteLeaksSlot`); as strings, routes invert under
  the condition of `Channel.SplitInvertsRoute`.
- `EncodeFrame` writes routes longer than 512 bytes, which no reader accepts
  (`FrameCodec.DecodeInvertsEncode`).
- Frames of more than 65535 parts wrap their part numbers (`Video.PartsAreNumbered`).
- A soft reopen below the default minimum of 300 kb/s, or a first OPEN below 200 kb/s: the first heavy
  loss raises the bitrate to the minimum, above the budget (`Abr.BudgetIffAboveMinimum`,
  `Abr.BudgetBelowMinimum`; `Abr.LowReopenIsRaised`, `Abr.LowOpenIsRaised`).
- A frame-rate cap below the minimum of 5, as the agent sets above 8192 pixels and a client may ask for:
  the first heavy loss raises the frame rate to 5 (`Abr.RateIffAboveMinimum`, `Abr.RateBelowMinimum`,
  `Abr.SlowOpenIsRaised`).
- Input event id 2^64 - 1, once queued, restarts the numbering: the ids queued are consecutive exactly
  while each arrival still finds an id from the first to 2^64 - 1 that is missing
  (`InputOrder.QueuedInOrder`, `InputOrder.LastIdRepeats`).
- A multi-part phone-camera frame with id 0 meets a nil map (`PhoneCam.OnlyFrameZeroFaults`,
  `PhoneCam.FrameZeroFaults`).

Two conditions that the agent itself always meets:

- The pixels of an OPEN are held whatever it asks for, because the agent always passes a ladder and
  minima of two pixels or as large as the cap (`Abr.LadderOpenHolds`). The controller alone does not
  promise it: `Abr.FixedIffStays` says for any configuration when nothing moves, and
  `Abr.OpenWithoutLadder` in terms of the size asked for; `Abr.OnePixelOpenDrifts` is a case, with the
  empty ladder that only tests use.
- A keyframe cached under an id that is still cached would be lost (`Video.CachingKeepsStep`). That
  takes 2^32 frames with fewer than four keyframes (`Video.UnkeyedCounterComesRound`); with periodic
  keyframes it cannot happen (`Video.CacheStaysInStep`, `Video.ClearedCacheStaysInStep`).

## Model

| member | source | states |
|---|---|---|
| Stream.ReliableStreamIsFifo | internal/reudp/endpoint.go:383-668 | on every run over a losing, duplicating, reordering network, what each side delivers reliably is a prefix, in order and each once, of what the other side's SendReliable accepted |
| Stream.StepRefinesFifo | internal/reudp/endpoint.go:383-708 | every protocol step, in either direction, is a step of a queue: it enqueues exactly the payload of an accepted reliable send and only ever lets the oldest queued payloads out |
| Stream.NodeRefinesFifo | internal/reudp/endpoint.go:383-644 | the same for one node against any peer in the invariant |
| Stream.StepKeepsInv | internal/reudp/endpoint.go:383-708 | send, arrival, retransmission tick, LAN boost and loss all keep the two-way stream invariant and the window bounds |
| Stream.RunKeepsInv | internal/reudp/endpoint.go:383-708 | over any run the invariant holds and nothing delivered is ever taken back |
| Stream.AcknowledgementsNeverLie | internal/reudp/endpoint.go:421-426 | any acknowledgement still on the wire, stale, duplicated or piggybacked on a retransmission, names only packets its sender has received |
| Stream.NoHeadOfLineHole | internal/reudp/endpoint.go:410-447 | on every run, the packet a receiver waits for, if it was ever accepted, is still in the sender's inflight map with its original payload |
| Stream.WindowBoundsHold | internal/reudp/congestion.go:31-104 | on every run cwnd is in [2, 512] and inFlight exceeds neither the window nor the number of packets in flight |
| Stream.WindowStep | internal/reudp/endpoint.go:388-449 | each endpoint event keeps those bounds, and only a send can close an open window |
| Stream.UnreliableIsInvisible | internal/reudp/endpoint.go:411-419 | sending or receiving an unreliable payload changes neither the accepted nor the delivered stream nor any sequence number |
| Stream.RefusedSendIsInvisible | internal/reudp/endpoint.go:384-409 | a send is refused iff the payload exceeds 1200 bytes or is reliable and the window or the pace forbids it, and then emits nothing and consumes no sequence number |
| Stream.CreditIsExact | internal/reudp/congestion.go:57-74 | until a first retransmission inFlight counts exactly the packets in flight: each send takes one unit, each acknowledged packet gives one back, once |
| Stream.SentIsResent | internal/reudp/endpoint.go:436-708 | an accepted packet is in flight and on the wire, stays so, unchanged, with every tick that finds it due, and the window sees a loss with exactly its third and tenth resend |
| Unreliable.UnreliableIsHandedOver | internal/reudp/endpoint.go:603-610 | over any run each side is handed exactly the unreliable payloads that arrived while its queue had room, in the order of arrival |
| Unreliable.UnreliableGoesThrough | internal/reudp/endpoint.go:411-452 | an unreliable payload of at most 1200 bytes is never refused, changes nothing at the sender, and its datagram puts just that payload on the peer's queue if there is room |
| Unreliable.NothingIsInvented | internal/reudp/endpoint.go:603-610 | on every run what is handed over unreliably was sent so by the other side |
| Network.SenderStep | internal/reudp/endpoint.go:383-452 | any event at the sending node keeps the invariant of its direction: inflight covers what the receiver lacks |
| Network.ReceiverStep | internal/reudp/endpoint.go:603-644 | any event at the receiving node keeps it: the received set grows and old acknowledgements stay sound |
| Network.ReceiverHears | internal/reudp/endpoint.go:541-573 | an arriving packet moves nextExpect only forward, forgets nothing received, and a reliable one is received afterwards |
| Network.DataExtends | internal/reudp/endpoint.go:611-644 | for a stream log, handleData keeps "delivered = log up to nextExpect", leaves only packets ahead of nextExpect in the buffer and touches no send state |
| Network.PiggybackIsExact | internal/reudp/endpoint.go:421-426 | the cumulative number on a DATA packet acknowledges exactly the sequence numbers below nextExpect, including the "nothing yet" sentinel |
| Network.AckOfStateIsSound | internal/reudp/endpoint.go:646-668 | every acknowledgement a state can emit names only packets of that state |
| Reudp.AckIsExact | internal/reudp/endpoint.go:594-668 | an ACK built by sendAck acknowledges a number under ackedBy iff it is below nextExpect, or buffered within 64 of it |
| Reudp.StaleAckIsIgnored | internal/reudp/endpoint.go:575-592 | an acknowledgement takes out of flight exactly what it names, and one that names nothing in flight changes nothing, whatever round trip it comes with |
| Reudp.DrainMoves | internal/reudp/endpoint.go:618-638 | the drain forgets and invents nothing: buffered packets become delivered ones, it stops at a gap, and no other field changes |
| Reudp.DrainDelivers | internal/reudp/endpoint.go:618-638 | a buffer that agrees with the sent log is delivered as that log |
| Reudp.Endpoint.SendData | internal/reudp/endpoint.go:383-452 | checks size and window before taking a sequence number; the new state and the packet are those of the run model |
| Reudp.Endpoint.OnAck | internal/reudp/endpoint.go:575-592 | removes from inflight exactly the acknowledged packets and credits the window with their number |
| Reudp.Endpoint.MakeAck | internal/reudp/endpoint.go:646-668 | builds the cumulative number and a mask whose bit i is set iff nextExpect + i is buffered |
| Reudp.Endpoint.OnData | internal/reudp/endpoint.go:603-644 | buffers and drains as in the run model and answers every reliable packet, also an old one, with the ACK of the new state |
| Reudp.Endpoint.RetransmitTick | internal/reudp/endpoint.go:670-708 | resends exactly the due packets in flight, keeps them in flight, and reports one loss when any reaches its third or tenth try |
| Reudp.Endpoint.ResetReliableSession | internal/reudp/endpoint.go:264-274 | both directions start afresh while queued deliveries stay |
| Reudp.Endpoint.ResetReliableSend | internal/reudp/endpoint.go:280-288 | the sending direction starts afresh, the receiving one is untouched |
| Progress.StreamCanFinish | internal/reudp/endpoint.go:670-703 | from every reachable state some finite continuation of retransmissions and arrivals, without loss or new sends, delivers everything in both directions and empties both inflight maps |
| Progress.FinishOneWay | internal/reudp/endpoint.go:575-703 | one direction finishes within two steps per missing packet and three more |
| Progress.DeliverAll | internal/reudp/endpoint.go:603-703 | retransmitting the packet at nextExpect again and again delivers the stream |
| Progress.AckAll | internal/reudp/endpoint.go:575-668 | once all is delivered, one ACK empties the inflight map |
| Progress.QuietRun | internal/reudp/endpoint.go:575-708 | retransmissions and arrivals never lose progress |
| Progress.AckForIsAck | internal/reudp/endpoint.go:646-668 | every state has an acknowledgement mask that sendAck could produce |
| Sessions.SessionResetStartsAfresh | internal/reudp/endpoint.go:264-274 | a session that starts with the reset, whatever came before, is a FIFO in both directions over all runs; deliveries still queued come out first and unchanged |
| Sessions.SendResetIsSafe | cmd/agent/desktop.go:446-460 | ResetReliableSend after the handshake, with nothing accepted yet, keeps both directions a FIFO over all later runs, including what the peer sent meanwhile |
| Sessions.SendResetKeepsInv | internal/reudp/endpoint.go:280-288 | the reset keeps the stream invariant iff the agent has accepted no reliable payload in this session |
| Sessions.SendResetCanFinish | cmd/agent/desktop.go:446-460 | after that reset both directions can still be completed |
| Sessions.SendResetTooLate | internal/reudp/endpoint.go:280-288 | after an accepted payload the reset reuses number 0, and no continuation delivers everything accepted |
| Sessions.FullResetKeepsInv | internal/reudp/endpoint.go:264-274 | a full reset keeps the stream invariant iff the agent has accepted and delivered nothing reliable, every packet of the client is in flight there, and no datagram under way acknowledges any |
| Sessions.FullResetWaitsForever | internal/reudp/endpoint.go:264-274 | after a full reset the agent delivers the client's stream from its first payload, behind what it had delivered, in every continuation, and never gets past a packet that is neither in flight nor on the wire |
| Sessions.FullResetRecovers | internal/reudp/endpoint.go:264-274 | while no packet below n is gone, at most 2 n steps take the agent to n, delivering the first n payloads, also those delivered before |
| Sessions.FullResetReachesIff | internal/reudp/endpoint.go:264-274 | so it can reach n, and for n all of the stream can finish, iff no packet below n is gone |
| Sessions.PacketsCanBeGone | internal/reudp/endpoint.go:575-592 | every run can go on to a state where every packet of the client is delivered, acknowledged and gone |
| Sessions.OpenCanBeGone | cmd/agent/desktop.go:446-460 | in particular with just the client's OPEN sent |
| Sessions.ManyRounds | internal/reudp/endpoint.go:383-668 | streams of every length up to 2^32 - 1 are reachable |
| Sessions.BeyondLimitRepeats | internal/reudp/endpoint.go:611-621 | with one payload more, a late copy of the first packet is delivered a second time |
| Congestion.EventKeepsWindow | internal/reudp/congestion.go:31-104 | ACK, loss, boost and reset keep cwnd in [2, 512] and inFlight within it, and never close an open window |
| Congestion.OpenWindowStaysOpen | internal/reudp/congestion.go:31-104 | the same over any number of such events, so a send after a successful CanSend cannot find the window full |
| Congestion.PacingEnds | internal/reudp/congestion.go:44-55 | 20 ms after the last send CanSend is the window test alone |
| Congestion.SendKeepsWindow | internal/reudp/congestion.go:57-62 | a permitted send keeps the bounds |
| Congestion.AvoidanceIsAdditive | internal/reudp/congestion.go:64-83 | above ssthresh, acknowledging N packets in any bundles raises cwnd by at most N / cwnd, a full window by at most one, and below 512 by at least N over the window reached |
| Congestion.SlowStartCountsPackets | internal/reudp/congestion.go:75-77 | below ssthresh every acknowledged packet adds one |
| Congestion.LossesHalve | internal/reudp/congestion.go:95-104 | k losses in a row leave cwnd and ssthresh at cwnd / 2^k, or at 2 if that is more, with nothing counted in flight |
| Congestion.PaceSpreadsTheWindow | internal/reudp/congestion.go:64-93 | after an ACK the pace gap times cwnd is the least round trip, to the nanosecond, between gaps of 1 ms and 20 ms |
| Congestion.MinRTTIsLeast | internal/reudp/congestion.go:71-73 | over any ACKs minRTT is the least round trip measured |
| Congestion.BurstIsTheWindow | internal/reudp/congestion.go:44-62 | without ACKs, sends a pace gap apart are permitted until inFlight reaches cwnd rounded down, and no earlier send is |
| Congestion.FirstBurst | internal/reudp/congestion.go:19-42 | a new connection starts with 8 packets 2 ms apart, one boosted for a LAN with 128 half a millisecond apart |
| Congestion.Controller.MaySend | internal/reudp/congestion.go:44-55 | decides window room and pacing gap |
| Congestion.Controller.NoteSend | internal/reudp/congestion.go:57-62 | the object follows the run model on a send |
| Congestion.Controller.NoteAck | internal/reudp/congestion.go:64-93 | the object follows the run model on an acknowledgement |
| Congestion.Controller.NoteLoss | internal/reudp/congestion.go:95-104 | the object follows the run model on a loss |
| Congestion.Controller.Boost | internal/reudp/congestion.go:31-42 | the object follows the run model on a LAN boost |
| Tunnel.NoncesAlwaysMatch | cmd/agent/desktop.go:508-582 | on every run of two peers, at every point of either receive loop, no authentication has failed, the receive nonce is the number of ciphertexts read, and the opened messages are a prefix of those encrypted |
| Tunnel.PlayKeepsSecure | cmd/agent/desktop.go:508-582 | over all runs the accepted stream plus the one ciphertext under the send lock is the plaintext history sealed with nonces 0, 1, 2, ... |
| Tunnel.EncryptedIsNeverRefused | cmd/agent/desktop.go:537-577 | a message encrypted after the size check and the CanSend poll is accepted by SendReliable, whatever arrives in between |
| Tunnel.ChannelCanFinish | cmd/agent/desktop.go:355-394 | from every reachable state some continuation, without loss or new messages, lets both receive loops open every message encrypted so far |
| Tunnel.EveryReadOpens | cmd/agent/desktop.go:355-393 | the receive loop opens every ciphertext it meets and ignores exactly the video plane |
| Tunnel.SkippedNonceIsFatal | cmd/agent/desktop.go:520-533 | why the checks precede Encrypt: once the expected nonce is skipped, nothing further ever opens |
| SendTunnel.Send | cmd/agent/desktop.go:508-582 | a message refused before Encrypt takes no nonce; one sent over REUDP becomes, under the next nonce, the next packet in flight, whatever arrives, expires or is sent by others during the polls, unless the endpoint is closed; after a switch of path it leaves in a frame under the next nonce |
| SendTunnel.SendReliable | internal/reudp/endpoint.go:375-409 | sends at the first poll that finds the window open; on a timeout or a closed endpoint the state is what arrived and expired meanwhile |
| SendTunnel.OpenWindowIsFound | internal/reudp/endpoint.go:388-409 | 500 polls a millisecond apart outlast every pacing gap, whatever arrives or expires between them, unless the endpoint is closed |
| SendTunnel.PollUntilIsLater | internal/reudp/endpoint.go:388-409 | what happens between the polls takes and gives back no sequence number, puts nothing in flight and closes no open window |
| SendTunnel.PollEndsAt | internal/reudp/endpoint.go:388-409 | the poll ends with the first instant that finds the window, the first sleep after which the endpoint is closed, or the last iteration, in the state reached there |
| SendTunnel.FoundIsOpen | cmd/agent/desktop.go:537-566 | a poll of sendTunnel that finds the window leaves it open, within its bounds and last used before, other callers' messages included |
| SendTunnel.WaitEndsAt | cmd/agent/desktop.go:537-566 | sendTunnel's poll ends with the first instant that finds the window, the first turn after which REUDP is no longer the path, or the last turn |
| SendTunnel.NoncesFollowNumbers | cmd/agent/desktop.go:537-577 | whatever other callers send on REUDP meanwhile, as many sequence numbers are taken as nonces |
| SendTunnel.RelaySkipsNonceIff | cmd/agent/desktop.go:567-581 | through the relay a nonce is consumed and no frame written iff the connection is missing or the frame would exceed 1 MiB |
| SendTunnel.Session.Encrypt | internal/re2/noise.go:51-58 | uses each nonce once, in order |
| SendTunnel.Session.Decrypt | internal/re2/noise.go:61-68 | the nonce advances iff the message authenticates |
| SendTunnel.Session.OnPayload | cmd/agent/desktop.go:355-393 | the four ways a payload can go, as one step of the receive loop of the run model: video-plane packets never reach Decrypt, and a failure of 32 to 80 bytes starts a new handshake |
| SendTunnel.CorrectIsSatisfiable | internal/re2/noise.go:51-68 | the assumption made of the AEAD can be met |
| RelayRuns.CapacityHolds | cmd/relay/re2.go:313-445 | for separated ids the attached channels of all devices together are within the counter |
| RelayRuns.CounterIsExact | cmd/relay/re2.go:313-445 | over every interleaving, whatever the ids, the counter equals the loops that owe a Release, between binds those with acquired set, and stays within max |
| RelayRuns.SafeIffSeparated | cmd/relay/re2.go:118-127 | over all runs of devices from a set of ids: no slot is left to a finished loop or to a client id other than the device's, attached channels stay within the counter and no connection holds two slots, iff no device that can be bound shares its data route with another device |
| RelayRuns.OneControllerPerDevice | cmd/relay/re2.go:143-181 | over every interleaving, channels attached under a client id carry the device's id, two channels of a device never belong to two installs, and no connection is in two slots |
| RelayRuns.ChannelLostOnlyBy | cmd/relay/re2.go:84-207 | over every interleaving, a channel attached under a client id is lost only by its own exit, the agent's exit, a bind of that channel by the same install or an unnamed one, or a forced bind of another |
| RelayRuns.OldAgentsGetNoData | cmd/relay/re2.go:374-389 | over every interleaving, agents that announce no channels are never bound to a data channel |
| RelayRuns.AgentExitDetaches | cmd/relay/re2.go:93-109 | the exit of a device's own agent detaches both its channels and no other device's |
| RelayRuns.ExitClearsExactlyItsOwn | cmd/relay/re2.go:184-325 | an exiting loop empties exactly the slot it holds; a successor's slot and the agent stay |
| RelayRuns.RefusalChangesNothing | cmd/relay/re2.go:396-414 | TryAcquire, busy answer and Release together leave devices, counter and loop as they were |
| RelayRuns.RunKeepsInv | cmd/relay/re2.go:313-477 | every action of every loop keeps counter, loops and slots consistent |
| RelayRuns.SharedRouteLeaksSlot | cmd/relay/re2.go:374-445 | for any two such ids one connection binds twice, and its exit leaves a slot attached to a finished loop beyond the counter |
| RelayRuns.RoutesAreDistinct | internal/re2/channel.go:13-18 | devices of a separated set that can be bound have distinct routes |
| RelayRuns.PlainIdsAreSeparated | internal/re2/channel.go:13-18 | ids without the separator are separated |
| RelayRuns.UnboundTwinIsSeparated | cmd/relay/re2.go:118-127 | an id with the separator and its twin are separated while no agent can be found for the id |
| RelayHub.BusyChangesNothing | cmd/relay/re2.go:143-165 | a busy answer leaves the table as it was and names the current controller |
| RelayHub.BusyIff | cmd/relay/re2.go:150-161 | a bind is refused iff another connection is on either channel, both client ids are named and differ, and force is not set |
| RelayHub.BoundIsAttached | cmd/relay/re2.go:162-181 | any other bind attaches the binder to its channel, keeps the other channel unless another install was displaced, and renews identity, name and time exactly as far as it should |
| RelayHub.TakeoverLeavesOnlyTheBinder | cmd/relay/re2.go:157-181 | a forced bind reports every channel it displaces, leaves only its own attached under its own id, and touches no other device |
| RelayHub.ReplacedAgentIsHarmless | cmd/relay/re2.go:48-109 | the exit of a replaced agent detaches nobody |
| RelayHub.Hub.SetRE2Agent | cmd/relay/re2.go:48-67 | a wrong secret is refused without effect; otherwise the agent is replaced and clients stay |
| RelayHub.Hub.ClearRE2Agent | cmd/relay/re2.go:93-109 | only the current agent's exit detaches the clients, and it lists them |
| RelayHub.Hub.BindRE2Client | cmd/relay/re2.go:143-181 | the table and the answer are those of the run model |
| RelayHub.Hub.ClearRE2Client | cmd/relay/re2.go:184-207 | the table is that of the run model and the route is that of the slot cleared |
| Bandwidth.Limiter.TryAcquire | internal/bandwidth/bandwidth.go:103-111 | succeeds iff there is room, and then counts one more |
| Bandwidth.Limiter.Release | internal/bandwidth/bandwidth.go:113-119 | counts one less, never below zero |
| Bandwidth.Limiter.BusyScore | internal/bandwidth/bandwidth.go:122-129 | the percentage in use rounded down, 100 exactly when full |
| AnnexB.ChunkingIsIrrelevant | internal/desktop/encode_ffmpeg.go:215-234 | any two ways of cutting a stream into reads give the same access units and the same remainder |
| AnnexB.SplittingIsLossless | internal/desktop/encode_ffmpeg.go:215-297 | units and remainder, joined, are the stream from its first start code |
| AnnexB.UnitsTileTheStream | internal/desktop/encode_ffmpeg.go:264-297 | every unit runs between start codes, lies right behind the previous one, and has exactly one slice, its last NAL unit |
| AnnexB.UnitsEndWithSlices | internal/desktop/encode_ffmpeg.go:264-317 | in every unit emitted the NAL unit behind the last start code has type 1 or 5 (H.264) or at most 21 (H.265), and none before it has |
| AnnexB.PopIff | internal/desktop/encode_ffmpeg.go:264-297 | a unit is complete iff some start code with such a NAL unit is followed by another, in at least eight bytes |
| AnnexB.NothingIsKeptBack | internal/desktop/encode_ffmpeg.go:215-252 | the remainder holds no complete unit |
| AnnexB.PopIsStable | internal/desktop/encode_ffmpeg.go:264-297 | a complete unit stays the same whatever bytes follow |
| AnnexB.SplitAppend | internal/desktop/encode_ffmpeg.go:215-234 | splitting now and the rest later is splitting once |
| AnnexB.Splitter.Feed | internal/desktop/encode_ffmpeg.go:215-252 | one read emits the units completed by it and keeps the rest |
| AnnexB.FindStartCodes | internal/desktop/encode_ffmpeg.go:319-333 | the skipping loop computes the start positions of the scan |
| AnnexB.StartsAreCodes | internal/desktop/encode_ffmpeg.go:319-333 | it lists start codes only, in order, at least three bytes apart |
| AnnexB.EveryCodeIsFound | internal/desktop/encode_ffmpeg.go:319-333 | and misses none that another byte follows, itself or as the tail of a four-byte code |
| AnnexB.FirstVCL | internal/desktop/encode_ffmpeg.go:299-317 | finds the first NAL unit that is a slice |
| Mirror.ChunkingIsIrrelevant | internal/idemirror/mirror.go:250-340 | any split of the same bytes into reads gives the same jobs, edit buffer, paste state, unread rest and exit |
| Mirror.TurnIsStable | internal/idemirror/mirror.go:259-331 | one turn of the parser does the same whatever bytes follow |
| Mirror.EscapeIsStable | internal/idemirror/mirror.go:343-367 | a complete CSI, SS3, OSC or two-byte sequence keeps its length |
| Mirror.EscapeIsShortest | internal/idemirror/mirror.go:343-367 | no proper prefix of the sequence returned is complete |
| Mirror.ScanAppend | internal/idemirror/mirror.go:250-340 | scanning what is there and then reading more is reading it all at once |
| Mirror.TypedLineIsSubmitted | internal/idemirror/mirror.go:279-330 | printable text in any script and a Return or line feed, in any reads, submits that text trimmed, or nothing if it is blank |
| Mirror.TrimmingIsExact | internal/idemirror/mirror.go:286-287 | the trim takes off blanks at both ends, all of them and nothing else |
| Mirror.BackspaceUndoes | internal/idemirror/mirror.go:294-302 | backspace, in either code, takes back exactly the character typed before it, however many bytes that was |
| Mirror.CtrlCClearsThenCancels | internal/idemirror/mirror.go:307-317 | Ctrl-C drops a line being typed and sends nothing; only on an empty line it cancels |
| Mirror.PastedLinesStayText | internal/idemirror/mirror.go:268-284 | inside a bracketed paste Return is text |
| Mirror.ActionIsSent | internal/idemirror/mirror.go:262-278 | a complete OSC 7789 sequence, with either terminator, becomes a job iff the decoder makes an action of it, and else is dropped |
| Mirror.OtherSequencesAreIgnored | internal/idemirror/mirror.go:262-278 | any other complete sequence but the two paste marks is dropped |
| Mirror.ControlSequence | internal/idemirror/mirror.go:343-354 | CSI and SS3 run to the first byte from 40 to 7E |
| Mirror.OperatingSystemCommand | internal/idemirror/mirror.go:355-364 | OSC runs to the first BEL or ESC backslash |
| Mirror.CtrlUClears | internal/idemirror/mirror.go:303-306 | Ctrl-U drops the line being typed and sends nothing |
| Mirror.CtrlDLeaves | internal/idemirror/mirror.go:318-320 | Ctrl-D keeps what was sent and reads nothing any more |
| Mirror.OtherControlsAreIgnored | internal/idemirror/mirror.go:321-323 | the remaining control characters do nothing |
| Mirror.Session.ReadInput | internal/idemirror/mirror.go:250-340 | the loop over one read computes the scan of the model |
| Mirror.Session.TakeEscape | internal/idemirror/mirror.go:262-278 | obeys one complete escape sequence, and waits without effect for an incomplete one |
| Mirror.EscapeSeq | internal/idemirror/mirror.go:343-367 | returns the complete sequence at the start, or waits |
| Utf8.DecodeInvertsEncode | internal/idemirror/mirror.go:325-330 | every scalar value is decoded from its own encoding, whatever follows |
| Utf8.FullRuneIsStable | internal/idemirror/mirror.go:325-330 | a full rune is decoded without looking at later bytes |
| Utf8.DecodedIsEncoded | internal/idemirror/mirror.go:325-330 | what is decoded is a scalar value whose encoding are the bytes taken, or U+FFFD for one byte |
| Utf8.WaitsForARune | internal/idemirror/mirror.go:325-327 | the parser waits iff the bytes are part of the encoding of some scalar value |
| Crawl.Crawl | internal/p2p/crawl.go:21-86 | terminates with a part of the ball of radius 3 around sticky and seeds, of size min(64, size of the ball); each error exactly when nothing was to be found |
| Crawl.Visit | internal/p2p/crawl.go:59-76 | following one relay's peers keeps the queue in depth order and covers its neighbours one level deeper unless the cap is hit |
| Crawl.Add | internal/p2p/crawl.go:37-50 | adds a relay at most once, in depth order, never beyond the cap |
| Crawl.AddAll | internal/p2p/crawl.go:52-57 | after a list of names every relay in it is queued, unless the cap turned one away |
| Crawl.ExactWithinCap | internal/p2p/crawl.go:37-76 | the result is the whole ball iff the ball has at most 64 relays |
| Crawl.NeighboursAreListed | internal/p2p/crawl.go:59-76 | the neighbours of a relay are the name it gives itself and the peers it lists, as far as valid |
| Crawl.RootsAreGiven | internal/p2p/crawl.go:52-57 | the crawl starts from the preferred relay, if named, and the seeds |
| Crawl.PathsStayInBall | internal/p2p/crawl.go:59-76 | relays reached by at most d links are in the ball |
| Crawl.BallHasPaths | internal/p2p/crawl.go:59-76 | and every relay of the ball is reached by at most d links |
| Crawl.CrawlResult | internal/p2p/crawl.go:78-86 | an explored queue holds the ball, or as much of it as the cap admits |
| Video.FragmentsReassemble | internal/re2/video.go:18-87 | once all parts have arrived, in any order and with any repeats, joining them by index gives back the access unit |
| Video.AnyArrivals | internal/re2/video.go:39-59 | whatever arrives, the receiver holds exactly the parts that arrived, each with its own bytes |
| Video.PartsAreNumbered | internal/re2/video.go:61-87 | every part announces its index and the count iff there are at most 65535 parts |
| Video.PartRoundTrip | internal/re2/video.go:18-59 | a part decodes to itself, with the session id cut to 255 bytes |
| Video.AcceptedIsABody | internal/re2/video.go:39-59 | exactly the buffers long enough for all fields are accepted, each as the image of one part |
| Video.ChunkIsLargest | internal/re2/video.go:61-75 | the chunk is the largest that keeps a part within the budget, or 32 |
| Video.FragmentNAL | internal/re2/video.go:61-87 | the loop returns the encoded slices of the access unit, in order |
| Video.EncodeVideo | internal/re2/video.go:18-37 | the buffer holds the fields in wire order |
| Video.RepairCompletes | cmd/agent/desktop.go:1810-1858 | a repair completes the frame iff every missing index is among the first 256 asked for, and the frame is then the original |
| Video.RepairsAreTheAsked | cmd/agent/desktop.go:1810-1858 | resent are exactly the valid indices asked for, each once |
| Video.ResendVideoParts | cmd/agent/desktop.go:1810-1858 | serves only the running session on the video plane and a cached frame of at most 15 s, and then sends those parts in request order |
| Video.CachingKeepsStep | cmd/agent/desktop.go:1387-1397 | map and order list of the keyframe cache stay in step iff the new id is not cached already |
| Video.CacheStaysInStep | cmd/agent/desktop.go:1387-1397 | with a keyframe at least every G frames and 5 G below 2^32, they stay in step with at most 4 frames over runs of any length, across the wrap of the counter |
| Video.ClearedCacheStaysInStep | cmd/agent/desktop.go:1387-1397 | so they do from a cleared cache, whatever the counter |
| Video.CacheHoldsTheLastFour | cmd/agent/desktop.go:1361-1397 | with such keyframes the cache holds at every moment exactly the last four keyframes sent, each under its id with its own parts |
| Video.FewFramesStayInStep | cmd/agent/desktop.go:1387-1397 | and over fewer than 2^32 frames however the keyframes fall |
| Video.UnkeyedCounterComesRound | cmd/agent/desktop.go:1361-1397 | 2^32 frames after a lone keyframe its id is due again while cached, and caching it breaks the step |
| Video.KeyframeCache.Next | cmd/agent/desktop.go:1376-1397 | one encoded frame updates the cache as in the run model |
| Video.EveryPartFits | internal/re2/videomedia.go:86-118 | both chunk budgets keep every part, as inner message, sealed or with its Noise tag, within one REUDP payload |
| Video.SealedPacketOpens | internal/re2/videomedia.go:78-118 | a sealed packet is 30 bytes longer than its content, is told from the ordered channel by its first bytes, and opens by itself, whatever was lost before it |
| Video.OtherPacketsAreNotOpened | internal/re2/videomedia.go:78-112 | and nothing else is taken for one |
| PhoneCam.NeverSplices | cmd/agent/peripherals.go:389-441 | under loss, repetition, reordering and interleaving of parts, every frame emitted is one the phone sent, whole, with the key flag of its part 0 |
| PhoneCam.NeverSplicesOnTheWire | internal/re2/phonecam.go:31-104 | the same from the bytes of the packed parts, in any selection, order and number |
| PhoneCam.UndisturbedFrameCompletes | cmd/agent/peripherals.go:389-441 | a frame whose parts arrive without another multi-part frame between them comes out exactly with the part that completes it |
| PhoneCam.PartOfFrame | cmd/agent/peripherals.go:405-439 | a part is added to what is held of its frame and emits it iff that completes it |
| PhoneCam.OnlyFrameZeroFaults | cmd/agent/peripherals.go:405-419 | parts of a frame with non-zero id never meet the nil map, whatever indices and counts they carry |
| PhoneCam.FrameZeroFaults | cmd/agent/peripherals.go:405-419 | a part of frame 0 meets it iff nothing is being assembled |
| PhoneCam.Assembly.AddPart | cmd/agent/peripherals.go:385-441 | one part moves the object as in the run model |
| PhoneCam.PartRoundTrip | internal/re2/phonecam.go:31-104 | a part decodes to itself, with the session id cut to 255 bytes and the sides clamped to 16 bits |
| PhoneCam.AcceptedIsABody | internal/re2/phonecam.go:72-104 | exactly the buffers with the magic that hold all fields are accepted, each as the image of one part |
| PhoneCam.FromBinaryOfBody | cmd/agent/peripherals.go:358-366 | the agent reads off a packed part its frame, index, count, key flag and bytes, and drops empty ones |
| PhoneCam.EncodePhoneCam | internal/re2/phonecam.go:31-70 | the buffer holds the fields in wire order |
| PhoneCam.ChunkSizeIsTight | internal/re2/phonecam.go:107-119 | a part fits one sealed datagram iff its bytes are within PhoneCamChunkSize |
| InputOrder.QueuedInOrder | cmd/agent/desktop.go:56-94 | the ids queued ascend one by one from the first latched iff, before each later arrival, some id from the first to 2^64 - 1 has not arrived yet |
| InputOrder.NeverLatchesIffMissing | cmd/agent/desktop.go:61-78 | from any state a run can leave, the latch stays as it is iff, before each arrival, such an id is missing |
| InputOrder.QueuedIsTheUnbrokenStretch | cmd/agent/desktop.go:56-94 | while the latch has fired once, queued is the unbroken stretch of events seen from the first on, and pending are exactly those seen beyond the first gap |
| InputOrder.OrderOfArrivalIsIrrelevant | cmd/agent/desktop.go:56-94 | two arrival orders of the same events, with the same first, queue the same and leave the same pending |
| InputOrder.SmallIdsLatchOnce | cmd/agent/desktop.go:61-78 | ids below 2^64 - 1 latch once |
| InputOrder.UnnumberedAreQueued | cmd/agent/desktop.go:56-60 | events without an id are all queued, in order, and change nothing for the others |
| InputOrder.UnnumberedIsQueuedAtOnce | cmd/agent/desktop.go:56-60 | each at once, behind all queued before |
| InputOrder.LastIdRepeats | cmd/agent/desktop.go:61-78 | id 2^64 - 1 sent twice is queued twice |
| InputOrder.Orderer.Accept | cmd/agent/desktop.go:56-94 | one call moves the object as in the run model and returns what is queued |
| Abr.NothingMovesBetweenOpens | internal/desktop/abr.go:73-289 | with a ladder and minima as the agent passes them, after any OPEN and over any samples, size and rung stay as the OPEN left them |
| Abr.LadderOpenHolds | cmd/agent/desktop.go:879-909 | every OPEN with a ladder leaves one possible size, whatever size and cap it asks for |
| Abr.FixedIffStays | internal/desktop/abr.go:181-289 | for any configuration and ladder, size and rung survive every run of samples iff the limits hold the size, or no rung is in reach, or neither shrinking nor growing moves it |
| Abr.OpenWithoutLadder | internal/desktop/abr.go:121-166 | without a ladder nothing moves iff no single reaction moves the size asked for, rounded to even; with minima of two or more, iff each side asked for is at least two, or 0 or 1 under a cap of one |
| Abr.OnePixelOpenDrifts | internal/desktop/abr.go:157-166 | a 1 by 1 OPEN without a ladder is not locked and one good sample moves it |
| Abr.BudgetIffAboveMinimum | cmd/agent/desktop.go:1649-1665 | the bitrate respects the OPEN budget over every run iff the budget is not below the minimum |
| Abr.BudgetBelowMinimum | internal/desktop/abr.go:236-250 | otherwise the first heavy loss raises it above the budget |
| Abr.LowReopenIsRaised | cmd/agent/desktop.go:1649-1665 | a soft reopen at 250 kb/s goes to 300 with the first heavy loss |
| Abr.FirstMinimumFits | cmd/agent/desktop.go:837-842 | the minimum of a first OPEN is within its budget iff that is at least 200 kb/s |
| Abr.LowOpenIsRaised | cmd/agent/desktop.go:837-842 | a first OPEN at 150 kb/s goes to 200 |
| Abr.RateIffAboveMinimum | cmd/agent/desktop.go:834-836 | the frame rate respects its cap over every run iff the cap is not below the minimum |
| Abr.RateBelowMinimum | internal/desktop/abr.go:236-255 | otherwise the first heavy loss raises it to the minimum |
| Abr.SlowOpenIsRaised | cmd/agent/desktop.go:677-683 | an OPEN at 2 frames a second goes to 5 |
| Abr.WorseReachesTheFloor | internal/desktop/abr.go:236-250 | n effective worse samples bring the bitrate to its minimum once 2^(n-1) exceeds it |
| Abr.WorseSampleCuts | internal/desktop/abr.go:236-250 | each of them lowers it strictly until then, and by half from the third in a row |
| Abr.GoodReachesTheBudget | internal/desktop/abr.go:264-277 | n effective good samples bring it to the OPEN budget once 50 n covers the distance |
| Abr.StallsKeepCutting | internal/desktop/abr.go:193-230 | stalls reported 250 ms or more apart after the OPEN hold are such a worse run |
| Abr.SampleByNumbers | internal/desktop/abr.go:193-289 | what a sample does to bitrate, frame rate, cut streak and keyframe wish, by its loss, stall and receive rate: over 12 % or a stall 6/10, or 5/10 from the third in a row, over 5 % or starvation 8/10, below 1 % up, between 1 and 5 % nothing; cuts also to 85 % of what arrives, none below the minimum |
| Abr.LadderByNumbers | internal/desktop/abr.go:236-340 | without locked pixels a sample moves the rung down under heavy loss or a second moderate one over 8 % or 70 ms of jitter, up when the raised bitrate is over twice the minimum, to that rung's size and its share, the square of its scale, of the budget |
| Abr.NoLadderByNumbers | internal/desktop/abr.go:236-289 | without a ladder the picture then shrinks to 3/4 or 7/8 or grows by 40 by 24, within floor and cap |
| Abr.EarlySampleWaits | internal/desktop/abr.go:188-204 | within the OPEN hold or the gap a sample only passes on the keyframe wish |
| Abr.CleanSamplesKeepRaising | internal/desktop/abr.go:193-230 | samples of low loss 500 ms or more apart, with too few frames to judge or, within the budget, a receive rate that would do for all of it, are such a good run |
| Abr.SampleContinues | internal/desktop/abr.go:181-289 | one sample, on any ladder, keeps the configuration, a valid rung and the limits |
| Abr.NearestIsNearest | internal/desktop/abr.go:415-429 | the rung chosen is the first of those nearest to the size asked for |
| Abr.OpenTakesTheNearest | internal/desktop/abr.go:121-153 | an OPEN takes the first of the nearest rungs left by the trim and encodes at its size |
| Abr.ReopenByNumbers | internal/desktop/abr.go:121-153 | a reopen sets budget, bitrate and frame rate to what is asked for, wants a keyframe, forgets earlier cuts and gives no larger picture than asked for |
| Abr.TrimByNumbers | internal/desktop/abr.go:390-413 | the trim keeps the rungs whose rounded width exceeds the cap by at most two pixels, or else the last rung |
| Abr.SideIsScaled | internal/desktop/abr.go:341-388 | a side of a rung is the native side (or cap, or current side) scaled, rounded and made even, within floor and cap |
| Abr.FittingIsTheFilter | internal/desktop/abr.go:390-413 | exactly the rungs that fit the OPEN width survive the trim |
| Abr.TrimLadder | internal/desktop/abr.go:390-413 | the loop computes that trim, keeping the last rung when none fits |
| Abr.Controller.constructor | internal/desktop/abr.go:73-96 | a new controller is in the opened state of the run model |
| Abr.Controller.ApplyTarget | internal/desktop/abr.go:121-153 | a reopen moves the object as in the run model |
| Abr.Controller.Nearest | internal/desktop/abr.go:415-429 | the loop computes the nearest rung |
| Abr.Controller.StatsSample | internal/desktop/abr.go:181-289 | one sample moves the object as in the run model |
| PacketCodec.DecodeInvertsEncode | internal/reudp/packet.go:55-103 | a packet decodes to itself, whatever follows it in the buffer |
| PacketCodec.AcceptedIsAnImage | internal/reudp/packet.go:79-103 | nothing else is accepted, up to the reserved byte |
| PacketCodec.DecodeRefuses | internal/reudp/packet.go:79-93 | each refusal by its cause, the first that applies |
| PacketCodec.AckRoundTrip | internal/reudp/packet.go:105-121 | an ACK body decodes to itself |
| PacketCodec.AckLengths | internal/reudp/packet.go:112-121 | bodies below four bytes are refused, below twelve carry an empty mask, and longer ones are read as twelve |
| PacketCodec.DatagramSurvivesTheWire | internal/reudp/endpoint.go:536-558 | every datagram of the protocol reaches the peer's handlers as itself |
| PacketCodec.Encode | internal/reudp/packet.go:55-77 | refuses exactly oversized payloads and otherwise writes the image |
| FrameCodec.DecodeInvertsEncode | internal/re2/frame.go:105-162 | a frame decodes to itself and the reader stops behind it, iff the route has at most 512 bytes |
| FrameCodec.AcceptedIsAnImage | internal/re2/frame.go:128-162 | what is taken off the stream is the image of the frame returned |
| FrameCodec.DecodeRefuses | internal/re2/frame.go:128-162 | each refusal by its cause |
| FrameCodec.StreamOfFrames | internal/re2/frame.go:105-162 | a stream of frames splits back into the frames |
| FrameCodec.EncodeFrame | internal/re2/frame.go:105-126 | refuses exactly oversized payloads and otherwise writes the image |
| FrameCodec.InnerRoundTrip | internal/re2/frame.go:172-191 | an inner message decodes to itself |
| FrameCodec.AcceptedIsInner | internal/re2/frame.go:180-191 | an inner message is accepted iff it is as long as it says, and is the image of what is returned |
| FrameCodec.EncodeInner | internal/re2/frame.go:172-178 | the buffer holds type, length and body |
| Channel.SplitInvertsRoute | internal/re2/channel.go:13-26 | SplitRoute gives back device and channel iff the last component has no separator |
| Channel.RouteIsInjective | internal/re2/channel.go:13-18 | separator-free ids and channels have distinct routes |
| Channel.RouteIsAmbiguous | internal/re2/channel.go:13-18 | a device id with the separator shares its route with another device's data channel |

## Left out

- Sockets, websockets, HTTP, files, the database, ffmpeg, OS capture and injection, tray, i18n, registrar and the Windows helper: input and output.
- Cryptography itself: Noise handshakes, key derivation and trial decryption over several pairing keys; the AEAD is a parameter, the video AEAD adds 30 bytes.
- The reliable video paths of desktopPump: one releases the send lock after Encrypt (`cmd/agent/desktop.go:1441-1450`), the other tests CanSend outside it (`cmd/agent/desktop.go:1487-1507`); the nonce theorem does not cover them.
- SendTunnel.Send: another caller's message passes in one instant of the poll; an endpoint or relay connection replaced during it, and a failing socket write, are not modelled.
- SendTunnel.SendReliable: a session reset during its poll, and events between the test that lets a packet through and the critical sections that record it, are not modelled.
- SendTunnel.Session.OnPayload: names the new handshake but does not run it; the runs of Tunnel start from a session that stands.
- REUDP association, ping, probe and error packets, a closed endpoint, and the failure of a socket write after a packet is recorded (a loss to the model).
- Wall-clock time: ticks, the retransmission gaps and the idle flush of readLoop are steps that may happen; elapsed times are parameters.
- The flush of the splitter at end of stream or after idling (`requireComplete` true), which may emit a truncated unit.
- Frames to and from the relay's peers, the messages it writes to them, and exclusivity of client-to-agent forwarding: a client detached by agent loss keeps its route.
- A forced rebind of one connection under a changed client id reports that connection among the displaced; only the slots are stated.
- Pairing tickets and their validation before BIND.
- decodeAction's base64 and JSON, and what the terminal prints; the parser takes the decoder as a parameter.
- The order of the crawl's result, and relays that answer differently during one crawl.
- Video assembly on the client is modelled as parts held by index; deadlines, eviction and the scoring of repairs are not.
- The size, codec and busy-drop of an assembled phone-camera frame, and the JSON form of its parts.
- Displacement of queued input by mouse moves in queueDesktopInput, and concurrent calls of enqueueDesktopInput, whose queueing happens after the lock is released.
- lastRTT, lastLoss, lastJit and lastKbps of the ABR controller, and Snapshot's reset of wantKey.
- ABR convergence is stated for locked pixels, which every OPEN of the agent gives; stepping down a ladder may raise the bitrate again.
- 64-bit overflow of ABR arithmetic and of distances on the ladder.
- The PTY codec (`EncodePTY`, `DecodePTY`), the codec-name tables and MaxSessionsFromMbps: straight computations.
- Pairing-token eviction, PTY sessions, bandwidth probing, relay scoring and chat-list paging.
