# RVPN in Dafny

A model of the deterministic core of RVPN, a UDP virtual private network written in
Rust, and proofs about it. Each component is first a value with step functions, about
which the properties are proved over whole runs. Where the program updates state in
place, a class with the same fields follows, and its methods are proved to take exactly
those steps. Check everything with `dafny verify dfyconfig.toml`.

| part | modules |
|---|---|
| Outbound scheduler: deficit round robin with token buckets | `Scheduler`, `SchedulerInvariant`, `SchedulerRuns`, `SchedulerFairness`, `SchedulerScan`, `SchedulerProgress`, `SchedulerService`, `SchedulerShaping`, `OutboundQueue`, `TokenBucket` |
| Replay window and protected sessions | `Words`, `Replay`, `Session` |
| Wire formats and obfuscation | `Codec`, `HandshakeMessages`, `Obfuscation` |
| Handshake and tunnel, over a record of cryptographic functions with stated laws | `Crypto`, `Handshake`, `Tunnel` |
| Router and packet forwarding | `RoutingTable`, `RouterModel`, `Router`, `IpPacket`, `Net` |
| Server sessions: pending handshakes, active peers, reloads | `Peers`, `Pending`, `ServerModel`, `ServerInvariant`, `ServerRuns`, `ServerReplay`, `ServerLinks`, `ServerConnects`, `ServerLimits`, `Server`, `ChallengeLimiter` |
| Adaptive path MTU | `Mtu` |
| Daily usage history | `Calendar`, `UsageHistory` |

How the program's surroundings appear:

- Every clock reading is a parameter, in nanoseconds on a monotonic clock. A visit of the
  scan has its three readings and an offer its two; other calls have one. Certificates and
  cookies use a separate clock of seconds, and the two ends of a handshake each have their
  own clocks.
- Random bytes (ephemeral secrets, nonces, padding, session ids) are parameters.
  Statements about the server ask that session ids are never drawn twice.
- Cryptography is a record of functions. The laws used are that the AEAD opens what it
  sealed, that both sides of a key agreement reach the same secret, and that a signature
  verifies under its signer's key; `Crypto.PlainIsCorrect` shows that they can hold
  together. No secrecy is claimed.
- A loop over a hash map takes its keys in arbitrary order.
- The event loop is a sequence of atomic steps, one per arm. Sending is not observed.
- Machine integers are bounded types; wrapping, saturating and checked arithmetic are
  written out where the program relies on them.

Where the code differs from what its documentation or tests suggest, the model follows
the code:

- `Router::register` asks only about the edge from the new peer to the other and then
  links both ways. The test of directed links (`crates/rvpn-routing/src/tests.rs`, lines
  91-109) expects one direction only. `RouterModel.RegisterExact` gives the exact
  condition under which the two agree, `RouterModel.DirectedLinkLeaks` an instance where
  they do not, and `RouterModel.RunByAge` the rule that holds for all links.
- A visit that the rate limit refuses keeps its quantum and earns another at the next
  visit (`SchedulerFairness.RefusalsPile`). Fairness is stated for queues without a rate
  limit.
- A refill discards fractions of a byte. The upper bound on admitted bytes holds for every
  pattern of calls, the lower bound does not: `TokenBucket.LowerBoundFails` is a pattern
  that admits nothing, `TokenBucket.RunLosesNothing` the exact condition.
- A reload is documented to apply changed traffic limits (`docs/architecture.md`, lines
  81-83). The receive rate of a session that connects afterwards is still the one read at
  startup (`ServerLimits.NewcomerMissesReload`); `ServerLimits.ReceiveRate` says exactly
  which sessions have the rate in force.
- The queue forgets a peer that was idle for a second, and its bucket with it. At 65535
  bytes a second or more its output conforms all the same
  (`SchedulerShaping.QueueConforms`); at any lower rate it need not
  (`SchedulerShaping.BelowBurstFails`).
- Empty payloads cost no deficit, so a peer that sends only those can keep the front of
  the rotation (`SchedulerService.EmptyPayloadsStarve`). With payloads of at least a byte
  every peer is served (`SchedulerService.NoneStarves`).
- A cookie flag other than one decodes as no cookie, so for initiations only decoding
  after encoding is the identity.
- The challenge limiter's windows begin with the event that opens them, which gives 7 and
  199 as the bounds behind its limits of 4 and 100 per second; both are reached
  (`ChallengeLimiter.SourceBoundReached`, `ChallengeLimiter.OverallBoundReached`).

## Model

| member | source | states |
|---|---|---|
| `SchedulerFairness.Fairness` | crates/rvpn-transport/src/congestion.rs:264-334 | In every run without a rate limit, from a state where both have no deficit and no open round, two peers that stay backlogged with payloads of at most `limit` bytes have after every step been served byte totals that differ by less than 1500 + `limit`. |
| `SchedulerFairness.FrontIsLeader` | crates/rvpn-transport/src/congestion.rs:282-334 | When the peer whose turn comes first is at the front, one visit keeps the two peers in step: served plus deficit is 1500 times the grants, and grants alternate. |
| `SchedulerFairness.FrontIsFollower` | crates/rvpn-transport/src/congestion.rs:282-334 | The same when the peer whose turn comes second is at the front. |
| `SchedulerFairness.FrontIsOther` | crates/rvpn-transport/src/congestion.rs:282-334 | A visit to any third peer leaves the two peers' ledgers and their order in the rotation alone. |
| `SchedulerFairness.OfferKeepsStep` | crates/rvpn-transport/src/congestion.rs:206-254 | Offering a datagram to anyone leaves the two peers in step. |
| `SchedulerRuns.OutputIsPrefixOfInput` | crates/rvpn-transport/src/congestion.rs:176-335 | In every run of a new queue each peer's dequeued datagrams followed by its queued ones are exactly the accepted ones in order, so its output is a prefix of its input. |
| `SchedulerRuns.StepConserves` | crates/rvpn-transport/src/congestion.rs:206-335 | What a peer had waiting plus what one step accepts for it is what the step hands out for it plus what it has waiting afterwards. |
| `SchedulerInvariant.EnqueueKeepsValid` | crates/rvpn-transport/src/congestion.rs:206-254 | Offering keeps the rotation listing each non-empty peer once and no empty one, the capacity bounds, bucket sanity and the counter, also when the datagram is refused. |
| `SchedulerInvariant.VisitKeepsValid` | crates/rvpn-transport/src/congestion.rs:275-334 | So does every visit of the scan, whatever its outcome. |
| `SchedulerInvariant.SetRateKeepsValid` | crates/rvpn-transport/src/congestion.rs:176-189 | So does a change of rate. |
| `SchedulerInvariant.CounterIsTrueTotal` | crates/rvpn-transport/src/congestion.rs:249-250 | The queue counter is the number of datagrams held by all peers together. |
| `SchedulerProgress.UnshapedProgress` | crates/rvpn-transport/src/congestion.rs:264-350 | Once the quanta of the scans made cover what some unshaped waiting peer lacked at the start, one of them has returned a datagram, whatever is offered to any peer before each scan. |
| `SchedulerProgress.UndisturbedProgress` | crates/rvpn-transport/src/congestion.rs:264-350 | The same with no offers in between, for scans as long as the rotation was at the start. |
| `SchedulerProgress.EventKeepsLack` | crates/rvpn-transport/src/congestion.rs:206-254 | No offer adds to what a waiting peer lacks, or takes it off the rotation. |
| `SchedulerProgress.SendsOrGains` | crates/rvpn-transport/src/congestion.rs:273-336 | A full scan sends something or brings every unshaped waiting peer one quantum closer to sending. |
| `SchedulerService.NoneStarves` | crates/rvpn-transport/src/congestion.rs:264-350 | In every run without shaping and with payloads of one byte to `limit`, the datagram waiting first for a peer leaves within a number of visits that depends on `limit` alone, whatever is offered to anyone meanwhile. |
| `SchedulerService.HeadLeaves` | crates/rvpn-transport/src/congestion.rs:264-350 | After more visits than its wait, what was waiting first for a peer has left, before any other datagram of that peer. |
| `SchedulerService.StepWaits` | crates/rvpn-transport/src/congestion.rs:206-334 | A visit serves the peer, with what was waiting first, or lowers its wait; offers and rate changes that leave shaping off do not raise it. |
| `SchedulerService.EmptyPayloadsStarve` | crates/rvpn-transport/src/congestion.rs:314-334 | With empty payloads a peer can starve: from a new queue, one peer offered an empty datagram before each visit keeps the front for any number of visits while another waits with a single byte. |
| `SchedulerScan.ShapedProgress` | crates/rvpn-transport/src/congestion.rs:297-350 | With rate limits and heads within bucket capacity, an undisturbed scan made once the returned wait is over returns a datagram. |
| `SchedulerScan.WaitIsLeast` | crates/rvpn-transport/src/congestion.rs:297-350 | When every peer was refused by its bucket, no scan that asks each of them again before the returned wait has passed since it was asked returns anything. |
| `SchedulerFairness.RefusalsPile` | crates/rvpn-transport/src/congestion.rs:282-325 | Visits that the bucket refuses leave one quantum each: after n of them the peer holds 1500 n bytes of deficit more, up to the largest `usize`. |
| `SchedulerShaping.QueueConforms` | crates/rvpn-transport/src/congestion.rs:206-334 | After any run, in every further stretch without a change of rate and at a rate of at least 65535 bytes a second, the bytes handed out for a peer are at most one burst plus the rate times the time the stretch takes, however often the peer is forgotten. |
| `SchedulerShaping.BelowBurstFails` | crates/rvpn-transport/src/congestion.rs:206-227 | At every lower rate the bound fails: a peer that sends one burst, falls idle for a second and is forgotten, then sends another, gets two bursts in a second. |
| `SchedulerShaping.ForgottenCovered` | crates/rvpn-transport/src/congestion.rs:214-227 | When an idle peer is forgotten, its bucket has had a second, which at such a rate is worth the whole burst that a new bucket brings. |
| `OutboundQueue.OutboundQueue.constructor` | crates/rvpn-transport/src/congestion.rs:140-164 | A new queue is the empty one with capacities clamped as written. |
| `OutboundQueue.OutboundQueue.SetRateBytesPerSec` | crates/rvpn-transport/src/congestion.rs:176-189 | The loop over the peers gives every bucket the new rate and nothing else changes. |
| `OutboundQueue.OutboundQueue.TryEnqueueKeyed` | crates/rvpn-transport/src/congestion.rs:206-254 | The in-place enqueue is the specified one, with back-pressure in exactly the three refusing cases and the atomic gauge equal to the counter. |
| `OutboundQueue.OutboundQueue.TakeTurn` | crates/rvpn-transport/src/congestion.rs:282-325 | The straight-line turn of one peer equals its specification: quantum, deficit test, bucket, departure, end of round. |
| `OutboundQueue.OutboundQueue.VisitFront` | crates/rvpn-transport/src/congestion.rs:275-334 | One iteration of the scan loop updates map, rotation and counters as specified. |
| `OutboundQueue.OutboundQueue.ScanOnce` | crates/rvpn-transport/src/congestion.rs:273-336 | The scan loop as a whole returns the first datagram, the shortest wait and the yield flag of its visits, and leaves the state after them. |
| `TokenBucket.Conformance` | crates/rvpn-transport/src/congestion.rs:86-131 | After any calls, in every further stretch at one rate, the bytes let through are at most one burst plus rate times elapsed time, despite clamping. |
| `TokenBucket.DelayIsLeast` | crates/rvpn-transport/src/congestion.rs:118-129 | The returned delay is the least wait after which the same payload passes: it passes after `wait` if and only if `wait` is at least the delay. |
| `TokenBucket.DelayFits` | crates/rvpn-transport/src/congestion.rs:123-129 | For a payload within capacity the delay is never clamped. |
| `TokenBucket.PolledDry` | crates/rvpn-transport/src/congestion.rs:106-131 | Below a byte a nanosecond, a bucket short of the payload and polled every nanosecond admits nothing, for any number of polls. |
| `TokenBucket.LowerBoundFails` | crates/rvpn-transport/src/congestion.rs:106-131 | An empty bucket of a million bytes a second, polled every nanosecond for a second, admits nothing, and asked once after that second admits a million. |
| `TokenBucket.RefillLosesNothing` | crates/rvpn-transport/src/congestion.rs:106-117 | Away from the clamps, a refill adds the full rate times elapsed time if and only if that makes whole bytes. |
| `TokenBucket.RunLedger` | crates/rvpn-transport/src/congestion.rs:106-131 | In a run away from the clamps, bytes left, admitted and discarded add up exactly to bytes held and earned. |
| `TokenBucket.RunLosesNothing` | crates/rvpn-transport/src/congestion.rs:106-131 | Such a run admits or still holds every byte held or earned if and only if each call came after a time that makes whole bytes. |
| `TokenBucket.OversizedNeverPasses` | crates/rvpn-transport/src/congestion.rs:119-122 | A payload above the capacity is refused at every time. |
| `TokenBucket.PeerRateLimiter.constructor` | apps/rvpn-server/src/state.rs:28-36 | A new receive limiter is a full bucket of the burst its rate calls for. |
| `TokenBucket.PeerRateLimiter.Police` | apps/rvpn-server/src/state.rs:38-59 | The receive limiter refills and charges the same bucket, so conformance holds for it; a zero rate lets everything through and changes nothing. |
| `Replay.ReplayWindow.CheckAndRecord` | crates/rvpn-protocol/src/replay.rs:22-50 | The ring of 32 words gives the verdict of the plain rule over the set of all numbers ever accepted, and records it. |
| `Replay.ReplayWindow.Slide` | crates/rvpn-protocol/src/replay.rs:28-38 | Sliding forward clears exactly the slots of the skipped numbers, or all of them, and keeps every other. |
| `Replay.ReplayWindow.ClearRange` | crates/rvpn-protocol/src/replay.rs:62-86 | Word-wise masked clearing clears exactly the slots ahead of the highest by at most the shift, around the ring. |
| `Replay.ReplayWindow.Clone` | crates/rvpn-protocol/src/session.rs:38-49 | A cloned window has the same memory in its own words. |
| `Replay.RunRemembersAccepted` | crates/rvpn-protocol/src/replay.rs:22-50 | After any run the window holds exactly the numbers it accepted. |
| `Replay.NeverAcceptedTwice` | crates/rvpn-protocol/src/replay.rs:22-50 | No number is accepted twice in any run. |
| `Replay.AcceptedOnFirstArrival` | crates/rvpn-protocol/src/replay.rs:22-50 | A number not accepted before and less than 2048 behind every accepted one is accepted. |
| `Session.AtMostOnce` | crates/rvpn-protocol/src/session.rs:38-126 | Along every chain of sends, arrivals and rekeys with grace periods, each (key phase, sequence) is opened at most once and no two sealed packets share a nonce. |
| `Session.ActIsNew` | crates/rvpn-protocol/src/session.rs:74-126 | What an action seals or opens is not remembered before it and is remembered after it. |
| `Session.ActKeepsMemory` | crates/rvpn-protocol/src/session.rs:38-126 | No later action, rekeys included, forgets a number that could still be replayed. |
| `Session.RefusalChangesNothing` | crates/rvpn-protocol/src/session.rs:96-126 | A packet refused for whatever reason, failed authentication included, leaves the session as it was. |
| `Session.SealedOpens` | crates/rvpn-protocol/src/session.rs:74-126 | What one end seals the mirrored end opens to the same plaintext, exactly when its window accepts the sequence number. |
| `Session.InFlightOpens` | crates/rvpn-protocol/src/session.rs:102-117 | During the grace period the successor treats a packet of the old phase as its predecessor would have. |
| `Session.ProtectedSession.constructor` | crates/rvpn-protocol/src/session.rs:26-36 | A new session starts at sequence zero with a fresh window and no previous phase. |
| `Session.ProtectedSession.InheritPrevious` | crates/rvpn-protocol/src/session.rs:38-49 | A successor keeps a clone of the old window, unless the grace is zero, the ids differ or the phase is not older. |
| `Session.ProtectedSession.SealPacket` | crates/rvpn-protocol/src/session.rs:74-94 | Sealing is the specified step: refused for handshakes and at the last number, else one number used. |
| `Session.ProtectedSession.OpenPacket` | crates/rvpn-protocol/src/session.rs:96-126 | Opening is the specified step: authentication first, then the window of the packet's own phase. |
| `Crypto.NonceInjective` | crates/rvpn-crypto/src/session.rs:169-174 | Equal nonces come from equal phase and sequence. |
| `Codec.PacketRoundTrip` | crates/rvpn-protocol/src/packet.rs:44-94 | Decoding an encoded packet gives the packet back. |
| `Codec.PacketCanonical` | crates/rvpn-protocol/src/packet.rs:44-94 | A byte string decodes to a packet if and only if the packet encodes to it. |
| `HandshakeMessages.MessageRoundTrip` | crates/rvpn-protocol/src/handshake.rs:168-289 | Decoding an encoded handshake message gives it back, for all four kinds. |
| `HandshakeMessages.MessageCanonical` | crates/rvpn-protocol/src/handshake.rs:222-289 | Encoding a decoded message gives the bytes back if and only if it is not an initiation whose cookie field encoding never writes. |
| `HandshakeMessages.ProofRoundTrip` | crates/rvpn-protocol/src/handshake.rs:43-85 | Decoding an encoded proof body gives the proof back. |
| `HandshakeMessages.ProofCanonical` | crates/rvpn-protocol/src/handshake.rs:62-85 | Encoding a decoded proof gives the bytes back if and only if it is a certificate or its unused tail is zero. |
| `Obfuscation.UnwrapsWhatItWraps` | crates/rvpn-crypto/src/obfuscation.rs:32-78 | Unwrapping a wrapped datagram gives the packet back for every nonce and padding, and the overhead is at most 109 bytes. |
| `Obfuscation.WrapCovers` | crates/rvpn-crypto/src/obfuscation.rs:32-78 | A datagram that unwraps is one wrapping can produce, if and only if its padding length is at most 96. |
| `Obfuscation.ApplyKeystream` | crates/rvpn-crypto/src/obfuscation.rs:52-54 | The in-place keystream masks every byte of the buffer once. |
| `Obfuscation.WrapDatagram` | crates/rvpn-crypto/src/obfuscation.rs:32-60 | The buffer-building wrap is the specified datagram. |
| `Obfuscation.UnwrapDatagram` | crates/rvpn-crypto/src/obfuscation.rs:62-78 | The buffer-masking unwrap is the specified result, with both too-short errors. |
| `Handshake.Agreement` | crates/rvpn-protocol/src/authenticated_handshake.rs:148-355 | Between two ends set up for each other, each by its own clock, initial or rekey, with or without a cookie, the three-message exchange succeeds unless the key agreement is degenerate, and both ends know each other and hold the two new ends of the same session and phase with mirrored keys. |
| `Handshake.AuthenticatedFinishes` | crates/rvpn-protocol/src/authenticated_handshake.rs:148-250 | The check made before committing and the checks made when finishing are written twice and agree: a response is authenticated if and only if finishing for its own session succeeds at the same clock reading. |
| `Handshake.HonestAccept` | crates/rvpn-protocol/src/authenticated_handshake.rs:268-315 | An honest response lets the initiator reach the same secret and proof keys and verify who sent it. |
| `Handshake.HonestFinish` | crates/rvpn-protocol/src/authenticated_handshake.rs:185-355 | An honest finish is accepted by the responder, who then knows the initiator and holds the other end of the session. |
| `Handshake.HonestProofVerifies` | crates/rvpn-protocol/src/authenticated_handshake.rs:30-76 | A proof made by an identity verifies under any verifier set up for it, pinned or by certificate. |
| `Handshake.CertificateRoundTrip` | crates/rvpn-crypto/src/identity.rs:102-122 | Decoding an encoded certificate gives it back. |
| `Tunnel.EndToEnd` | apps/rvpn-server/src/tunnel.rs:35-103 | With or without an obfuscation key, from two fresh ends, whatever is lost, repeated or reordered, an arriving datagram yields the plaintext that was sealed, encoded and wrapped exactly when the replay rule accepts its number. |
| `Tunnel.ExchangeDelivers` | crates/rvpn-protocol/src/authenticated_handshake.rs:80-355 | From handshake to delivery: an initiator that starts, answers a cookie challenge or not, and completes the exchange, ends with a session on which each side receives on first arrival within the window what the other sends. |
| `Tunnel.FirstArrivalDelivers` | crates/rvpn-protocol/src/session.rs:74-126 | On first arrival, less than a window behind everything that arrived, the plaintext comes out. |
| `Tunnel.AbsorbsEmitted` | apps/rvpn-server/src/tunnel.rs:723-739 | Unwrapping and decoding undo wrapping and encoding, so opening sees the very packet that was sealed. |
| `RoutingTable.FirstMatchIsOwner` | crates/rvpn-routing/src/router.rs:213-232 | In any sorted table with the right rows, the first match is the session with the longest containing prefix, smallest id on ties. |
| `RoutingTable.OrderIrrelevant` | crates/rvpn-routing/src/router.rs:213-232 | Two tables of the same prefixes answer alike, in whatever order the hash map was iterated. |
| `RoutingTable.OwnerUnique` | crates/rvpn-routing/src/router.rs:227-232 | The declarative owner of an address is unique. |
| `RoutingTable.CollectRows` | crates/rvpn-routing/src/router.rs:214-218 | Taking the peers in any order collects exactly their prefixes. |
| `RoutingTable.SortRows` | crates/rvpn-routing/src/router.rs:219-223 | The sorted table is in preference order and a permutation of the rows. |
| `RoutingTable.BuildTable` | crates/rvpn-routing/src/router.rs:213-225 | Rebuilding gives a sorted table with exactly the peers' prefixes. |
| `RoutingTable.FindOwner` | crates/rvpn-routing/src/router.rs:227-232 | The search loop returns the first match. |
| `RouterModel.RegisterExact` | crates/rvpn-routing/src/router.rs:155-180 | One registration keeps every peer's receivers exact if and only if the edges between the new name and each other registered name are symmetric. |
| `RouterModel.DirectedLinkLeaks` | crates/rvpn-routing/src/router.rs:164-168 | With a single one-way edge, registering both peers gives the receiver of that edge a receiver it is not authorised for. |
| `RouterModel.ReplaceLinksExact` | crates/rvpn-routing/src/router.rs:139-153 | Replacing the links makes every peer's receivers exact for any set of edges. |
| `RouterModel.UnregisterExact` | crates/rvpn-routing/src/router.rs:182-195 | Removing a peer keeps the others' receivers exact. |
| `RouterModel.RunByAge` | crates/rvpn-routing/src/router.rs:139-195 | In every run, for any edges: of two peers one of which registered after the links were last replaced, each receives from the other if and only if there is an edge from the later registered one to the earlier; between peers already there, receivers follow the direction of the edges. |
| `RouterModel.RunExact` | crates/rvpn-routing/src/router.rs:139-195 | Where the links in force are symmetric, every peer's receivers are exact, whatever the links were before. |
| `RouterModel.RunKeepsValid` | crates/rvpn-routing/src/router.rs:139-311 | In every run receivers are registered peers other than the owner, the MAC table and the peers' sets are exact inverses, and no peer has more than 16. |
| `RouterModel.OwnerStays` | crates/rvpn-routing/src/router.rs:182-195 | A learned MAC keeps its owner through every run that does not unregister or re-register that owner. |
| `RouterModel.RouteIpSound` | crates/rvpn-routing/src/router.rs:234-253 | A packet is forwarded to a peer if and only if its source is allowed to the sender and that peer is the longest-prefix owner of its destination and linked to the sender. |
| `RouterModel.ForwardsAuthorised` | crates/rvpn-routing/src/router.rs:234-253 | In every state that keeps that rule forwarded packets come from an allowed source and go only to registered peers, other than the sender, that the deciding edge lets it reach. |
| `RouterModel.FrameForwardsAuthorised` | crates/rvpn-routing/src/router.rs:255-311 | The same for frames, whose source MAC then belongs to the sender. |
| `RouterModel.LocalFrameSound` | crates/rvpn-routing/src/router.rs:317-332 | Local frames reach only registered peers, and one for a learned MAC just the peer that learned it. |
| `Router.Router.constructor` | crates/rvpn-routing/src/router.rs:130-135 | A new router has its links and nothing else. |
| `Router.Router.ReplaceLinks` | crates/rvpn-routing/src/router.rs:139-153 | The loop over the peers rebuilds each receiver set and keeps table and MACs. |
| `Router.Router.Register` | crates/rvpn-routing/src/router.rs:155-180 | Unregister, link in a loop over the peers, insert and rebuild: the specified state with a matching table. |
| `Router.Router.Unregister` | crates/rvpn-routing/src/router.rs:182-195 | The loops over MACs and peers leave the specified state with a matching table, and nothing changes for an unknown session. |
| `Router.Router.RouteIp` | crates/rvpn-routing/src/router.rs:234-253 | The verdict is the specified one for the table held. |
| `Router.Router.RouteFromLocalIp` | crates/rvpn-routing/src/router.rs:313-315 | A local packet goes to the declarative owner of its destination. |
| `Router.Router.LearnMac` | crates/rvpn-routing/src/router.rs:280-292 | Learning refuses another peer's MAC and a seventeenth one, and otherwise records both directions. |
| `Router.Router.RouteFrame` | crates/rvpn-routing/src/router.rs:255-311 | The verdict and the learned state are the specified ones. |
| `IpPacket.ForwardingPreserves` | crates/rvpn-routing/src/packet.rs:13-79 | An accepted packet is forwarded exactly when it has more than one hop left, and the result is accepted with the same addresses, one hop less, a checksum that verifies and no other byte changed. |
| `IpPacket.ChecksumVerifies` | crates/rvpn-routing/src/packet.rs:137-151 | A header whose checksum field holds the one's-complement sum of the rest verifies. |
| `IpPacket.PassesIffMultiple` | crates/rvpn-routing/src/packet.rs:137-151 | A header verifies exactly when its words sum to a positive multiple of 65535. |
| `IpPacket.HeaderChecksum` | crates/rvpn-routing/src/packet.rs:137-151 | The summing and folding loops compute the one's-complement checksum of section 3.1 of RFC 791. |
| `IpPacket.CheckIpv6` | crates/rvpn-routing/src/packet.rs:41-79 | The extension-header loop accepts exactly the packets of the recursive walk. |
| `IpPacket.Ipv6AcceptsChains` | crates/rvpn-routing/src/packet.rs:41-79 | An IPv6 packet is accepted exactly when some chain of at most eight extension headers explains it. |
| `IpPacket.DecrementHopLimit` | crates/rvpn-routing/src/packet.rs:153-182 | The buffer becomes the forwarded packet, or is left untouched when the packet is refused. |
| `IpPacket.PrepareForward` | crates/rvpn-routing/src/packet.rs:184-187 | The copy is the forwarded packet, or none when the packet is refused. |
| `Mtu.Hysteresis` | crates/rvpn-transport/src/mtu.rs:70-204 | In every timed run the effective MTU is within its bounds and a live probe above it and not past the target after every step, any two changes are at least five seconds apart, and an increase comes at least eight seconds after the change before it or the start. |
| `Mtu.RecoversAtAnyPace` | crates/rvpn-transport/src/mtu.rs:115-150 | Successes at any pace bring the effective MTU to the target once as many of them as a distance measure says fell outside a waiting period, unless the success counter runs full. |
| `Mtu.SuccessCloses` | crates/rvpn-transport/src/mtu.rs:115-150 | A success outside a waiting period takes exactly one off that distance. |
| `Mtu.HinderedSuccess` | crates/rvpn-transport/src/mtu.rs:115-150 | A success inside one adds to it if and only if it runs the counter full short of the target. |
| `Mtu.SpacedRecovers` | crates/rvpn-transport/src/mtu.rs:115-150 | Successes five seconds apart reach the target exactly when there are as many of them as the distance says. |
| `Mtu.RoundRaises` | crates/rvpn-transport/src/mtu.rs:115-150 | 64 successes over five seconds and then 16 over three, or more of either, raise the effective MTU whenever it is short of the target. |
| `Mtu.RunSettles` | crates/rvpn-transport/src/mtu.rs:70-204 | Every state of a timed run is one that such rounds can start from. |
| `Mtu.RoundsRecover` | crates/rvpn-transport/src/mtu.rs:115-150 | As many such rounds as probes are missing bring the effective MTU to the target. |
| `Mtu.RoundPerByteRecovers` | crates/rvpn-transport/src/mtu.rs:115-150 | One round for each byte between the effective MTU and the target is enough. |
| `Mtu.DistanceAtMost` | crates/rvpn-transport/src/mtu.rs:135-147 | That distance is at most 80 per byte of gap, plus one for a counter about to wrap. |
| `Mtu.StepKeepsLimits` | crates/rvpn-transport/src/mtu.rs:115-204 | Every record keeps minimum <= effective <= target, a candidate exactly while a probe runs, and the candidate above the effective MTU and at most at the target. |
| `Mtu.ReasonTellsChange` | crates/rvpn-transport/src/mtu.rs:115-204 | The reported reason says whether the effective MTU rose, fell or stayed. |
| `Mtu.AdaptiveMtu.constructor` | crates/rvpn-transport/src/mtu.rs:70-86 | Target and minimum are clamped to at least one and to each other. |
| `Mtu.AdaptiveMtu.RecordSuccess` | crates/rvpn-transport/src/mtu.rs:115-150 | The in-place update is the specified step. |
| `Mtu.AdaptiveMtu.RecordPathFailure` | crates/rvpn-transport/src/mtu.rs:152-179 | The in-place update is the specified step. |
| `Mtu.AdaptiveMtu.RecordOversized` | crates/rvpn-transport/src/mtu.rs:181-204 | The in-place update is the specified step. |
| `Calendar.ClosedFormIsCalendar` | apps/rvpn-server/src/usage_history.rs:232-262 | For every day number the closed-form date is the one reached by stepping day by day from 1 January 1970, and reading it back gives the number. |
| `Calendar.CivilRoundTrip` | apps/rvpn-server/src/usage_history.rs:232-262 | Naming the day of any Gregorian date gives that date back. |
| `Calendar.NextDayIsOneMore` | apps/rvpn-server/src/usage_history.rs:247-262 | The number of the next day is one more. |
| `UsageHistory.KeyRoundTrip` | apps/rvpn-server/src/usage_history.rs:232-262 | Parsing a formatted day, with 64-bit wrap-around, gives the same day number, for every day a clock of `u64` seconds can name. |
| `UsageHistory.KeptExactlyWhile` | apps/rvpn-server/src/usage_history.rs:188-197 | A bucket is kept exactly while day <= today < day + retention. |
| `UsageHistory.History.Prune` | apps/rvpn-server/src/usage_history.rs:188-197 | Pruning keeps exactly those buckets with their totals and marks the file dirty only if one went. |
| `ChallengeLimiter.RateBound` | apps/rvpn-server/src/handshake.rs:31-74 | After any requests, any stretch shorter than a second admits at most 7 challenges to one address and 199 in total, and the source map never exceeds 8192 entries. |
| `ChallengeLimiter.SourceBoundReached` | apps/rvpn-server/src/handshake.rs:31-74 | Seven challenges to one address in less than a second do happen. |
| `ChallengeLimiter.OverallBoundReached` | apps/rvpn-server/src/handshake.rs:31-74 | Nor is the total too generous: for every n up to the limit 2n - 1 are admitted in less than a second, 199 at the limit of 100, to addresses none of which is over its own limit. |
| `ChallengeLimiter.BelowLimitsAdmitted` | apps/rvpn-server/src/handshake.rs:31-74 | A request is admitted whenever fewer than 4 from its address and fewer than 100 in all came in the second before it and the map has room. |
| `ChallengeLimiter.StepSpends` | apps/rvpn-server/src/handshake.rs:31-74 | Each admitted request uses up one of the admissions its address and everyone have left, and pruning or a new window never adds any. |
| `ChallengeLimiter.CookieChallengeLimiter.Allow` | apps/rvpn-server/src/handshake.rs:32-74 | The in-place limiter is the specified step. |
| `Pending.PendingHandshakes.constructor` | apps/rvpn-server/src/state.rs:164-166 | A new table is empty. |
| `Pending.PendingHandshakes.Insert` | apps/rvpn-server/src/state.rs:184-190 | Inserting, also over an entry from another source, leaves every stored count the true number of live entries and none zero. |
| `Pending.PendingHandshakes.Remove` | apps/rvpn-server/src/state.rs:192-198 | So does removing, which returns what was there. |
| `Pending.PendingHandshakes.Retain` | apps/rvpn-server/src/state.rs:200-212 | So does the retaining loop, which keeps exactly the entries asked for. |
| `Pending.PendingHandshakes.Decrement` | apps/rvpn-server/src/state.rs:218-225 | One less for the source, and no zero count stored. |
| `Pending.PendingHandshakes.Count` | apps/rvpn-server/src/state.rs:180-182 | The stored count is the number of live entries from that source. |
| `Pending.PendingHandshakes.ResendAll` | apps/rvpn-server/src/handshake.rs:522-531 | Every live response is counted as sent once more and no count changes. |
| `Pending.RemovalAccurate` | apps/rvpn-server/src/state.rs:192-225 | Taking one entry away and one off its source's count keeps all counts true. |
| `Pending.AdditionAccurate` | apps/rvpn-server/src/state.rs:184-190 | Adding one entry and one to its source's count keeps all counts true. |
| `ServerRuns.ServerAgreement` | apps/rvpn-server/src/tunnel.rs:487-876 | After every run from launch with fresh session ids: the router holds exactly the active sessions under the same names and prefixes, no two active sessions belong to one peer, a handshake pending for an active session is a rekey of the same identity one phase ahead, no source exceeds its share, and no response was sent more often than the retry limit. |
| `ServerRuns.StepKeepsValid` | apps/rvpn-server/src/tunnel.rs:487-876 | Every arm of the event loop keeps that invariant. |
| `ServerRuns.ReloadedKeepsValid` | apps/rvpn-server/src/tunnel.rs:170-254 | A reload keeps it whatever it changes, the per-source limit included. |
| `ServerRuns.RekeyIsSuccessor` | apps/rvpn-server/src/handshake.rs:493-513 | A finished rekey is the next link of the session's chain, one phase on, with the receive limiter carried over and the router untouched. |
| `ServerConnects.PeerConnects` | apps/rvpn-server/src/handshake.rs:234-513 | An honest initiator known to the server and with nothing pending sends its initiation, finishes the response meant for it, and is then an active, registered peer whose session on the server is the other end of its own. |
| `ServerLimits.ReceiveRate` | apps/rvpn-server/src/tunnel.rs:239-247 | In every state of every run a session has the receive rate in force if the limits changed while it was active and the one read at startup otherwise, so it has the rate in force if and only if it saw such a change or the two rates are equal. |
| `ServerLimits.NewcomerMissesReload` | apps/rvpn-server/src/tunnel.rs:754-759 | After an accepted reload to another receive limit, an honest peer that connects has the rate read at startup, not the one in force. |
| `ServerLimits.StepLimiter` | apps/rvpn-server/src/tunnel.rs:487-876 | Only policing and a change of limits touch the limiter of an active session; a rekey carries it over, and a new session starts at the startup's rate. |
| `ServerLimits.PolicingConforms` | apps/rvpn-server/src/tunnel.rs:360-370 | In any stretch of a timed run through which a session stays active and the limits do not change, rekeys included, the payload bytes let through are at most one burst plus the session's rate times the time between the first and the last payload. |
| `ServerRuns.RetriesEnd` | apps/rvpn-server/src/handshake.rs:515-533 | A response already sent `attempts` times survives exactly the timers that bring it to the retry limit. |
| `ServerRuns.FirstTrialIsFull` | apps/rvpn-server/src/handshake.rs:83-91 | The per-source limit never cuts a first trial short: for an initiation from a source with nothing pending, below the global limit, the response as every identity, and for the certificate authority besides, is kept pending whenever it can be computed. |
| `ServerRuns.RespondedAsEach` | apps/rvpn-server/src/handshake.rs:262-284 | While the source's share lasts, the loop over identities keeps the response as each of them pending. |
| `ServerInvariant.FinishKeepsValid` | apps/rvpn-server/src/handshake.rs:391-513 | A finish packet keeps the invariant: unknown, mismatched, malformed, rejected or established. |
| `ServerInvariant.AdmitAgrees` | apps/rvpn-server/src/handshake.rs:478-513 | Evicting the peer's other sessions and registering the new one keeps router and active sessions in agreement. |
| `ServerInvariant.BeginInitialKeeps` | apps/rvpn-server/src/handshake.rs:234-307 | Answering an initiation as every identity keeps every source within its share. |
| `ServerInvariant.BeginRekeyKeeps` | apps/rvpn-server/src/handshake.rs:309-365 | A rekey answer is one phase ahead of its session and within the source's share. |
| `ServerInvariant.LaunchValid` | apps/rvpn-server/src/tunnel.rs:418-437 | The state at launch satisfies the invariant. |
| `ServerReplay.AcceptedOnce` | apps/rvpn-server/src/tunnel.rs:740-873 | In every run, through rekeys, closes, evictions, sessions resumed by a pending rekey, and reloads, each (session, key phase, sequence) is accepted at most once. |
| `ServerReplay.SealedOnce` | apps/rvpn-server/src/tunnel.rs:71-103 | In every such run no two packets of one session are sealed under the same nonce. |
| `ServerReplay.StepRefuses` | apps/rvpn-server/src/tunnel.rs:487-876 | Once a packet or a sequence number is refused for good every step keeps refusing it. |
| `ServerReplay.UseIsRefused` | apps/rvpn-server/src/tunnel.rs:823-871 | What a step opens or seals cannot be opened or sealed again from then on. |
| `ServerLinks.ReceiversByAge` | apps/rvpn-server/src/tunnel.rs:136-164 | In every state of every run, whatever the links, an active peer may send to another exactly as the configuration in force says of the two, read from the later registered to the earlier, or from sender to receiver where both were there when the links last changed. |
| `ServerLinks.ReceiversAsConfigured` | apps/rvpn-server/src/tunnel.rs:136-164 | Where the configuration in force has groups only, a peer's receivers are exactly the other active peers in a group with it, whatever the links were before. |
| `ServerLinks.LinksPermit` | apps/rvpn-server/src/tunnel.rs:149-164 | The edges of a configuration are exactly what its sections permit. |
| `ServerLinks.GroupsSymmetric` | apps/rvpn-server/src/tunnel.rs:149-164 | Sections without a one-way part give symmetric edges. |
| `Server.UnregisterAll` | apps/rvpn-server/src/tunnel.rs:230-232 | Unregistering in any order removes the sessions, their MACs and every link to them. |
| `Server.EvictStale` | apps/rvpn-server/src/handshake.rs:478-491 | The retaining pass drops and reports exactly the peer's other sessions. |
| `Server.RegisterNewPeers` | apps/rvpn-server/src/tunnel.rs:136-147 | The active sessions that the router did not know, and no others, are registered one after the other, each once, in whatever order the map yields them. |
| `Server.OnlyOne` | apps/rvpn-server/src/tunnel.rs:136-147 | Where only the session just admitted can be missing, the order does not matter. |
| `Server.ServerLoop.constructor` | apps/rvpn-server/src/tunnel.rs:418-437 | The loop starts in the launch state. |
| `Server.ServerLoop.BeginInitial` | apps/rvpn-server/src/handshake.rs:234-307 | The loop over identities, the early stops and the certificate authority's turn leave the specified pending handshakes. |
| `Server.ServerLoop.BeginRekey` | apps/rvpn-server/src/handshake.rs:309-365 | The specified pending handshake, or none when one is pending, the share is used up or the phases are exhausted. |
| `Server.ServerLoop.RekeyReceived` | apps/rvpn-server/src/tunnel.rs:789-822 | Only an initiation from the peer's own endpoint in its current phase starts a rekey. |
| `Server.ServerLoop.FinishPending` | apps/rvpn-server/src/handshake.rs:391-513 | The pending entry is used up and, if the finish is genuine, the peer admitted and its other sessions reported. |
| `Server.ServerLoop.FinishReceived` | apps/rvpn-server/src/tunnel.rs:754-759 | Finish, unregister the evicted, register the new: the specified state. |
| `Server.ServerLoop.SweepIdle` | apps/rvpn-server/src/tunnel.rs:527-541 | Exactly the sessions idle for longer than the timeout leave the active map and the router. |
| `Server.ServerLoop.RetransmitPending` | apps/rvpn-server/src/handshake.rs:515-533 | Spent entries go and every other response is sent and counted once more. |
| `Server.ServerLoop.CloseAllSessions` | apps/rvpn-server/src/tunnel.rs:228-236 | No session, registration or pending handshake is left. |
| `Server.ServerLoop.ReloadConfig` | apps/rvpn-server/src/tunnel.rs:170-254 | The reload is the specified one, the outbound queue's rate included; it reports a rejection exactly in the rejecting cases and a change exactly when something differs, and without a change everything is as it was. |

## Left out

- Sockets, virtual interfaces, netlink, D-Bus, packet filters, the kill switch, the Android and desktop shells: input and output without a core to check.
- Task wake-ups, channel closure and cancellation: `recv` is one scan and the wait it returns.
- Real cryptography (X25519, Ed25519, ChaCha20-Poly1305, HMAC, SHA-256): only the three laws above.
- The cookie and the first message authenticator (`mac1`): parameters of the handshake; whether a cookie admits an initiation is a parameter of the server's step.
- Configuration parsing: configurations are already parsed, with `None` for settings that do not parse. An override of a certificate subject is keyed by the subject's key, so a spelling in capital letters, which the program never finds, cannot be written.
- Traffic counters other than the number of rekeys, status text, metrics, keepalive timing and rekey requests from the server: single assignments or string formatting.
- `UsageHistory`: recording and adding counters is not modelled, only keys, dates and pruning; totals are any type.
- Routing of inbound payloads across peers (`route_inbound`) appears as separate steps: policing, MAC learning and sealing for each receiver.
- Memory: byte strings and maps are unbounded, so allocation failures and `usize` overflow of an MTU above one ninth of the address space do not appear.
- `HandshakeState`, `Links::from_groups`, `should_rekey` without a policy: not used by the running program.
- Mtu.Hysteresis: each record reads the clock once, where the program may read it twice within one call.
- ServerRuns.ServerAgreement: the global limit of 4096 pending handshakes is a guard of the step and no bound is stated for it, because rekeys do not look at it.
- Server.ServerLoop.ReloadConfig: the new buckets of one reload share one clock reading.
- Server.ServerLoop.BeginInitial: a response that cannot be computed is skipped, and the transmission itself is not observed.
