# Verification of the transfer program's session, discovery and bridge layers

A Dafny 4.11 model of the parts of a LAN file-transfer program in which the order of events, the
limits and the byte formats matter, with proofs about all their inputs, runs and interleavings.

## What is modelled

**Pairing** (`PairingWire`, `PairingMessages`, `PairingAttempt`, `PairingAgreement`, `PairingRuns`,
`PairingStages`, `PairingPossible`, `PairingExactly`, `PairingReplay`, `PairingAttemptClass`,
`PairingReassembly`). Two devices on one TLS connection exchange hellos, agree on a selection, derive a pairing context, show their users the same words, exchange authenticated
decisions and commit. One attempt is a function of its state (`PairingAttempt.Perform`) and, beside it, a class
that updates its fields in place (`PairingAttemptClass.Implementation`), proved equal call by call. `PairingRuns`
puts two attempts at the ends of a connection and lets calls and deliveries interleave in every way; whatever
admission, the replay cache and the repository answer is part of each event. `TwoPartyAgreement` says what a
paired end may rely on. `PairingExactly` says when there is one: two ends can pair exactly when they are
compatible. `PairingPossible` says which orders of the calls asked of compatible ends lead there. `PairingReplay`
runs any number of attempts against the replay cache they share. The socket's reassembly of frames from reads is
proved independent of how the stream is cut.

**Admission and replay** (`AdmissionBuckets`, `Admission`, `AdmissionRate`, `AdmissionInv`, `AdmissionCrossing`,
`AdmissionClass`, `Replay`, `ReplayClass`). Token buckets that are deleted when idle still bound the rate of
handshakes in every window; when two devices dial each other both sides keep the same connection; a pairing context
that an attempt bound cannot be used again while it is retained, whatever became of the attempt.

**The v1 transcript parser** (`Utf8`, `Negotiating`, `V1Tlv`, `V1Frame`, `V1Envelope`, `V1Transcript`, `V1Runs`,
`V1Possible`, `V1Parser`). From the UTF-8 validator, proved against the encoding itself, through the TLV and frame
formats, of which the parsers accept exactly the reference encodings, to the state machine: a run of arbitrary
bytes completes the binding exactly when it is a flawless handshake.

**Discovery** (`DiscoveryTypes`, `BoundedSelection`, `InterfaceRegistry`, `DiscoveryWire`, `DiscoveryEntries`,
`DiscoveryCache`, `DiscoveryCacheInv`, `DiscoveryCacheRuns`, `DiscoveryStop`, `DiscoveryCacheClass`,
`PeerRegistry`, `Publishing`, `PublishingService`). The datagram codec, the bounded sorted vectors, interface
generations, the candidate cache with its limits, tombstones and events, the peer registry that follows those
events, and the publishers at the other end. `PublishingService.DeliveredNeverRejected` goes from one device's
publisher through the encoder, the parser and the cache of another.

**The bridge** (`EventQueue`, `EventChannel`, `EventChannelClass`, `TransferStore`, `TransferRuns`,
`TransferMachine`, `TransferClass`). The event channel as threads that interleave at its locks, and as the
ring buffer itself; the transfer store, whose lock is given up around backend calls, as a linearisable store.

`Common` holds machine integers, big-endian numbers and byte order.

## How it is put together

Each component has a specification on values and theorems over its runs. Where the program updates an object in
place there is a class of the same shape; each of its methods is proved to take the object to the state that the
specification gives, so the theorems hold of the class. Loops of the program are loops here, with invariants; where the program calls
an algorithm of the standard library, such as `std::erase_if` or `std::sort`, the class calls the function that
specifies it.

Integers are unbounded; 8-, 16-, 32- and 64-bit values are subset types, and saturation and exhaustion of
counters are written out. Masks and shifts are written as quotients and remainders. Clocks, random tokens, the
label validator and the cryptographic functions are parameters: the agreement theorems hold for any functions in
their place, because both ends of a connection compute the same ones. Time is told by a steady clock, so the rate
theorems of admission are about runs in which it does not go back, and the retention theorem about calls no earlier
than the one that bound the context.

Four promises turn out to need a condition; the code is kept as it is, and each has its exact condition and an
input that fails it. A stop of the discovery cache drops its candidates without events, so the event stream is
complete exactly when each stop finds none (`FaithfulExactlyWhenIdle`, `StopForgets`); the bridge makes up for it by
clearing the registry itself. Once the pairing socket has stopped, the bytes left in its buffer may depend on how the
stream was cut; they do not exactly when no proper beginning of the stream makes it stop (`LeftoverExactly`,
`LeftoverDependsOnSplit`). An accepted discovery datagram may carry further TLVs that the program skips, so it
re-encodes to itself exactly when there are none (`EncodeParsed`, `UnknownIsLost`). And two ends that do only what is
asked of them may still fail to pair: an initiator may decide as soon as it has the acknowledgement, and if its
decision is delivered before the responder reports that acknowledgement as written, the responder closes
(`OrdersThatPair`, `ClosingOrder`).

`dafny verify dfyconfig.toml` checks everything.

## Model

| member | source | states |
|---|---|---|
| `PairingRuns.TwoPartyAgreement` | native/src/session/pairing.cpp:419-742 | In every interleaving of calls at two attempts over in-order channels, with any answers of admission, replay cache and repository: an end that is paired asked for its commit exactly once, after its user and its peer's user had both confirmed over one and the same context, the one of the connection, each having been prompted exactly once before with the same words, those of that context; any two prompts show the same words; no end commits twice or at or after its window, absolute or decision deadline |
| `PairingRuns.ExecuteOk` | native/src/session/pairing.cpp:843-1082 | Every run keeps what the agreement rests on: what an attempt knows comes from the two configurations, every frame sent is honest, decisions never change once taken |
| `PairingRuns.HappenOk` | native/src/session/pairing.cpp:887-949 | One call or one delivery keeps that invariant at both ends at once |
| `PairingExactly.PairExactlyWhenCompatible` | native/src/session/pairing.cpp:564-841 | Two ends are compatible if and only if attempts can be made of both and some run, with no call before its end was admitted, pairs both. Compatible is: both can be created, each authenticated the key the other has, the offers come to a selection, and its context, words and exporters can be derived |
| `PairingExactly.OnlyCompatiblePair` | native/src/session/pairing.cpp:637-742 | In no run whatever of two attempts that could be created does even one end pair unless the two are compatible |
| `PairingPossible.OrdersThatPair` | native/src/session/pairing.cpp:843-1046 | Of compatible ends that are asked only what they ask for, each time before the deadline of the phase they are in and in any order, frames delivered as early as they are sent included: both pair if and only if all thirteen calls and deliveries were made and no frame was delivered to a responder that had not reported its acknowledgement as written |
| `PairingPossible.PrematureCloses` | native/src/session/pairing.cpp:717-722 | Such a delivery closes the responder |
| `PairingPossible.ClosingOrder` | native/src/session/pairing.cpp:717-722 | And such an order exists for any two compatible ends: the initiator may send its decision on the acknowledgement alone |
| `PairingStages.EarlyCloses` | native/src/session/pairing.cpp:717-722 | A decision that reaches a responder before its acknowledgement was reported as written closes it with a state violation |
| `PairingPossible.NoDeadlock` | native/src/session/pairing.cpp:951-1046 | In every run of what is asked, as long as no delivery was premature and the two have not both paired, one of the ends has time left after its last call, and at any time until its deadline something can be asked of it that is not premature |
| `PairingPossible.EventMoves` | native/src/session/pairing.cpp:843-1046 | One call that is asked for, or one delivery that is not premature, takes its end exactly one step on, leaves it time, and does not touch the other end |
| `PairingAgreement.PerformOk` | native/src/session/pairing.cpp:843-1082 | Every call keeps hellos, selection, context and exporter to those of the two configurations, given frames the peer sent |
| `PairingAgreement.PerformFrame` | native/src/session/pairing.cpp:843-1068 | Whatever an attempt sends parses back to a frame that says its own hello or its own decision over the common context |
| `PairingAgreement.PerformMoves` | native/src/session/pairing.cpp:545-562 | A call records at most one decision and only while decisions are awaited; it commits only with both confirmations, the peer's being verified; pairing happens by a commit and by nothing else; the absolute deadline never moves |
| `PairingAgreement.CommitInTime` | native/src/session/pairing.cpp:513-562 | A commit is asked for only by a call made before the absolute and the decision deadline |
| `PairingAgreement.HonestConfirm` | native/src/session/pairing.cpp:717-742 | A confirmation that verifies, in a frame of the peer, is the peer's own decision to confirm |
| `PairingAttemptClass.Implementation.constructor` | native/src/session/pairing.cpp:811-821 | A new attempt: nothing known, sequence numbers at one, the absolute deadline the earlier of the window and the completion timeout |
| `PairingAttemptClass.Create` | native/src/session/pairing.cpp:758-841 | Creation, with every refusal in the order of the code; an attempt comes out exactly when nothing is refused, new, in its initial state and with a configuration that can be created |
| `PairingAttempt.CreatedExactly` | native/src/session/pairing.cpp:758-841 | The configurations of which an attempt can be made, whatever admission, repository, replay cache and entropy source do, are those with a window that ends after admission and within the longest, a valid offer, a valid own key that is not the peer's, and a handle and nonce that are not zero |
| `PairingAttemptClass.Implementation.Start` | native/src/session/pairing.cpp:843-885 | The in-place call reaches exactly the state and update the agreement theorem is about, for every state and every answer |
| `PairingAttemptClass.Implementation.ReceiveFrame` | native/src/session/pairing.cpp:887-949 | The same for a received frame: limits, parsing, sequence numbers, dispatch, and closing on every error |
| `PairingAttemptClass.Implementation.LocalSelectionAckWritten` | native/src/session/pairing.cpp:951-971 | The same for the report that the selection acknowledgement was written |
| `PairingAttemptClass.Implementation.Decide` | native/src/session/pairing.cpp:973-1025 | The same for the user's decision, including a repeated and a contradictory one |
| `PairingAttemptClass.Implementation.LocalDecisionWritten` | native/src/session/pairing.cpp:1027-1046 | The same for the report that the decision was written |
| `PairingAttemptClass.Implementation.CancelAttempt` | native/src/session/pairing.cpp:1048-1068 | The same for cancelling |
| `PairingAttemptClass.Implementation.ShutDown` | native/src/session/pairing.cpp:1075-1082 | The same for shutting down, which leaves a finished attempt alone |
| `PairingAttemptClass.Implementation.Check` | native/src/session/pairing.cpp:513-543 | The deadline check: time never goes back, a lost lease and a passed deadline each close the attempt, the second with an abort frame |
| `PairingAttemptClass.Implementation.Complete` | native/src/session/pairing.cpp:564-635 | Completing the selection: context, replay, visibility, words and exporter in this order, each failure closing the attempt with its error |
| `PairingAttemptClass.Implementation.TakeHello` | native/src/session/pairing.cpp:637-676 | Receiving a hello, with the initiator's selection sent in the same call |
| `PairingAttemptClass.Implementation.TakeSelection` | native/src/session/pairing.cpp:678-715 | Receiving a selection: a lower version is a downgrade, any other difference malformed |
| `PairingAttemptClass.Implementation.TakeDecision` | native/src/session/pairing.cpp:717-742 | Receiving a decision: a verified rejection closes, a verified confirmation may commit |
| `PairingAttemptClass.Implementation.CommitIfReady` | native/src/session/pairing.cpp:545-562 | The commit happens exactly when the state awaits decisions, both confirmed and the own decision was written |
| `PairingWire.ParseEncoded` | native/src/session/wire.cpp:168-194 | Whatever the frame encoder accepts parses back to the same frame |
| `PairingWire.EncodeParsed` | native/src/session/wire.cpp:234-304 | Every accepted byte string is the encoding of what was parsed: no frame has two encodings |
| `PairingWire.ParseFrameBytes` | native/src/session/wire.cpp:252-304 | The parsing loop, with the first error in the order of the code |
| `PairingMessages.Select` | native/src/session/wire.cpp:393-444 | A selection has the highest version both sides accept, exactly the capabilities both offer with every required one, and the smaller of each limit |
| `PairingMessages.SelectCanonical` | native/src/session/wire.cpp:393-444 | The capabilities of a selection are themselves a list the decoder accepts |
| `PairingMessages.DecodeEncodedHello` | native/src/session/wire.cpp:335-391 | An encoded hello is accepted exactly when role, key and offer are acceptable, and then as it was |
| `PairingMessages.DecodeEncodedSelection` | native/src/session/wire.cpp:446-477 | A canonical selection survives encoding and decoding |
| `PairingMessages.DecodeEncodedDecision` | native/src/session/wire.cpp:479-493 | A confirmation survives encoding and decoding |
| `PairingMessages.HelloEncodable` | native/src/session/wire.cpp:524-538 | A hello with a valid offer always fits a frame |
| `PairingMessages.SelectionEncodable` | native/src/session/wire.cpp:540-548 | A selection always fits a frame |
| `PairingMessages.DecisionEncodable` | native/src/session/wire.cpp:550-558 | A decision always fits a frame |
| `PairingMessages.AbortEncodable` | native/src/session/wire.cpp:560-567 | An abort always fits a frame |
| `PairingMessages.VerifiesExactly` | native/src/security/tls/confirmation.cpp:77-156 | Verification yields a decision exactly for the confirmation that the expected sender builds for that decision over the same context and exporter |
| `PairingReassembly.FragmentationIndependence` | native/src/session/pairing_socket.cpp:122-212 | Two ways of cutting one byte stream into reads deliver the same frames, stop for the same reason, and while not stopped leave the same bytes over |
| `PairingReassembly.LeftoverExactly` | native/src/session/pairing_socket.cpp:122-212 | All ways of cutting a stream leave the same bytes over if and only if no proper beginning of the stream already makes the reader stop |
| `PairingReassembly.ReadsAsWhole` | native/src/session/pairing_socket.cpp:122-212 | Any cutting reads as the whole stream read at once |
| `PairingReassembly.ReadConserves` | native/src/session/pairing_socket.cpp:164-212 | Delivered frames followed by the buffer are the bytes read, in order: none is lost, repeated or invented |
| `PairingReassembly.ReadFits` | native/src/session/pairing_socket.cpp:122-162 | The overflow test of the read handler never fires: a waiting reader has room for a full read |
| `PairingReassembly.LeftoverDependsOnSplit` | native/src/session/pairing_socket.cpp:164-212 | A stream for which they do not: two cuttings of a malformed header and one byte more |
| `PairingReassembly.FrameReader.OnRead` | native/src/session/pairing_socket.cpp:122-162 | The in-place reader does what the reading theorems are about |
| `PairingReassembly.FrameReader.ProcessFrames` | native/src/session/pairing_socket.cpp:164-212 | The same for the loop over complete frames |
| `PairingReplay.BoundStaysDetected` | native/src/session/pairing.cpp:252-337 | In every run of any number of attempts that share one cache, created, called and ended in every way: from the call in which an attempt bound its context, whatever that call and later ones make of the attempt, until the retention has passed, the cache contains the context for that peer, and every attempt of that peer that comes to it again is told of a replay and closes |
| `PairingReplay.ReplayExactly` | native/src/session/pairing.cpp:590-597 | In every such run an attempt that comes to its context is told of a replay, and closes with it, if and only if the context is remembered for its peer; its reservation refuses it for no other reason |
| `PairingReplay.RunOk` | native/src/session/pairing.cpp:460-841 | Every run keeps the cache's own invariant, and every attempt that has not ended has one entry of its own in it, reserved for its peer and bound exactly once the user is asked |
| `PairingReplay.HappenGuarded` | native/src/session/pairing.cpp:460-511 | No creation, call, end or destruction of any attempt, and no other use of the cache, takes away a bound context within its retention: an attempt that ends commits it at its last time |
| `PairingReplay.CommitOwn` | native/src/session/pairing.cpp:280-301 | A commit of a bound reservation retains its context for a full retention from the time of the commit |
| `PairingReplay.BindOwn` | native/src/session/pairing.cpp:252-278 | A reservation that is not bound is refused if and only if its peer's context is remembered, and is bound to it otherwise |
| `Replay.SearchFinds` | native/src/session/pairing.cpp:339-380 | The search for a free reservation id always finds one that is unused and not zero within its bounded number of attempts |
| `Replay.StepInv` | native/src/session/pairing.cpp:178-409 | Every operation keeps ids apart, entries sound, and the limits for the cache and for each peer |
| `Replay.ExecuteInv` | native/src/session/pairing.cpp:178-409 | So does every run |
| `ReplayClass.ReplayState.Prune` | native/src/session/pairing.cpp:178-185 | Expired retained contexts go, reservations stay |
| `ReplayClass.ReplayState.Reserve` | native/src/session/pairing.cpp:339-380 | The in-place reservation does what the replay theorems are about, including both limits and the wrap of the id counter |
| `ReplayClass.ReplayState.BindContext` | native/src/session/pairing.cpp:252-278 | The same for binding a context |
| `ReplayClass.ReplayState.CommitReservation` | native/src/session/pairing.cpp:280-301 | The same for committing |
| `ReplayClass.ReplayState.Release` | native/src/session/pairing.cpp:209-216 | The same for releasing |
| `ReplayClass.ReplayState.RememberContext` | native/src/session/pairing.cpp:382-409 | The same for remembering a context outright |
| `AdmissionRate.RateFromCreation` | native/src/session/admission.cpp:492-589 | From the making of a bucket, a run lets through no more handshakes than its capacity and one for each refill interval, although idle source buckets are deleted and made again |
| `AdmissionRate.RateInWindow` | native/src/session/admission.cpp:492-589 | In any window of any run, process-wide and for each source: no more than the capacity, one, and one for each interval of the window |
| `AdmissionRate.StepBooks` | native/src/session/admission.cpp:108-120 | Every operation keeps the account of tokens, deletion of full idle buckets included |
| `AdmissionBuckets.RefillExact` | native/src/session/admission.cpp:74-92 | A refill takes over whole intervals only: its saturating sum never saturates and less than an interval is left untaken |
| `AdmissionBuckets.WindowBound` | native/src/session/admission.cpp:74-92 | What a bucket can have paid for in a window |
| `AdmissionInv.StepInv` | native/src/session/admission.cpp:152-671 | Every operation keeps connection ids and leases apart, no two entries of an owner bound to one pair of keys, every entry owned and its source backed by a bucket, leases and generations below their counters, and the limits on connections in all, without the user's reserved slots, for each source and visible for each owner, and on tracked sources |
| `AdmissionInv.ExecuteInv` | native/src/session/admission.cpp:152-671 | So does every run |
| `AdmissionInv.InitialInv` | native/src/session/admission.cpp:39-68 | A new state satisfies it |
| `AdmissionCrossing.PeersConverge` | native/src/session/admission.cpp:591-657 | When two peers dial each other and each binds its end of the connection that the smaller key initiated with nothing visible or of the same direction in its way, then, whatever each did before and does after short of giving it up, other bindings of the two keys included, both ends keep that one connection and no other |
| `AdmissionCrossing.SettleCrossing` | native/src/session/admission.cpp:591-657 | At one end, from any state and through any commands: once the smaller key's connection is bound it is the only one bound for its owner and keys, through any further commands that do not give it up |
| `AdmissionCrossing.SmallerBindsExactly` | native/src/session/admission.cpp:591-657 | The smaller key's connection is bound if and only if whatever is bound for the two keys is hidden and goes the other way |
| `AdmissionCrossing.CanonicalLasts` | native/src/session/admission.cpp:591-657 | Through any run that does not give it up, a bound connection that the smaller key initiated stays bound as it is |
| `AdmissionCrossing.CanonicalSurvives` | native/src/session/admission.cpp:591-657 | No single operation but giving it up takes it away |
| `AdmissionClass.AdmissionState.RegisterOwner` | native/src/session/admission.cpp:152-160 | The in-place operation does what the admission theorems are about |
| `AdmissionClass.AdmissionState.RetireOwner` | native/src/session/admission.cpp:220-231 | The same for retiring an owner with its leases |
| `AdmissionClass.AdmissionState.OpenWindow` | native/src/session/admission.cpp:445-470 | The same for opening a pairing window |
| `AdmissionClass.AdmissionState.CloseWindow` | native/src/session/admission.cpp:472-490 | The same for closing it |
| `AdmissionClass.AdmissionState.PruneSourceBuckets` | native/src/session/admission.cpp:108-120 | The same for the pruning loop |
| `AdmissionClass.AdmissionState.ReserveHandshake` | native/src/session/admission.cpp:492-589 | The same for a handshake: both buckets are charged or neither |
| `AdmissionClass.AdmissionState.Bind` | native/src/session/admission.cpp:591-657 | The same for binding keys, crossings included |
| `AdmissionClass.AdmissionState.MarkVisible` | native/src/session/admission.cpp:308-332 | The same for making an attempt visible |
| `AdmissionClass.AdmissionState.Release` | native/src/session/admission.cpp:209-218 | The same for releasing a lease of the right generation |
| `Utf8.IsValidUtf8` | native/src/protocol/v1_parser.cpp:253-315 | The validator accepts exactly the encodings, by section 4 of RFC 3629, of texts without U+0000 and without noncharacters |
| `Utf8.TextHead` | native/src/protocol/v1_parser.cpp:262-315 | An encoding with a scalar value in front is a text exactly when the value is allowed and the rest is a text |
| `V1Tlv.ParseTlvs` | native/src/protocol/v1_parser.cpp:447-539 | The parsing loop returns the known fields, or the first error, of the format |
| `V1Tlv.PrintThenParse` | native/src/protocol/v1_parser.cpp:447-539 | Every canonical field list parses from its bytes to its known fields |
| `V1Tlv.ParseThenPrint` | native/src/protocol/v1_parser.cpp:447-539 | Every accepted byte string is the encoding of a canonical field list: nothing else is accepted |
| `V1Tlv.EncodeFieldsInjective` | native/src/protocol/v1_parser.cpp:447-539 | No two field lists share an encoding |
| `V1Frame.ParsedIsTyped` | native/src/protocol/v1_parser.cpp:447-539 | An accepted body holds every required field of its schema with its wire type, so every later dereference and narrowing is safe |
| `V1Envelope.EncodedIsAccepted` | native/src/protocol/v1_parser.cpp:646-760 | Every frame that may be sent, encoded by a reference encoder with any canonical extension fields, is accepted and comes out as it was |
| `V1Envelope.AcceptedIsEncoded` | native/src/protocol/v1_parser.cpp:646-760 | Every byte string accepted as a frame is the reference encoding of the frame that comes out: nothing else is accepted |
| `V1Frame.ParseFrameEnvelope` | native/src/protocol/v1_parser.cpp:646-760 | Header and envelope checks in the order of the code |
| `V1Parser.ParseFrameBody` | native/src/protocol/v1_parser.cpp:762-779 | A frame body is parsed with the schema of its message type |
| `Negotiating.MergeIntersection` | native/src/protocol/v1_parser.cpp:1130-1165 | The merge of two increasing lists is exactly what they share, in order |
| `V1Parser.DecideNegotiation` | native/src/protocol/v1_parser.cpp:1078-1185 | The proposal check, with the merge and the subset loops, decides as the specification does |
| `V1Transcript.CheckedNegotiationAgrees` | native/src/protocol/v1_parser.cpp:1078-1185 | An accepted negotiation has the highest version in both ranges, exactly the common capabilities with every required one, and the smaller limits |
| `V1Transcript.HandleKeepsValid` | native/src/protocol/v1_parser.cpp:963-1310 | Every handler keeps what all reachable states satisfy |
| `V1Runs.WholeTranscript` | native/src/protocol/v1_parser.cpp:808-1269 | A run of any bytes in any order that completes the binding did so with a prefix in which no frame was refused, message ids count up from one in each direction, the handshake is both HELLOs, NEGOTIATE, NEGOTIATE_ACK and both TRANSPORT_FINISHED, and the negotiation agrees with both HELLOs; what was agreed there still holds at the end of the run |
| `V1Possible.CompletesExactly` | native/src/protocol/v1_parser.cpp:808-1269 | The exact converse: a run of any bytes completes the binding with its last frame if and only if it is a flawless talk in which all was said, and then the negotiation is the one the talk came to |
| `V1Possible.AcceptedExactly` | native/src/protocol/v1_parser.cpp:808-1269 | A run has every frame accepted, and none after the binding was complete, if and only if it is a flawless talk: frames in turn, in whichever order the sides speak and with ERRORs of the connection anywhere between, numbered in each direction, within the agreed body limit once there is one, and carrying what two acceptable HELLOs and the negotiation they call for come to |
| `V1Possible.AllIsSix` | native/src/protocol/v1_parser.cpp:808-1269 | A flawless talk has said all with exactly its sixth message that is not an ERROR |
| `V1Possible.OneProposal` | native/src/protocol/v1_parser.cpp:1078-1185 | A proposal is accepted if and only if the HELLOs have a version in common, each offers what the other requires, and it is the one proposal they call for |
| `V1Runs.ExecuteInv` | native/src/protocol/v1_parser.cpp:808-1269 | Every run is valid and, until it completes or ends, a flawless beginning of a handshake |
| `V1Runs.StepInv` | native/src/protocol/v1_parser.cpp:808-890 | One frame keeps that, and completion is permanent |
| `V1Parser.TranscriptParser.constructor` | native/include/xnn_transfer/protocol/v1_parser.hpp:168-233 | A new parser is in the initial state |
| `V1Parser.TranscriptParser.Process` | native/src/protocol/v1_parser.cpp:808-890 | The in-place parser reaches exactly the state and error that the transcript theorems are about |
| `V1Parser.TranscriptParser.ReceiveFrame` | native/src/protocol/v1_parser.cpp:808-853 | The same for envelope, message id, limits, state and body |
| `V1Parser.TranscriptParser.HandleMessage` | native/src/protocol/v1_parser.cpp:855-1310 | The same for the message handlers |
| `V1Parser.TranscriptParser.Complete` | native/src/protocol/v1_parser.cpp:781-806 | The same for deciding which errors end the transcript |
| `DiscoveryWire.ParseAdvertisement` | native/src/discovery/wire.cpp:134-252 | The parsing loop returns the advertisement, or the first error, of the format |
| `DiscoveryWire.EncodeAdvertisement` | native/src/discovery/wire.cpp:254-311 | The encoder accepts exactly the encodable messages and writes the format, field by field into its buffer |
| `DiscoveryWire.ParseEncoded` | native/src/discovery/wire.cpp:134-311 | Whatever the encoder produces, the parser returns with the same values |
| `DiscoveryWire.EncodeParsed` | native/src/discovery/wire.cpp:134-311 | An accepted datagram is encodable again, and comes out byte for byte the same if and only if its TLV area is empty or is one TLV with the label's id that fills it |
| `DiscoveryWire.UnknownIsLost` | native/src/discovery/wire.cpp:134-311 | A datagram with an unknown TLV that is accepted and does not come out the same |
| `BoundedSelection.InsertSelects` | native/src/discovery/interface_registry.cpp:24-48 | One insertion into a bounded sorted vector keeps it an exact selection: sorted, one least member for each class, and no class left out unless it lies above a full vector |
| `BoundedSelection.SelectionUnique` | native/src/discovery/interface_registry.cpp:24-48 | A set of inputs has one selection |
| `BoundedSelection.SelectionOrderFree` | native/src/discovery/interface_registry.cpp:24-48 | Neither order nor repetition of the inputs matters |
| `DiscoveryTypes.AddressOrder` | native/src/discovery/wire.cpp:78-90 | Addresses are totally ordered |
| `DiscoveryTypes.ScopeOrder` | native/src/discovery/wire.cpp:92-97 | So are scopes |
| `DiscoveryTypes.CanonicalSelects` | native/src/discovery/cache.cpp:358-377 | The installed scopes are the smallest distinct ones of the list, whatever its order |
| `DiscoveryTypes.CanonicalScopes` | native/src/discovery/cache.cpp:358-377 | The loop computes them |
| `InterfaceRegistry.RawOrder` | native/src/discovery/interface_registry.cpp:10-22 | Raw interfaces are totally ordered, and those of one link are neighbours |
| `InterfaceRegistry.ChosenSelects` | native/src/discovery/interface_registry.cpp:24-60 | The interfaces taken from a report are its exact bounded selection, whatever its order |
| `InterfaceRegistry.InsertBoundedRawInterface` | native/src/discovery/interface_registry.cpp:24-48 | The insertion with lower bound, replacement, sort and eviction, for any vector; for the vectors it is used on it is the one of the selection theorems |
| `InterfaceRegistry.SortIsIdleHere` | native/src/discovery/interface_registry.cpp:24-48 | For a vector that is sorted with one entry for each link, the sort after a replacement changes nothing |
| `BoundedSelection.SortSorts` | native/src/discovery/interface_registry.cpp:24-48 | The sort orders any vector and keeps its members |
| `InterfaceRegistry.GenerationsNeverReissued` | native/src/discovery/interface_registry.cpp:50-87 | Over any series of reports, one generation names one interface for ever: where it is seen twice it is the same interface and was there throughout |
| `InterfaceRegistry.KeptWhenReportedAgain` | native/src/discovery/interface_registry.cpp:50-87 | An interface keeps its generation exactly when the next report selects it |
| `InterfaceRegistry.InterfaceGenerationRegistry.constructor` | native/src/discovery/interface_registry.cpp:50-87 | A new registry has issued nothing |
| `InterfaceRegistry.InterfaceGenerationRegistry.Update` | native/src/discovery/interface_registry.cpp:50-87 | The in-place update does what the generation theorems are about |
| `DiscoveryCacheRuns.RunInv` | native/src/discovery/cache.cpp:145-694 | Every reachable cache satisfies the accounting invariant: unique keys, entries, candidates and retained bytes within their limits in all and for each scope, entries and local tokens only in scopes present, buckets never ahead of the clock |
| `DiscoveryCacheInv.StepInv` | native/src/discovery/cache.cpp:145-694 | Every operation keeps it |
| `DiscoveryCacheInv.AdmitOk` | native/src/discovery/cache.cpp:438-480 | Admission keeps the buckets in order whether or not it lets the datagram through |
| `DiscoveryCacheRuns.EventsRefineCache` | native/src/discovery/cache.cpp:198-308 | Folding the events of any run without a stop over an empty table gives exactly the current candidates with ports and labels |
| `DiscoveryStop.FaithfulExactlyWhenIdle` | native/src/discovery/cache.cpp:168-176 | Over every run, stops included, the events tell exactly which candidates there are if and only if every stop found no candidate |
| `DiscoveryStop.StopForgets` | native/src/discovery/cache.cpp:168-176 | A run of three commands after which they do not: a stop drops a candidate without an event |
| `DiscoveryCacheRuns.StepSequence` | native/src/discovery/cache.cpp:528-657 | No resurrection: an accepted message leaves its sequence in the entry, a candidate exactly when it is an announcement, and a strictly higher one than before unless the tombstone had expired; anything else leaves the entry as it is, buries it at the same sequence, or removes it with its scope, with a stop or as an expired tombstone |
| `DiscoveryCacheRuns.NoResurrection` | native/src/discovery/cache.cpp:528-657 | Over any run in which an entry lives on, its sequence never falls, and a tombstone becomes a candidate again only with a strictly higher sequence |
| `DiscoveryCacheRuns.HighestWasHeard` | native/src/discovery/cache.cpp:528-657 | The highest sequence of an entry was carried by some datagram of the run |
| `DiscoveryCacheRuns.NewerIsInOrder` | native/src/discovery/cache.cpp:528-657 | A datagram newer than its entry is never taken for stale, a duplicate or a conflict |
| `DiscoveryCacheRuns.InOrderNeverRejected` | native/src/discovery/cache.cpp:528-657 | A publisher whose sequence numbers arrive in rising order is never told so |
| `DiscoveryCacheRuns.AdvanceExpires` | native/src/discovery/cache.cpp:250-259 | After advancing to a time no candidate has a deadline at or before it |
| `DiscoveryCacheClass.CacheImpl.constructor` | native/src/discovery/cache.cpp:147-153 | A new cache is in the initial state |
| `DiscoveryCacheClass.CacheImpl.Start` | native/src/discovery/cache.cpp:155-166 | The in-place cache reaches exactly the state and events the theorems are about, for every state it can be in |
| `DiscoveryCacheClass.CacheImpl.Stop` | native/src/discovery/cache.cpp:168-176 | The same for stopping |
| `DiscoveryCacheClass.CacheImpl.SetLocalToken` | native/src/discovery/cache.cpp:178-196 | The same for local tokens |
| `DiscoveryCacheClass.CacheImpl.Receive` | native/src/discovery/cache.cpp:198-248 | The same for a datagram, with its disposition |
| `DiscoveryCacheClass.CacheImpl.Advance` | native/src/discovery/cache.cpp:250-259 | The same for the passing of time |
| `DiscoveryCacheClass.CacheImpl.ApplyInterfaceSnapshot` | native/src/discovery/cache.cpp:261-274 | The same for a change of interfaces |
| `DiscoveryCacheClass.CacheImpl.Wake` | native/src/discovery/cache.cpp:276-308 | The same for waking |
| `DiscoveryCacheClass.CacheImpl.AdmitDatagram` | native/src/discovery/cache.cpp:438-480 | The same for the three token buckets |
| `DiscoveryCacheClass.CacheImpl.Announce` | native/src/discovery/cache.cpp:528-613 | The same for an announcement |
| `DiscoveryCacheClass.CacheImpl.Withdraw` | native/src/discovery/cache.cpp:615-657 | The same for a withdrawal |
| `DiscoveryCacheClass.CacheImpl.RemoveAbsentScopes` | native/src/discovery/cache.cpp:400-422 | The same for leaving scopes, with an event for each candidate lost |
| `PeerRegistry.RegistryFollowsCache` | native/src/bridge/discovery_bridge.hpp:26-64 | Fed the events of any run without a stop, the peer registry accepts every one and holds exactly the cache's candidates, each under an identifier of its own |
| `PeerRegistry.RunLegal` | native/src/discovery/cache.cpp:198-308 | The events of a run are legal in order: a candidate appears only when absent and below the limit, is updated or expires only when present |
| `PeerRegistry.FeedAgrees` | native/src/bridge/discovery_bridge.hpp:26-64 | A registry that agrees with a table goes on agreeing over legal events, and gives out each identifier once |
| `PeerRegistry.DiscoveryPeerRegistry.constructor` | native/src/bridge/discovery_bridge.hpp:20-26 | A new registry is empty |
| `PeerRegistry.DiscoveryPeerRegistry.Apply` | native/src/bridge/discovery_bridge.hpp:26-64 | The in-place registry does what the theorems are about |
| `PublishingService.DeliveredNeverRejected` | native/src/discovery/service.cpp:337-411 | From publisher to cache: whatever the service did, if its datagrams reach a cache in the order they were sent, each at most once, none is dropped as stale, duplicate or conflicting, given that drawn tokens do not repeat |
| `PublishingService.RunGood` | native/src/discovery/service.cpp:135-278 | Over any run of the service every token's datagrams carry rising sequence numbers and at most the last is a withdrawal, and no two publishers share a token |
| `Publishing.RotateLive` | native/src/discovery/service.cpp:397-411 | Rotating says goodbye under the old token, if it can, and goes on under the new one from sequence one |
| `Publishing.ActLive` | native/src/discovery/service.cpp:361-381 | Announcing takes the next sequence number, or rotates when there is none |
| `Publishing.CanonicalInterfacesSelect` | native/src/discovery/service.cpp:66-94 | The service's interfaces are the exact bounded selection of the valid ones |
| `PublishingService.Publishers.SendAnnounce` | native/src/discovery/service.cpp:361-381 | The in-place publisher does what the theorems are about |
| `PublishingService.Publishers.SendWithdrawal` | native/src/discovery/service.cpp:383-395 | The same for a withdrawal, which the last sequence number suppresses |
| `PublishingService.Publishers.Rotate` | native/src/discovery/service.cpp:397-411 | The same for a rotation |
| `PublishingService.Publishers.Create` | native/src/discovery/service.cpp:337-346 | The same for a new publisher |
| `PublishingService.Publishers.RefreshInterfaces` | native/src/discovery/service.cpp:501-549 | The same for a change of interfaces: publishers that stay are kept as they are |
| `PublishingService.Publishers.TakeLeave` | native/src/discovery/service.cpp:501-516 | The same for the withdrawals on interfaces that went |
| `PublishingService.Publishers.Begin` | native/src/discovery/service.cpp:135-202 | The same for starting |
| `PublishingService.Publishers.Shutdown` | native/src/discovery/service.cpp:594-622 | The same for stopping |
| `EventQueue.NothingLostSilently` | native/src/bridge/event_channel.hpp:132-213 | From the empty queue, over any run of enqueues and polls: the events that arrived are the ones enqueued, numbered one after the other modulo 64 bits; each is in exactly one place, polled, dropped, or queued in order behind all of these; an event is marked exactly when its arrival pushed out the one a queue length before it; and after every dropped event comes one, polled or queued, that is marked |
| `EventChannel.OneAtATimeAndAwake` | native/src/bridge/event_channel.hpp:102-248 | In every interleaving of any number of threads at most one callback runs at a time, and no wake-up is lost: while a callback is registered and the queue is not empty, a wake-up is owed, or the present registration was given one since the queue last became non-empty |
| `EventChannel.UnregisterIsBarrier` | native/src/bridge/event_channel.hpp:102-130 | Once unregistering has returned on a thread that is not inside the callback, no callback registered before it ever runs again |
| `EventChannel.ShutdownIsBarrier` | native/src/bridge/event_channel.hpp:161-176 | Once shutdown has returned on such a thread, no callback runs and none ever will |
| `EventChannel.RunInv` | native/src/bridge/event_channel.hpp:102-248 | Every interleaving keeps the invariant behind these |
| `EventChannel.NextInv` | native/src/bridge/event_channel.hpp:102-248 | Every atomic section keeps it |
| `EventChannelClass.Channel.Push` | native/src/bridge/event_channel.hpp:184-213 | The ring buffer holds the queue of the theorems, head, size and mark included |
| `EventChannelClass.Channel.Poll` | native/src/bridge/event_channel.hpp:132-159 | The same for polling |
| `EventChannelClass.Channel.Prepare` | native/src/bridge/event_channel.hpp:215-226 | The decision to call back is the one of the interleaving theorems |
| `EventChannelClass.Channel.Enqueue` | native/src/bridge/event_channel.hpp:184-213 | The same for the whole of an enqueue |
| `EventChannelClass.Channel.Register` | native/src/bridge/event_channel.hpp:102-130 | The same for registering |
| `EventChannelClass.Channel.Unregister` | native/src/bridge/event_channel.hpp:102-130 | The same for unregistering, up to the wait |
| `EventChannelClass.Channel.Return` | native/src/bridge/event_channel.hpp:228-248 | The same for the return of a callback, which may have to run again |
| `TransferMachine.StoreLinearises` | native/src/bridge/transfer_bridge.hpp:59-438 | In every interleaving of senders, deciders, backend reports and shutdown, with the lock given up around backend calls: published events carry the revisions two, three and so on with none missing, none is refused, and folding them with those still owed gives exactly the stored records; records and reservations stay within the limit |
| `TransferMachine.EndedRecordsFrozen` | native/src/bridge/transfer_bridge.hpp:312-438 | A record in a final state never changes and never leaves |
| `TransferMachine.PageOfRevision` | native/src/bridge/transfer_bridge.hpp:357-396 | A page read for a revision, however late, is a page of the store as it was at that revision, or refused; the pages together are all the records |
| `TransferMachine.NextInv` | native/src/bridge/transfer_bridge.hpp:59-438 | Every atomic section keeps the invariant behind these |
| `TransferMachine.RunMoves` | native/src/bridge/transfer_bridge.hpp:59-438 | Over any run revisions only grow and an equal revision means equal records |
| `TransferMachine.PagesAreAll` | native/src/bridge/transfer_bridge.hpp:357-396 | Reading page by page from the start gives every record once, in order |
| `TransferMachine.ReservationHolds` | native/src/bridge/transfer_bridge.hpp:59-126 | In every interleaving, while the backend is asked to send, one place is reserved and the store has room for the record |
| `TransferClass.TransferBridge.ReserveStart` | native/src/bridge/transfer_bridge.hpp:59-126 | The in-place reservation does what the theorems are about |
| `TransferClass.TransferBridge.CompleteSend` | native/src/bridge/transfer_bridge.hpp:59-126 | The same for the backend's answer to a send |
| `TransferClass.TransferBridge.Complete` | native/src/bridge/transfer_bridge.hpp:128-260 | The same for an answered accept, reject or cancel |
| `TransferClass.TransferBridge.ApplyIncomingOffer` | native/src/bridge/transfer_bridge.hpp:267-305 | The same for an incoming offer, which is taken exactly when it makes a record or repeats one that is waiting |
| `TransferClass.TransferBridge.ApplyUpdate` | native/src/bridge/transfer_bridge.hpp:312-355 | The same for a progress report, which changes nothing that has ended |
| `TransferClass.TransferBridge.EndRecords` | native/src/bridge/transfer_bridge.hpp:398-438 | The same for shutdown, with an event for each record that had not ended |
| `TransferClass.TransferBridge.ReadPage` | native/src/bridge/transfer_bridge.hpp:357-396 | The same for a page |

## Left out

- TransferMachine.StoreLinearises: revisions are unbounded numbers; the return to one when a 64-bit revision is used up is not modelled.
- PeerRegistry.RegistryFollowsCache: speaks of runs with fewer events than there are 64-bit peer identifiers, and of runs without a stop, after which the bridge clears the registry.
- PublishingService.DeliveredNeverRejected: assumes that random instance tokens do not repeat; the generator is a parameter.
- PairingReplay.BoundStaysDetected: speaks of calls that are no earlier than the one that bound the context, as the program's steady clock gives them.
- Floating point: the discovery cache's token buckets use doubles in the program and exact real numbers here, so rounding is not captured.
- Cryptography: key validation, the context digest, exporters, HMAC and the word derivation are parameters, and their strength is not a subject.
- The display-label validator is a parameter, and a cache constructed without one, which refuses to start, is not modelled.
- Memory: allocation failure, exceptions and the wiping of secrets are left out; a wiped field is an empty one.
- Enumerators outside their range, such as an invalid direction or role, cannot occur in the model.
- Discovery: the cache's snapshot, next deadline and statistics, and the registry's clearing and pages, only read or empty what is modelled.
- Publishing: when messages fall due, jitter and timers are left out; the theorems hold for any schedule.
- Pairing socket: frame-assembly timers, the write queue and the terminal flush are left out.
- Transfer bridge: checks of paths and C structures, and the mapping of errors to public codes, are left out.
- Sockets, the TLS handshake, identity storage, file transfer itself, the interface monitors and the C interface are not part of this model.
