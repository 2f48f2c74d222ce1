# OmniBridge: a verified model of the desktop daemon's core

OmniBridge connects a phone to a desktop over one authenticated control session. This project models the
parts of the desktop daemon whose correctness is a matter of protocol and state rather than of I/O, and
proves what they promise: over every input, every run, and every interleaving of the tasks involved.

| module | models | main results |
|---|---|---|
| `Replay`, `Wire` | envelopes, their numbering, the bounded replay guard | the guard refines the rule on the full history; nothing is admitted twice |
| `Encoding`, `Qr`, `Framing` | hexadecimal and base32 (sections 8 and 6 of RFC 4648), the pairing code, length-prefixed frames | round trips with their exact conditions; a cut stream yields exactly its whole frames |
| `Capability`, `Mac`, `Handshake` | capability negotiation, the MAC messages, both halves of the handshake | message encoding is injective across fields and purposes; two honest ends that finish agree, and every later frame passes |
| `Engine`, `Liveness` | the dispatch loop, the writer and its two queues; the liveness tick | order, conservation, no deadlock, everything reaches the wire, under every schedule; exact closing and staleness bounds |
| `Duplex` | two engines joined by bounded links and inbound channels | delivery in order; both ends finish or are held up for ever, and exactly when |
| `Pairing` | pairing windows and unpaired connections, interleaved | trust needs a proof for that window, key and nonce, and a yes; one device per window |
| `Registry`, `Approval` | the session table and reconnect requests; asking a person about a file | which session is registered; who is asked, when, and by whom a question can be answered |
| `Dedup`, `Clipboard`, `ClipboardRuns` | the two caches, the clipboard manager, a network of devices | no echo and no relay; total traffic at most copies times peers; one write per event |
| `Store` | the trust store and its opening, with read errors and crashes | one identity for ever; a revocation reported done stays |
| `Notifications` | announced roles, the snapshot bracket | both characterised over whole traces |
| `Destination` | choosing a file name, promoting a finished file, many transfers at once | nothing is ever overwritten |

Objects the daemon updates in place are classes; each of their methods is proved against a function on the
values it holds, and the run-level theorems are about those functions. Tasks that run concurrently are one
state machine whose steps are the sections that hold a lock, the sends and receives on a queue, or the
system calls. Clocks, random values, I/O outcomes and what a person answers are arguments.

## Where the code does less than its documentation or the obvious property

- A reconnect is asked for once per session only while calls do not interleave. Reading the session and
  deciding about it are two critical sections, so a client that read a session before it was replaced can
  make its replacement be asked twice (`Registry.StaleReadAsksTwice`). `Registry.AskedUnlessLastAsked` says
  exactly when a session is asked, over every interleaving.
- A session is closed 120 seconds after its first unanswered probe. "Two probes unanswered" in the comment
  on the limit is in fact eight (`Liveness.ClosesAfterEightProbes`), and fewer if the connect hooks hold up the
  ticking for sixty seconds: then a peer can be closed before it has had time to answer
  (`Liveness.AnsweringPeersStay`).
- A handler's wait for room is bounded (`desktop/capabilities/files/src/lib.rs:607`,
  `desktop/capabilities/clipboard/src/lib.rs:931`, `desktop/capabilities/notifications/src/lib.rs:1018`), and that
  keeps a handler's messages from ever holding up both ends (`Duplex.HandlersNeverWedge`). The loop's own sends,
  of pongs, errors, commands and probes, have no bound (`desktop/core/src/session.rs:920`, `:950`, `:1009`, `:1021`,
  `:1062`): with enough of them at both ends two loops can wait for each other until the connection itself breaks,
  and take no tick meanwhile (`Duplex.LoadedEndsCanWedge`; exactly when, `Duplex.WedgedExactly`).
- A link can be reported stale although its peer answers within fifteen seconds, because the time of the
  last frame is kept in whole milliseconds (`Liveness.SlowerPeersCanBeStale`); the exact bound is proved.
- An empty frame body is written but refused on arrival (`Framing.FrameRoundTrip`).
- A transfer id asked about twice lets a displaced connection that still shows the old prompt answer the
  new question (`Approval.ReusedIdAnswersAnotherQuestion`; exactly when, `Approval.PromptWasForThisQuestion`).
  `files.v1` refuses an id it has a record of and never forgets one
  (`desktop/capabilities/files/src/lib.rs:856`, `:1802`), so this needs two offers of one id to pass that check
  before either is recorded (`:908`): the lock is released between the two.
- A provider connection that ends on a write error does not detach, although the comments promise that
  every way of ending does; what it was asked then waits with nobody asked
  (`Approval.NobodyAskedExactlyWhenBroken`; a run, `Approval.BrokenProviderLeavesQuestion`).
- A revocation whose write is reported as failed may be undone by a restart
  (`Store.RevocationSurvivesRestartIffWritten`). Adding a record that is hidden and not revoked is accepted,
  and is the only edit that breaks "hidden implies revoked" (`Store.HiddenStaysRevoked`, `Store.UnsoundExactly`).
- A failed clipboard write on a full suppression queue costs the oldest entry, unless that has expired
  meanwhile (`Dedup.FailedApplyNeedsRoom`).
- A clip whose change could not be read leaves its mark behind, and the mark can swallow a genuine copy of the
  same text (`ClipboardRuns.UnreadClipSwallowsCopy`).
- A failed promotion restores the directory only if removing the placeholder succeeds
  (`Destination.PromotionMovesOrRestores`).
- A device id that is not 1 to 64 hexadecimal digits is encoded into a pairing code that does not read back
  (`Qr.QrRoundTrip`).

## Model

| member | source | states |
|---|---|---|
| Wire.EnvelopeFactory.Build | desktop/core/src/session.rs:356-366 | the next envelope carries the connection's version and the next sequence number |
| Wire.EnvelopeFactory.BuildReply | desktop/core/src/session.rs:368-372 | the same, correlated with the message answered |
| Replay.ReplayGuard.Admit | desktop/core/src/session.rs:395-415 | counter, set and bounded queue admit exactly what the rule on the whole history admits, give the right refusal otherwise, and change nothing on a refusal |
| Replay.FreshExactly | desktop/core/src/session.rs:395-415 | on any reachable history the rule is: sixteen-byte id, sequence above the last, id not among the last 1024 |
| Replay.NeverAdmittedTwice | desktop/core/src/session.rs:379-415 | whatever arrives, no two admitted envelopes are equal or share a sequence number |
| Replay.AgreesWithFullHistory | desktop/core/src/session.rs:379-415 | the bounded guard differs from one that never forgets only on ids that have left the window |
| Replay.WindowDistinct | desktop/core/src/session.rs:379-415 | the ids in one window are distinct, so evicting the front id from the set is sound |
| Encoding.HexRoundTrip | desktop/core/src/fingerprint.rs:40-53 | reading a fingerprint's hexadecimal text gives the fingerprint back |
| Encoding.Base32RoundTrip | desktop/core/src/pairing.rs:90-102 | reading a token's base32 text gives the token back |
| Encoding.DecodeEncode | desktop/core/src/fingerprint.rs:40-53 | for any alphabet of distinct digits wide enough, decoding undoes encoding |
| Framing.ByteChannel.WriteEnvelope | desktop/core/src/framing.rs:21-37 | appends exactly the frame, or refuses a body over 65536 bytes and appends nothing |
| Framing.ByteChannel.ReadEnvelope | desktop/core/src/framing.rs:39-64 | consumes exactly one frame, with the error for a closed stream, an oversized length or a zero length |
| Framing.FrameRoundTrip | desktop/core/src/framing.rs:21-64 | a frame reads back, leaving the rest untouched, if and only if its body is not empty |
| Framing.StreamRoundTrip | desktop/core/src/framing.rs:21-64 | any list of bodies of 1 to 65536 bytes reads back exactly, then the stream is closed |
| Framing.TruncationReadsPrefix | desktop/core/src/framing.rs:39-64 | wherever the stream is cut, exactly the frames that arrived whole are read, then it is closed |
| Qr.QrRoundTrip | desktop/core/src/qr.rs:46-112 | parsing undoes encoding, addresses with colons included, if and only if the device id is 1 to 64 hexadecimal digits and the text fits in 512 |
| Qr.ParseIsStrict | desktop/core/src/qr.rs:72-112 | a text is accepted if and only if it is within the limit and is, joined by colons, the scheme, a fingerprint, a token and a device id, perhaps with addresses; and those are what is read |
| Qr.SplitJoin | desktop/core/src/qr.rs:46-112 | splitting a joined list on a separator none of its pieces contains gives the list |
| Qr.AddressesRoundTrip | desktop/core/src/qr.rs:46-112 | the address list reads back, the empty list included |
| Capability.CapabilityRegistry.Negotiate | desktop/core/src/capability.rs:96-105 | the filtering loop, followed by the library's sort and dedup, gives exactly the ids both know, once each, in order |
| Capability.MutualIsSortedIntersection | desktop/core/src/capability.rs:83-105 | whatever a peer advertises, the result lists exactly the ids both know, once each, in order |
| Capability.MutualSymmetric | desktop/core/src/capability.rs:83-105 | both ends compute the same list |
| Mac.ComputeMac | desktop/core/src/pairing.rs:147-167 | the pieces fed to the running MAC make exactly the length-prefixed message |
| Mac.MessageInjective | desktop/core/src/pairing.rs:128-167 | equal messages have equal purpose, fingerprints and nonce |
| Mac.DomainsSeparate | desktop/capabilities/files/src/auth.rs:129-148 | messages for two of the three purposes are never equal, whatever their fields |
| Mac.SameDomainInjective | desktop/core/src/pairing.rs:147-167 | for fields shorter than four gibibytes, equal messages for one purpose have equal fields |
| Mac.TagBindsEverything | desktop/core/src/pairing.rs:128-145 | unless the two messages compared collide, a tag made for one purpose, pair of devices and nonce matches no other |
| Mac.StreamMacBinds | desktop/capabilities/files/src/auth.rs:129-148 | under any key, unless the two messages compared collide, a data stream's MAC fits one acceptor, dialer and transfer and is never a value made for pairing |
| Handshake.HighestCommonVersion | desktop/core/src/session.rs:422-430 | a version is chosen if and only if one is common, it is the highest, and both ends choose the same |
| Handshake.EstablishedAgree | desktop/core/src/session.rs:436-727 | two honest ends that both finish agree on version, keys, capabilities (the responder's within the initiator's) and sequence numbers |
| Handshake.TrustedAgree | desktop/core/src/session.rs:530-568 | the same for a trusted device, finished without pairing |
| Handshake.PairedAgree | desktop/core/src/session.rs:623-727 | the same for a device that has just paired |
| Handshake.AnswerFacts | desktop/core/src/session.rs:436-620 | what any answer to a HELLO fixes: status, version, numbering, what was admitted |
| Handshake.ReadingFacts | desktop/core/src/session.rs:1125-1269 | what the initiator has established when it goes on to pair |
| Handshake.InStepFramesPass | desktop/core/src/session.rs:901-909 | frames stamped in step with the reader's history all pass if and only if their ids are sixteen bytes and distinct within the window |
| Handshake.LaterFramesPass | desktop/core/src/session.rs:901-909 | after establishment that holds in both directions |
| Handshake.TrustedHandshakeCompletes | desktop/core/src/session.rs:436-568 | a trusted device and its host both finish if and only if the builds share a version and both random ids are sixteen bytes |
| Handshake.PairingHandshakeCompletes | desktop/core/src/session.rs:1125-1269 | given a good verdict, a yes and working stores: both finish if and only if the builds share a version and the four ids are sixteen bytes and not repeated |
| Engine.WireIsOrdered | desktop/core/src/session.rs:819-849 | for every schedule the wire is an interleaving keeping each bounded queue first in, first out, with the handshake's sequence numbers continued without a gap |
| Engine.ProducersKeepOrder | desktop/core/src/session.rs:773-849 | for every schedule and producer: frames written, then queued, then still to send are exactly what it set out to send, in order |
| Engine.StepShrinksWork | desktop/core/src/session.rs:883-1037 | every step of the loop, a task or the writer decreases the work left |
| Engine.SomebodyCanMove | desktop/core/src/session.rs:773-849 | unless nothing is left or the writer has stopped, some step is possible: no deadlock, however full the queues |
| Engine.EverythingReachesTheWire | desktop/core/src/session.rs:773-849 | however many replies a handler sends, a schedule that cannot be extended has written every producer's frames whole and in order, and no schedule is longer than the work at the start |
| Engine.LoopFramesAreFlushed | desktop/core/src/session.rs:819-849 | when the session ends, the writer stops only after every frame the loop itself sent |
| Engine.EveryScheduleIsReadable | desktop/core/src/session.rs:811-849 | after a completed handshake, whatever the schedule of either end, everything its writer puts on the wire passes the other's version check and replay guard if and only if the ids are usable |
| Engine.WireIsProper | desktop/core/src/session.rs:910-985 | no frame a session writes is one an established session rejects |
| Engine.SurvivesExactly | desktop/core/src/session.rs:901-909 | a loop survives acceptable inputs if and only if its version check and replay guard pass every frame among them |
| Engine.NeitherLoopEnds | desktop/core/src/session.rs:883-1000 | two engines after one handshake, each fed a part of the other's wire in order mixed with any commands but a shutdown: with usable ids, under any schedule of both, neither loop ends |
| Duplex.EveryRunDelivers | desktop/core/src/session.rs:757-766 | over every schedule of both ends, what one wrote is what the other admitted, then its channel, then the link: nothing lost, doubled or reordered |
| Duplex.DoneOrWedged | desktop/core/src/session.rs:757-1066 | two ends after a handshake, whatever they send and however scheduled, with usable ids, no shutdown and no tick that finds the other silent: neither loop ends, and when nothing can move either all that was written has been admitted, in order, or both are held up for ever |
| Duplex.WedgedExactly | desktop/core/src/session.rs:757-849 | while neither loop has ended, nothing but tasks queueing messages ever happens again if and only if at both ends the loop waits to send a frame of its own into its full queue and link and inbound channel are full |
| Duplex.HandlersNeverWedge | desktop/capabilities/files/src/lib.rs:595-619 | because a handler gives up its wait for room, a loop that waits for a handler's message, however full everything is, is not held up for ever |
| Duplex.WedgedNeedsBothFloods | desktop/core/src/session.rs:757-849 | over every schedule, both ends are held up only after each has sent enough to fill its queue, its link and the other's inbound channel, a queueful of it frames of the loop's own |
| Duplex.LoadedEndsCanWedge | desktop/core/src/session.rs:1000-1066 | two fresh ends, each with more commands than the loop's queue holds and a task with enough messages for link and channel, have a schedule with usable ids that holds both up for ever, with no handler answering |
| Liveness.LivenessClock.OnInbound | desktop/core/src/session.rs:894-898 | any frame resets the silence, and its time is kept in whole milliseconds for other holders |
| Liveness.LivenessClock.OnTick | desktop/core/src/session.rs:1039-1066 | closes from 180 seconds of silence, probes from 60 |
| Liveness.LivenessClock.IsStale | desktop/core/src/session.rs:271-283 | stale if and only if the true silence plus the truncated part of a millisecond reaches 90 seconds |
| Liveness.ClosesAfterEightProbes | desktop/core/src/session.rs:1039-1066 | with ticks on time, the next tick closes if and only if the probes are used up: eight, unless ticking began sixty seconds or more after the last frame; 180 to 195 seconds after that frame, unless ticking itself began later |
| Liveness.SilentSessionsAreClosed | desktop/core/src/session.rs:96-111 | an open session with ticks on time has heard something within 195 seconds or has not had its first tick |
| Liveness.ClosedExactlyWhenUnanswered | desktop/core/src/session.rs:1039-1066 | a run closes the session if and only if its last event is a tick 120 seconds after a probe no frame has followed, or, with no frame and late ticking, 180 seconds after the start |
| Liveness.AnsweringPeersStay | desktop/core/src/session.rs:1039-1066 | a peer answering each probe in less than 120 seconds is never closed, over all runs, if and only if ticking begins within sixty seconds of the start |
| Liveness.PromptPeersAreNeverStale | desktop/core/src/session.rs:106-111 | a peer answering each probe within 15 seconds less 999999 nanoseconds is never reported stale, over all runs, if and only if ticking begins soon enough for its first answer |
| Liveness.SlowerPeersCanBeStale | desktop/core/src/session.rs:271-283 | one nanosecond slower, a concrete run is reported stale |
| Pairing.PairingSession.VerifyAndConsume | desktop/core/src/pairing.rs:234-263 | expiry, use, the failure limit, the proof and the new counters, as the window function says |
| Pairing.PairingDesk.BeginPairing | desktop/runtime/src/state.rs:219-230 | a new window and operator replace whatever was there |
| Pairing.PairingDesk.EndPairing | desktop/runtime/src/state.rs:232-235 | neither is left |
| Pairing.PairingDesk.PairingModeActive | desktop/runtime/src/state.rs:543-554 | active if and only if a window that is not exhausted is held |
| Pairing.PairingDesk.VerifyPairingProof | desktop/runtime/src/state.rs:556-578 | presents the proof to the held window and drops the window once exhausted |
| Pairing.ExecKeepsInv | desktop/runtime/src/state.rs:556-644 | over every interleaving: windows held are usable, failures are counted, and a connection with a proof owns its window |
| Pairing.TrustNeedsProofAndConsent | desktop/core/src/session.rs:623-727 | a key becomes trusted only by storing a connection whose proof for that window's token, that TLS key and its own nonce verified and about which, with that very proof, the operator was asked and said yes |
| Pairing.WindowLimits | desktop/core/src/pairing.rs:234-274 | each window sees at most three wrong proofs, no two connections with an accepted proof share one, and one still held is neither used nor at the limit |
| Pairing.OneProofPerWindow | desktop/core/src/pairing.rs:234-263 | over every interleaving, two steps whose proofs are accepted always spend two windows, whatever became of the connections |
| Pairing.OneDevicePerWindow | desktop/runtime/src/state.rs:598-644 | two steps that make keys trusted always spend two windows, also when the write of a stored key fails and its connection ends |
| Pairing.WindowAcceptsExactlyItsProof | desktop/core/src/pairing.rs:234-263 | a live window accepts a value made with its token, for whatever purpose, if and only if it is the proof for this host, that TLS key and that nonce, unless the two messages collide; and answers its proof with the expected confirmation |
| Pairing.FinishingNeedsOneToken | desktop/core/src/session.rs:1190-1269 | whichever end finishes pairing, both held one token, the window was live and the operator said yes |
| Pairing.PairingCompletesExactly | desktop/core/src/session.rs:623-727 | handshake and window together, the verdict being the window's on the proof in the request: both ends finish if and only if versions and ids fit, the initiator holds the window's token, the window is live, the operator agrees and both can store |
| Registry.DaemonSessions.RegisterSession | desktop/runtime/src/state.rs:253-273 | the session becomes the peer's only one, the displaced one is handed back, the request is cleared |
| Registry.DaemonSessions.UnregisterSession | desktop/runtime/src/state.rs:281-291 | removes the session, and notes the time, only if its id is the registered one |
| Registry.DaemonSessions.DropSession | desktop/runtime/src/state.rs:296-304 | removes whatever session the peer has, noting the time if there was one |
| Registry.DaemonSessions.OnGrantChanged | desktop/runtime/src/renegotiate.rs:182-195 | decides and records in one section |
| Registry.DaemonSessions.RenegotiateAfterGrant | desktop/runtime/src/state.rs:335-380 | the session to end is the registered one, if and only if the decision is to reconnect |
| Registry.DaemonSessions.ClearRenegotiation | desktop/runtime/src/renegotiate.rs:201-203 | forgets that peer's request and no other |
| Registry.DaemonSessions.EnforceRevocation | desktop/runtime/src/server.rs:376-409 | the peer is left with neither a session nor a request |
| Registry.RegisteredIsLatest | desktop/runtime/src/state.rs:253-304 | over every interleaving, a session is registered if and only if it was the last inserted for its peer and has since been neither closed by its own id nor dropped |
| Registry.AskedUnlessLastAsked | desktop/runtime/src/renegotiate.rs:141-195 | over every interleaving, a grant its session cannot use asks it if and only if it was not asked, or its peer's entry was rewritten or cleared since |
| Registry.AskedAtMostOnce | desktop/runtime/src/renegotiate.rs:168-203 | when calls do not interleave, no session is ever asked twice |
| Registry.StaleReadAsksTwice | desktop/runtime/src/state.rs:335-356 | interleaved, a session that stays registered can be asked twice |
| Approval.FileApproval.AttachProvider | desktop/runtime/src/approval.rs:164-179 | a new epoch; every open question of the old provider loses its reply channel |
| Approval.FileApproval.DetachProvider | desktop/runtime/src/approval.rs:184-195 | only the current epoch detaches |
| Approval.FileApproval.DecideOffer | desktop/runtime/src/approval.rs:198-214 | answers exactly the question pending under that id, once |
| Approval.FileApproval.WithdrawOffer | desktop/runtime/src/approval.rs:217-219 | drops exactly that question |
| Approval.FileApproval.BeginAsking | desktop/runtime/src/approval.rs:252-300 | asks the provider if there is one with room, and otherwise does not record the question |
| Approval.AcceptedOnlyByAPromptedYes | desktop/runtime/src/server.rs:1041-1191 | over every interleaving, an offer is accepted only if the daemon is unattended or a yes for that id came while that question was pending, from a connection shown that prompt and not yet answered |
| Approval.PromptWasForThisQuestion | desktop/runtime/src/server.rs:1041-1191 | over every interleaving, a connection able to answer a question was itself shown that question if and only if it is the current provider and the question is no longer queued to it |
| Approval.SingleUseIdsPromptRight | desktop/runtime/src/server.rs:1041-1191 | if no id was asked about twice, the prompt answered was for that very question |
| Approval.ReusedIdAnswersAnotherQuestion | desktop/runtime/src/approval.rs:198-214 | with a reused id, a displaced connection answers a question it was never shown |
| Approval.AnswersAreFinal | desktop/runtime/src/approval.rs:164-314 | a reply given or dropped, and an answer returned, never change |
| Approval.ProvidersComeAndGo | desktop/runtime/src/approval.rs:164-195 | pending questions have a provider; a stale close changes nothing; a new provider or the current one's close declines every open question |
| Approval.EveryOtherWayDeclines | desktop/runtime/src/approval.rs:217-314 | withdrawal, a full or missing queue and a dropped question all decline |
| Approval.ProviderDeadExactlyWhenBroken | desktop/runtime/src/server.rs:1041-1165 | over every interleaving, a recorded provider's connection is dead if and only if it ended on a write error while alive |
| Approval.NobodyAskedExactlyWhenBroken | desktop/runtime/src/server.rs:1041-1165 | over every interleaving, a waiting question has no live connection to put it to a person if and only if its provider ended on a write error; until another attaches every new offer is declined |
| Approval.BrokenProviderLeavesQuestion | desktop/runtime/src/server.rs:1041-1165 | a run in which that happens: attach, ask, write error |
| Dedup.EventCache.Admit | desktop/capabilities/clipboard/src/dedup.rs:84-95 | new if and only if the id is not among the remembered ones: the last admitted up to the capacity, younger than the time to live |
| Dedup.EventCache.Contains | desktop/capabilities/clipboard/src/dedup.rs:97-102 | answers whether the id is remembered, changing nothing |
| Dedup.EventCache.Expire | desktop/capabilities/clipboard/src/dedup.rs:113-124 | dropping dead entries from the front keeps exactly the live ones |
| Dedup.SuppressionCache.Arm | desktop/capabilities/clipboard/src/dedup.rs:178-188 | expires, appends, then evicts the oldest beyond capacity, and every entry's ending is accounted for |
| Dedup.SuppressionCache.Take | desktop/capabilities/clipboard/src/dedup.rs:195-199 | consumes the oldest live entry of that hash, and only it |
| Dedup.SuppressionCache.Expire | desktop/capabilities/clipboard/src/dedup.rs:210-219 | keeps exactly the live entries |
| Dedup.FrontExpiryIsFilter | desktop/capabilities/clipboard/src/dedup.rs:113-124 | on entries in time order, popping dead ones from the front equals filtering |
| Dedup.SuppressionAccounting | desktop/capabilities/clipboard/src/dedup.rs:178-219 | in any run, entries armed equal takes that hit plus expired plus evicted plus queued; each take consumed an earlier live entry of its hash |
| Dedup.EndingsAreFinal | desktop/capabilities/clipboard/src/dedup.rs:178-219 | an armed entry ends once, so no two takes consume one entry |
| Dedup.FailedApplyIsNeutral | desktop/capabilities/clipboard/src/lib.rs:443-457 | below capacity a failed write leaves every hash as if nothing was tried, however long it took to fail |
| Dedup.FailedApplyNeedsRoom | desktop/capabilities/clipboard/src/lib.rs:443-457 | a failed write is neutral if and only if there was room when it began or the entry it pushed out had expired when it failed |
| Clipboard.ClipboardManager.Apply | desktop/capabilities/clipboard/src/lib.rs:443-457 | arms before writing and takes back after a failed write |
| Clipboard.ClipboardManager.HandleUpdate | desktop/capabilities/clipboard/src/lib.rs:356-436 | the checks in order, then one admission, then holding or writing, each with its outcome |
| Clipboard.ClipboardManager.PendingClips | desktop/capabilities/clipboard/src/lib.rs:464-480 | keeps exactly the clips not yet too old |
| Clipboard.ClipboardManager.ApplyPending | desktop/capabilities/clipboard/src/lib.rs:486-540 | applies the held clip under the policy of the moment, and on a failed write holds it again with its first time |
| Clipboard.ClipboardManager.OnLocalChange | desktop/capabilities/clipboard/src/lib.rs:663-705 | a change matching a mark sends nothing and consumes the mark; any other goes to every reachable peer that wants it |
| Clipboard.ClipboardManager.DeliverToAll | desktop/capabilities/clipboard/src/lib.rs:611-655 | one attempt per peer, skipping the unreachable, in order |
| Clipboard.ClipboardManager.DetachSession | desktop/capabilities/clipboard/src/lib.rs:285-289 | forgets that peer's held clip and no other |
| ClipboardRuns.OneWritePerEvent | desktop/capabilities/clipboard/src/lib.rs:356-546 | in any run no event is written twice, every write was allowed by the policy then in force, and no held clip is applied too old, however often retried |
| ClipboardRuns.NoEchoNoRelay | desktop/capabilities/clipboard/src/lib.rs:663-705 | in any run of any devices, with failed reads and late notices: each update sent is for a user copy on the sender or a clip the sender noticed too late, once per cause and peer; traffic is at most copies plus late clips, times peers |
| ClipboardRuns.CopiesAreSent | desktop/capabilities/clipboard/src/lib.rs:663-705 | in every reachable state a user copy is sent to every reachable peer that wants it if and only if it can be read and carried and no mark for its text is live; where no clip was left unread there is no such mark |
| ClipboardRuns.CleanExactly | desktop/capabilities/clipboard/src/lib.rs:664-676 | a device counts as clean if and only if no peer's clip was ever left unread on it |
| ClipboardRuns.UnreadClipSwallowsCopy | desktop/capabilities/clipboard/src/lib.rs:664-686 | after a clip that could not be read, a copy of the same text is sent to nobody |
| ClipboardRuns.EchoExactlyWhenLate | desktop/capabilities/clipboard/src/dedup.rs:195-219 | in every reachable state a peer's clip noticed in time is sent to none; where none was left unread it is sent on if and only if it is read, too late |
| Store.OnlyAbsenceCreates | desktop/core/src/store.rs:751-848 | an identity is created if and only if both reads positively report absence, and loaded only from what is on disk |
| Store.IdentityIsForEver | desktop/core/src/store.rs:342-487 | through any run of opens, read errors, failed writes and crashes, key material, device id and certificate once on disk never change |
| Store.OneCreation | desktop/core/src/store.rs:391-418 | from an empty disk, through any run, the key and the document on disk come from one creation |
| Store.RunMatchesDisk | desktop/core/src/store.rs:342-487 | an open store always carries the identity on disk |
| Store.PersistLoadIsIdentity | desktop/core/src/store.rs:420-487 | a restart gives back the same peers if and only if none is hidden without being revoked |
| Store.RevocationSticks | desktop/core/src/store.rs:568-590 | once a revocation is reported done, the key stays untrusted and every capability denied until it is added again |
| Store.RevocationSurvivesRestartIffWritten | desktop/core/src/store.rs:568-590 | a revocation survives a restart if and only if its write reached the disk |
| Store.HiddenStaysRevoked | desktop/core/src/store.rs:560-721 | every edit keeps "hidden implies revoked", except exactly adding a record that breaks it |
| Store.UnsoundExactly | desktop/core/src/store.rs:420-721 | over every run, an open store holds a hidden record that is not revoked if and only if one was added to it and that key has since been neither added again nor revoked, nor the store opened again |
| Store.HideAllIsHideEach | desktop/core/src/store.rs:606-655 | hiding all is hiding each revoked, listed device in any order; trusted devices and revocations are untouched |
| Store.FailedHideRestores | desktop/core/src/store.rs:658-667 | a hide whose write is not reported done restores memory; the disk is unchanged if and only if the write did not reach it or it said the same already |
| Store.TrustStore.Add | desktop/core/src/store.rs:560-566 | replaces the record of that key, then writes, keeping the change if the write fails |
| Store.TrustStore.Revoke | desktop/core/src/store.rs:568-590 | revokes a known key, then writes, keeping the change if the write fails |
| Store.TrustStore.Commit | desktop/core/src/store.rs:658-667 | swaps the map, writes, and swaps back on failure |
| Store.TrustStore.HideRevoked | desktop/core/src/store.rs:606-633 | hides only a revoked, listed device, with the outcome for each other case |
| Store.TrustStore.HideAllRevoked | desktop/core/src/store.rs:635-656 | hides all of them in one write |
| Store.TrustStore.SetCapabilityGrant | desktop/core/src/store.rs:669-685 | changes one grant of a known key, then writes |
| Store.TrustStore.SetClipboardPolicy | desktop/core/src/store.rs:687-700 | changes that policy of a known key, then writes |
| Notifications.PeerRoles.Apply | desktop/core/src/notifications.rs:291-308 | a newer non-zero epoch replaces the whole set with the known roles announced; anything else is refused and changes nothing |
| Notifications.CollectRoles | desktop/core/src/notifications.rs:219-228 | the roles kept are exactly the known ones among the wire values |
| Notifications.RolesAreTheNewest | desktop/core/src/notifications.rs:291-308 | after any announcements the roles are those of the first with the greatest non-zero epoch, or none |
| Notifications.OrderDoesNotMatter | desktop/core/src/notifications.rs:243-253 | if no two different announcements share a non-zero epoch, reordering and repeating change nothing |
| Notifications.Snapshot.Mark | desktop/core/src/notifications.rs:579-618 | begin, end and unknown phases, with the open snapshot put back on a foreign end |
| Notifications.Snapshot.Record | desktop/core/src/notifications.rs:624-632 | names an identity in the open snapshot, or reports it live |
| Notifications.Snapshot.GiveUp | desktop/core/src/notifications.rs:639-641 | nothing is open afterwards |
| Notifications.CompletesExactly | desktop/core/src/notifications.rs:551-642 | an end completes with a set if and only if the latest begin neither completed nor abandoned has its id and the set is exactly what was named since |
| Notifications.EndsOnce | desktop/core/src/notifications.rs:593-611 | after a completion, any further end is unpaired |
| Destination.CandidatesDistinct | desktop/capabilities/files/src/destination.rs:110-116 | for any name, no two attempts try the same candidate |
| Destination.SplitExtension | desktop/capabilities/files/src/destination.rs:179-184 | stem and extension make up the name |
| Destination.DownloadSink.CreateNew | desktop/capabilities/files/src/destination.rs:84-93 | exclusive creation makes only a name nobody has |
| Destination.DownloadSink.Reserve | desktop/capabilities/files/src/destination.rs:107-151 | the outcome of the first candidate not taken, created empty; otherwise nothing changes |
| Destination.DownloadSink.Promote | desktop/capabilities/files/src/destination.rs:158-173 | reserves, renames, and on failure removes the placeholder |
| Destination.ReservedIsFree | desktop/capabilities/files/src/destination.rs:107-151 | a reserved name is the first free candidate and did not exist |
| Destination.ReserveFailsExactly | desktop/capabilities/files/src/destination.rs:107-151 | with no other refusal the search fails if and only if all thousand candidates exist |
| Destination.SucceedsWithRoom | desktop/capabilities/files/src/destination.rs:107-151 | it always succeeds in a directory of at most 999 entries |
| Destination.PromotionMovesOrRestores | desktop/capabilities/files/src/destination.rs:158-173 | a promotion moves exactly the temp content to a free name; a failed one leaves the directory as it was if and only if the placeholder was removed |
| Destination.NothingIsOverwritten | desktop/capabilities/files/src/destination.rs:84-173 | over every interleaving of transfers, failed promotions and other creators, no earlier file is altered, no two transfers share a name, and each stored file holds what its transfer received |

## Left out

- TLS, certificates, key generation, random numbers, SHA-256 and HMAC: library code. A MAC is an arbitrary function of key and message, and what must not collide is stated where it is used; ids and nonces are arguments.
- Protobuf and JSON encodings: taken to be inverse to their decoding. Printing a socket address is taken to be undone by parsing it and to give no comma.
- Text in pairing codes is one character per byte, and clipboard text is bytes; text that is not UTF-8 counts as a clipboard that cannot be read.
- The 64-bit sequence number and the 32-bit epoch are unbounded here, so their overflow is not modelled.
- Wire.EnvelopeFactory.Build: does not model the envelope's timestamp, because nothing reads it.
- Wire.EnvelopeFactory.BuildReply: does not model the envelope's timestamp, because nothing reads it.
- The handshake is modelled on values: each half is a function of the messages read, threading the factory and the guard's history instead of updating them in place. The accepted version range is a parameter.
- Capability.CapabilityRegistry.Negotiate: sorting and removing repeats are library calls and are functions here, not in-place loops.
- The dispatch loop, the capability tasks and the writer are one state machine rather than methods with loops, because they run concurrently; queues and wire are sequences. Matching a PONG to the ping that asked for it, a write error, and the two-second limit on the final flush are not modelled.
- A link's room is counted in frames, where sockets count bytes, and is any positive number. A reader's frame in hand counts as on the link. What happens at one end once the other has closed is not modelled.
- Duplex.DoneOrWedged: does not model the tick that finds 180 seconds of silence and ends the loop; when that happens is in Liveness.
- Engine.EverythingReachesTheWire: a handler's replies are those it hands over; one that waits for room longer than its bound is dropped, which Duplex models and Engine does not. A task's messages are likewise those it does not give up on.
- The capabilities' connect hooks run before the loop takes anything, and one of them sends without a bound; Engine and Duplex begin when they are done, with empty queues.
- Engine.LoopFramesAreFlushed: does not model the two-second limit on the final flush.
- Handshake.PairingHandshakeCompletes: the window's verdict is an argument; Pairing.PairingCompletesExactly joins it to the window.
- Only the order within each queue is claimed; a capability message sent through the session handle uses the other queue.
- Ticks are taken to fire on time in the liveness results.
- In the pairing machine the two looks a HELLO takes at the window are one step, and so are opening a window and ending one, which take two locks each; nothing is claimed about two operators' pairing sessions overlapping.
- Registry.AskedAtMostOnce: stated for calls that do not interleave, because it fails otherwise; the exact condition over every interleaving is Registry.AskedUnlessLastAsked.
- Registry.DaemonSessions.EnforceRevocation: does not model cancelling transfers or telling the clipboard and notifications, which are other components.
- The store's setters for the notification policy and the last protocol version are edits on values only; the class has no method for them.
- The order of peers in the state document, two processes opening one store at once, and file permissions.
- Clipboard.ClipboardManager.HandleUpdate: does not model the clean-up of the origin's name, which is only shown.
- Clipboard.ClipboardManager.DetachSession: does not model the session's sender (reachability is an argument of each change) or the last result, which is only shown.
- A write to the system clipboard is instantaneous in Clipboard and ClipboardRuns; what a failed one costs when it takes time is in Dedup.
- ClipboardRuns.NoEchoNoRelay: each write causes one change signal, handled before the next write on that device.
- The clipboard watcher's backoff, sending the clipboard on request, and remembered results.
- Destination.NothingIsOverwritten: other programs only create files; one that renames over or deletes a file is not modelled, nor are directory creation and permissions.
- The validation of notification fields and the defaults for unknown enumeration values.
- The `files.v1` transfer manager, the notification sink, the clipboard backend, the GUI, the command line, mDNS, the tray, battery readings, listeners and the Android side: I/O, display, or logic with little to prove.
