# Neural key agreement, verified

A Dafny model of a two-party chat program whose AES key comes from neural key
agreement: two Tree Parity Machines (matrices of small bounded integers) learn
from each other's one-bit outputs until their weights are equal, over FIFO
channels and framed TCP, with simulated attackers in the path and an intrusion
detector watching the frames.

The files follow the program's parts, bottom up.

- `ClippedWalk`, `Tpm`, `TpmDynamics`: a weight coordinate is a walk clipped to
  [-L, L]. What a whole sequence of clipped steps does, exactly when two copies
  merge, which units a gate opens, and how far two machines can drift.
  `Tpm.TreeParityMachine` is the class with its in-place update.
- `SequentialSync`: the simple loop a synchronisation is meant to amount to.
- `SyncSystem`, `SyncInvariant`, `SyncTheorems`, `SyncSchedules`,
  `SyncVerdicts`: two sessions, each with a program counter, round, seed and
  weights, joined by two FIFO channels; any interleaving, a timeout possible at
  every receive. Every run refines the loop, and it is settled exactly which
  timeouts make the two verdicts differ.
- `SyncSessions`: `SyncSession.synchronize` and `LoopbackTransport` as classes,
  proved to do exactly what the transition system's session does.
- `Encoding`, `Framing`: hex and decimal text; the five-byte frame header, a
  reader over an arbitrarily split stream, and senders sharing a lock.
- `FileTransfer`, `PeerLinks`, `Bookkeeping`, `FileSafety`, `FileDelivery`: chunks,
  associated data, the frame handlers of the reader thread, what they record,
  report and count for any frames, and whole runs of senders and a hostile
  channel. AES-GCM is an ideal AEAD with the interface of sections 2.1 and 2.2
  of RFC 5116: a bundle opens exactly under the associated data it was sealed
  with. SHA-256 and JSON are parameters.
- `LiveIds`, `Notifications`, `IdsResets`: the hysteresis detector, the callbacks
  derived from it, and what detector resets do to them, over an arbitrary
  sequence of classifier outputs.
- `Attacks`, `Tampering`, `Replay`: the registry's hook chain, the bit-flipping
  attack, and the replay attack with its two threads.
- `NonInterference`, `Reception`: the sync over attacked transports is the sync
  without attacks, and every attacked chat frame is answered once.
- `FeatureWindow`: the sliding window of observed frames and its summary.

Five results say where a promise holds and where it does not.

- Two sessions can disagree. In a run that ends both, exactly one reports
  success if and only if the loop succeeds, one session gave up waiting for the
  fingerprint of the agreeing round, and the other neither gave up nor found the
  connection closed (`VerdictsDifferIff`). So a schedule in which no fingerprint
  receive times out never splits the verdicts, and some run splits them exactly
  when the loop succeeds (`InTimeFingerprintsNeverSplit`, `SomeRunSplitsIff`).
  That the other never gave up is needed (`TwoGiveUpsDoNotSplit`). The runs
  shown to exist time out on empty channels only. What a success does guarantee
  about the peer is `SuccessIsWitnessed`.
- A frame counted as tampered is certain to differ from the original exactly
  when the number of flips is odd (`TamperedDiffersIffOdd`); flips may repeat a
  position and cancel.
- An injected payload is buffered again exactly when an earlier hook rewrote it
  while the attack was active (`InjectionGrowsIffRewritten`).
- With several senders the replay buffer need not hold the latest payloads in
  order: the hook examines a payload and buffers it in two locked sections. As a
  multiset what is kept is always right (`BufferHoldsForeignPayloads`); its order
  is that of examination throughout a run exactly when no sender overtakes one
  with another payload in between (`OrderIsKeptIff`,
  `OvertakingLosesTheLatest`).
- Some resets wipe the detector's memory and not the link's: the one at a
  disconnect (`core/peer_link.py:526-533`), after which frames already sent by
  other threads are still recorded, and the one that stops an attack, which
  wipes the link's memory a few statements later (`app.py:795-802`) with windows
  possible in between. Callbacks stay well formed across them exactly when the
  warm-up is at least two windows (the default is three), or no probability can
  reach the firing threshold (it is above 1), or the classifier has fewer than
  two attack classes, or the bundle needs a feature the extractor does not emit,
  so that every window without a NaN raises (`ResetsAreHarmlessIff`). The failing
  runs feed the detector probability distributions over its own classes.

Where code and documentation disagree the model follows the code:

- `ai/feature_extractor.py:111-113` calls the running total "never reset";
  `reset` (line 240) sets it to zero, and so does the model.
- `attacks/mitm.py:14-16` says a tampered chat frame reaches `on_error`; the
  handler fires `on_chat_decryption_failed` instead.
- `core/sync_protocol.py:118-119` says messages need no type tags; both
  transports tag every message and refuse the wrong kind.
- `attacks/base.py:66-67` says a stopped attack's hooks are still called; the
  registry calls active attacks only.

## Model

| member | source | states |
|---|---|---|
| ClippedWalk.PrefixSumBounds | core/tpm.py:212-214 | the highest and lowest value recorded for a step sequence bound all its prefix sums |
| ClippedWalk.PrefixSumsReach | core/tpm.py:212-214 | the highest and lowest value recorded for a step sequence are each reached by some prefix sum |
| ClippedWalk.WalkIsClampedShift | core/tpm.py:212-214 | any number of add-then-clip steps is one clamped shift by the sum; the images of -L and L are max(0, 2L - span) apart |
| ClippedWalk.MergeCriterion | core/tpm.py:212-214 | two copies given the same steps are equal iff the steps spanned 2L, or pushed the lower copy to L, or the upper to -L |
| ClippedWalk.ExtremesMergeLast | core/tpm.py:212-214 | -L and L meet exactly when the steps have spanned 2L, and exactly then every pair of starts has met |
| ClippedWalk.WalkGapShrinks | core/tpm.py:212-214 | copies given the same steps never cross and never drift apart |
| Tpm.TreeParityMachine.Create | core/tpm.py:87-105 | refused unless K, N and L are at least 1 and L fits int8; otherwise a new machine holding the drawn K by N matrix |
| Tpm.TreeParityMachine.ComputeOutput | core/tpm.py:124-148 | refuses a wrong shape or an entry other than -1 and +1; otherwise, while N * L < 2^31, unit i answers +1 iff more of its weight agrees in sign with the input than disagrees, -1 otherwise and on a tie, and tau is +1 iff an even number answer -1 |
| Tpm.TreeParityMachine.UpdateWeights | core/tpm.py:153-216 | unknown rule, foreign partner output and bad inputs each refused with their own error, in that order, weights untouched; otherwise, only if the taus agree and in the units answering tau, one clipped step of each weight along the input, against it for "anti_hebbian"; the result says whether any weight changed |
| Tpm.UnitVotes | core/tpm.py:142-144 | a hidden unit answers +1 iff the weight agreeing with the input exceeds the weight disagreeing |
| Tpm.OppositeInputs | core/tpm.py:142-144 | no unit answers +1 to an input and to its negation, and one answers -1 to both iff its pre-activation is a tie |
| Tpm.ProductIsParity | core/tpm.py:146-148 | tau is +1 iff an even number of units answer -1 |
| Tpm.UpdateMeaning | core/tpm.py:195-214 | range kept, the int8 store exact, each coordinate of a unit with sigma = tau takes one clipped step, all others stay |
| Tpm.ClosedGateKeeps | core/tpm.py:197-199 | the early return for an empty gate loses nothing: the full computation would be the identity |
| Tpm.ExportIsInjective | core/tpm.py:221-231 | the exported bytes determine the weights |
| Tpm.ExportPlaces | core/tpm.py:221-231 | the exported byte at place i * N + j is weight (i, j) in two's complement, and there are K * N of them |
| Tpm.DotFitsInt32 | core/tpm.py:143 | the int32 accumulator is exact while N * L < 2^31 |
| Tpm.Int32Wraps | core/tpm.py:143 | beyond that the accumulator holds the residue modulo 2^32 |
| TpmDynamics.GateIsEmpty | core/tpm.py:195-199 | no unit is updated iff K is even and every sigma is -1; odd K always updates some unit |
| TpmDynamics.TausAgreeIffEven | core/tpm.py:142-148 | taus are equal iff an even number of hidden units differ |
| TpmDynamics.JointRowDistance | core/tpm.py:209-214 | a row updated on both sides closes by exactly one at each coordinate where exactly one side is clipped, and nowhere else |
| TpmDynamics.UnitDistance | core/tpm.py:195-214 | a unit answering alike is updated on both sides or neither; otherwise on one side, moving the distance by at most N |
| TpmDynamics.DistanceAccounting | core/tpm.py:191-214 | the L1 distance after an agreed round, up to N times the number of disagreeing units, is the distance before less the lone clips |
| TpmDynamics.ZeroDistance | core/tpm.py:225-231 | distance zero means equal matrices |
| TpmDynamics.RulesUnderTheGate | core/tpm.py:201-210 | under the gate hebbian equals random_walk, anti_hebbian moves each gated row by -x |
| SequentialSync.Input | core/tpm.py:110-122 | the shared input of a round has K rows of N entries, each -1 or +1, +1 iff the generator's bit for that place is set |
| SequentialSync.VerdictMeaning | core/sync_protocol.py:349-412 | the loop's verdict is the first agreement within the budget, or exhaustion when there is none |
| SequentialSync.VerdictFromWeights | core/sync_protocol.py:349-412 | with a collision-free digest, the loop succeeds iff the machines are equal at the last comparison of the budget, and reports the first comparison at which they are |
| SequentialSync.RoundMeaning | core/sync_protocol.py:349-370 | a round moves a weight, one clipped step by the drawn bit, iff the taus agree and that machine's own unit answers tau |
| SequentialSync.Absorption | core/sync_protocol.py:349-370 | equal weights stay equal for any further inputs and any rule |
| SequentialSync.SameRuns | core/sync_protocol.py:365-370 | hebbian and random_walk give the same weights after every round of a session |
| SequentialSync.SameVerdicts | core/sync_protocol.py:373-412 | hebbian and random_walk sessions end with the same verdict after the same number of rounds |
| SequentialSync.CoordinateStep | core/tpm.py:191-214 | a round of one machine is one clipped step of each coordinate |
| SequentialSync.CoordinatesAreWalks | core/sync_protocol.py:349-370 | while a unit moves jointly both copies of a coordinate walk on one shared increment sequence |
| SequentialSync.CoordinateMerges | core/sync_protocol.py:349-370 | whatever the two starts, a coordinate is equal on both sides iff it started equal, the increments spanned 2L, or they pushed the lower copy to L or the upper to -L |
| SequentialSync.SpannedRunsSucceed | core/sync_protocol.py:349-393 | once all increments have spanned 2L the machines are equal and the loop succeeds by the next comparison |
| SequentialSync.DistanceOverRun | core/sync_protocol.py:349-370 | over any number of rounds, the L1 distance plus all lone clips so far is the initial distance, up to N for each unit that differed in an updating round; such units come in pairs |
| SequentialSync.SuccessMeansSharedKey | core/crypto_engine.py:71-99 | success gives equal keys for any digest, equal weights for a collision-free one |
| SequentialSync.KeyIsDigestOfWeights | core/crypto_engine.py:90-99 | the key is the digest of the weights listed row after row, one byte each, and its hex digits are the fingerprint |
| SequentialSync.KeyIdentifiesWeights | core/crypto_engine.py:90-99 | with a collision-free digest keys, and fingerprints, are equal iff the weights are |
| SyncSystem.ExchangeRefines | core/sync_protocol.py:349-412 | one lockstep exchange keeps both sides on the loop and advances at most one round |
| SyncSystem.LockRefines | core/sync_protocol.py:349-412 | any number of lockstep exchanges keeps both sides on the sequential loop |
| SyncSystem.AgreedSeedCancels | core/sync_protocol.py:207-217 | joining a seed in twice cancels and 0 joins as nothing, so a responder contributing 0 adopts the initiator's seed |
| SyncInvariant.HeadIsPeersMessage | core/sync_protocol.py:223-235 | a waiting side finds first in its channel the message its peer sent at the same exchange |
| SyncInvariant.StepKeepsInv | core/sync_protocol.py:330-412 | every send, receive, timeout, closed connection and application post keeps the two-sided invariant |
| SyncInvariant.Reachable | core/sync_protocol.py:330-412 | every state reachable by any schedule of sends, receives, timeouts, closed connections and posts satisfies the two-sided invariant |
| SyncTheorems.RunsRefineTheLoop | core/sync_protocol.py:330-412 | under any interleaving, timeouts and closed connections a session in round r holds the loop's weights of round r, its verdict is the loop's, and no receive sees a wrong kind |
| SyncTheorems.Lockstep | core/sync_protocol.py:223-235 | at most two sync messages under way, ahead of all application frames; rounds differ by at most one |
| SyncTheorems.MeasureFalls | core/sync_protocol.py:349-412 | every effective step lowers a measure of rounds and program counter, every other step keeps it |
| SyncTheorems.RunsAreBounded | core/sync_protocol.py:349-412 | no run takes more than 8 * max_rounds + 4 effective steps |
| SyncTheorems.SomeoneCanRun | core/sync_protocol.py:349-412 | unless a session has timed out or been cut off, some unfinished session can always run |
| SyncTheorems.CompleteRunsAgree | core/sync_protocol.py:330-412 | complete runs without timeouts and broken connections all end with the loop's weights and verdict and no sync message left |
| SyncTheorems.FingerprintWasSent | core/sync_protocol.py:376-393 | a session waiting for the peer's fingerprint, timed out in that receive, or successful has sent its own fingerprint and nothing after it |
| SyncTheorems.CutOffsAreTheHungUpPeers | core/peer_link.py:394-428 | a session is cut off in a send or receive only by a peer that has ended without success |
| SyncTheorems.SuccessIsWitnessed | core/sync_protocol.py:373-393 | success at round r means the peer's last message sent is an equal round-r fingerprint, and it has succeeded, timed out in its round-r fingerprint receive, or waits there with the match first in its channel; only application frames reach the reader |
| SyncTheorems.WaitingPeerSucceeds | core/sync_protocol.py:376-393 | a peer still waiting succeeds by its next receive |
| SyncTheorems.ReportsAreTheLoops | core/sync_protocol.py:330-431 | in every run a finished session reports the loop's success and round, the loop's exhaustion, or a failure with round 0 iff the handshake timed out, and always the fingerprint of the weights the loop has there, before the round's update if the tau never came |
| SyncTheorems.KeysFollowWeights | core/crypto_engine.py:71-99 | with a collision-free digest, in every state of every run the sessions hold the same key iff they hold the same weights |
| SyncTheorems.SuccessesShareTheKey | core/peer_link.py:399-403 | two successes in any run mean equal AES keys and equal rounds; both report the key's hex digits as fingerprint; with a collision-free digest the weights are equal |
| SyncSchedules.CompleteRunExists | core/sync_protocol.py:330-412 | a timeout-free run that completes both sessions exists |
| SyncVerdicts.VerdictsCanSplit | core/sync_protocol.py:376-393 | whenever the loop succeeds, some run ends in success on one side and, in the loop's round, a fingerprint timeout on the other that fired on an empty channel |
| SyncVerdicts.SuccessIsTheLoops | core/sync_protocol.py:383-393 | whatever timed out, a session reports success only if the loop succeeds, and at the loop's round |
| SyncVerdicts.VerdictsDifferIff | core/sync_protocol.py:379-382 | in every run that ends both sessions, exactly one succeeds iff the loop succeeds, one session timed out in the fingerprint receive of the agreeing round, and the other neither timed out nor was cut off |
| SyncVerdicts.InTimeFingerprintsNeverSplit | core/sync_protocol.py:376-393 | a schedule in which no fingerprint receive times out never splits the verdicts |
| SyncVerdicts.SomeRunSplitsIff | core/sync_protocol.py:376-393 | some run whose timeouts all fire on empty channels splits the verdicts iff the loop succeeds |
| SyncVerdicts.TwoGiveUpsDoNotSplit | core/sync_protocol.py:353-382 | whenever the loop succeeds, some run whose timeouts fire on empty channels has one session time out in the agreeing round's fingerprint receive and the other in that round's tau receive |
| SyncVerdicts.InProcessReportsTheLoop | core/sync_protocol.py:480-554 | on a run without timeouts the in-process wrapper reports the loop's verdict, or round 0 for machines equal from the start |
| SyncVerdicts.InProcessSuccessIsShared | core/sync_protocol.py:533-554 | with timeouts anywhere, the wrapper reports success iff both sessions do, the larger round and the first machine's final fingerprint; a success is the loop's, at its round, and both machines hold the reported fingerprint |
| SyncSessions.DriveIsARun | core/sync_protocol.py:330-412 | a session fed a list of messages is a run of the transition system with the same sends, receives and end |
| SyncSessions.LoopbackTransport.Send | core/sync_protocol.py:191-200 | a message joins the end of the queue |
| SyncSessions.LoopbackTransport.RecvTyped | core/sync_protocol.py:223-235 | an empty queue times out; otherwise the first message is taken and refused if of another kind |
| SyncSessions.LoopbackTransport.ExchangeSeed | core/sync_protocol.py:207-217 | sends the local seed and returns the XOR of both |
| SyncSessions.SyncSession.Create | core/sync_protocol.py:305-319 | refused for a round budget or a comparison period below 1; otherwise a session of the given machine, transport and seed |
| SyncSessions.SyncSession.ExchangeTaus | core/sync_protocol.py:350-370 | the tau half of a round sends, takes, updates and fails exactly as the transition system's session |
| SyncSessions.SyncSession.ExchangeFingerprints | core/sync_protocol.py:373-393 | the fingerprint half of a round sends, takes, succeeds, goes on or fails exactly as the transition system's session |
| SyncSessions.SyncSession.Synchronize | core/sync_protocol.py:330-431 | weights, messages sent, messages left and the report are exactly those of the transition system's session |
| Encoding.HexThenFromHex | core/peer_link.py:118-126 | unpacking a packed id gives it back |
| Encoding.FromHexThenHex | core/peer_link.py:118-126 | packing an unpacked lower-case id gives it back |
| Encoding.HexPlaces | core/tpm.py:231 | byte i is printed at places 2i and 2i + 1, high digit first, with the digits 0 to 9 and a to f |
| Encoding.HexIsInjective | core/tpm.py:231 | equal fingerprints mean equal digests |
| Encoding.DecimalIsInjective | core/file_transfer.py:126 | decimal printing determines the number |
| Encoding.DecimalReadsBack | core/file_transfer.py:126 | decimal text stands for the number it was printed from and has no leading zero |
| Framing.BE32RoundTrip | core/transport_tcp.py:176 | the length reads back, and its first byte weighs most |
| Framing.FrameLayout | core/transport_tcp.py:176-179 | a frame is its kind byte, four bytes of big-endian length and the payload |
| Framing.ReadsBack | core/transport_tcp.py:210-229 | a list of frames followed by part of one reads back as exactly that list |
| Framing.CutStream | core/transport_tcp.py:184-208 | a stream cut anywhere gives exactly the frames that end by then |
| Framing.TcpTransport.RecvExact | core/transport_tcp.py:184-208 | exactly n bytes however the stream is split, a disconnect when it ends first, a timeout that loses the bytes already read |
| Framing.TcpTransport.RecvRaw | core/transport_tcp.py:218-220 | one frame off the stream, a disconnect when no complete one is left, or a timeout that has consumed a prefix |
| Framing.TcpTransport.RecvFrame | core/transport_tcp.py:210-229 | the next frame the hooks let through; a disconnect when no complete one is left, the stream then used up; or a timeout that has consumed a prefix of the stream |
| Framing.FirstOfDelivered | core/transport_tcp.py:217-229 | reading one frame at a time goes through the hook-filtered list of the stream's complete frames, in order, and ends with it |
| Framing.FilteredSnoc | core/transport_tcp.py:222-229 | frame by frame, what the hooks drop is not handed on and what they pass on is, as they leave it, in order |
| Framing.TcpTransport.ReadAll | core/transport_tcp.py:210-229 | however the stream is split into reads, reading until an error gives exactly that list and then the disconnect; with a timeout, a prefix of it |
| Framing.StreamIsDelivered | core/transport_tcp.py:163-229 | for an encoded list of frames cut after any number of bytes, that list is the frames that end by then, as the hooks leave them; all of them if nothing is cut |
| Framing.ReaderRecoversAShuffle | core/transport_tcp.py:163-182 | with any lock-guarded senders the reader recovers the frames in lock order, each sender's own order kept, none lost or doubled |
| FileTransfer.MakeFileMeta | core/file_transfer.py:55-87 | both refusals; otherwise the announced size is the content's length, the digest its digest, and the chunk count the least number of chunks that holds it, at least one |
| FileTransfer.IterChunks | core/file_transfer.py:99-112 | as many chunks as announced, the i-th being the i-th slice, one empty chunk for an empty file |
| FileTransfer.ChunkSizes | core/file_transfer.py:99-112 | every chunk is full but the last, and none is empty unless the file is |
| FileTransfer.ChunksJoinToContent | core/file_transfer.py:129-148 | joining all chunks gives the content |
| FileTransfer.ChunkAadIsInjective | core/file_transfer.py:115-126 | associated data determines file id, index and total |
| FileTransfer.ChunkAadIsNoKindAad | core/peer_link.py:111-115 | no chunk's associated data equals the one-byte associated data of a frame kind |
| FileTransfer.ChunkAadReads | core/file_transfer.py:115-126 | associated data is refused for an index outside the total, and otherwise spells out the id, a colon, the index, a slash and the total, the numbers in decimal |
| FileTransfer.ChunkHeaderLayout | core/peer_link.py:496-502 | the header is sixteen bytes of id, then index and total, each big-endian |
| FileTransfer.ChunkHeaderRoundTrip | core/peer_link.py:496-502 | the chunk header reads back whatever follows |
| FileTransfer.ParsedFileId | core/peer_link.py:602-603 | every header names a well-formed file id |
| PeerLinks.CryptoEngine.Encrypt | core/crypto_engine.py:104-123 | what was sealed opens under the same associated data |
| PeerLinks.PeerLink.RecordFrame | core/peer_link.py:698-718 | one record for each observed frame |
| PeerLinks.PeerLink.HandleChat | core/peer_link.py:538-558 | the handler's whole new state: sequence number, record and callback for a good, a bad and a too short bundle, the last ending the loop |
| PeerLinks.PeerLink.HandleControl | core/peer_link.py:560-573 | the handler's whole new state for a good, a bad and a too short control bundle |
| PeerLinks.PeerLink.HandleFileMeta | core/peer_link.py:575-594 | the handler's whole new state: errors for bad bundles and bad JSON, otherwise a fresh entry under the announced id |
| PeerLinks.PeerLink.HandleFileChunk | core/peer_link.py:596-624 | the handler's whole new state: errors for a short header, an unknown id and a failed authentication, otherwise the chunk is stored |
| PeerLinks.PeerLink.StoreChunk | core/peer_link.py:625-636 | the chunk joins its entry; when the count reaches the total the file is assembled, reported with its digest check and dropped |
| PeerLinks.PeerLink.HandleFrame | core/peer_link.py:516-525 | one frame is dispatched by its kind, an unknown kind ignored |
| PeerLinks.PeerLink.ReaderLoop | core/peer_link.py:513-536 | reading off a transport however its stream is split, the link ends with its handlers' run over the frames the hooks let through, up to the first exception, and then the disconnect |
| PeerLinks.PeerLink.SendFile | core/peer_link.py:473-508 | an oversized file is refused with nothing sent; otherwise the announcement and then every chunk in order, each sealed under its own associated data, and the send counter is one higher |
| FileSafety.LastChunkAssembles | core/file_transfer.py:140-148 | a full count of authentic chunks is a full set, so assembly never finds one missing |
| FileSafety.AcceptIsSafe | core/peer_link.py:625-636 | an accepted chunk either leaves an incomplete authentic entry or completes the sender's file with its digest correct |
| FileSafety.RunsAreSafe | core/peer_link.py:575-636 | over a channel delivering any frames at all, every entry and event stays authentic |
| FileSafety.CompletedFilesAreGenuine | core/peer_link.py:625-636 | whenever a file completes it equals the file sent under that id and the digest check holds |
| FileSafety.RunsKeepHistory | core/peer_link.py:575-636 | an entry holds exactly the indices accepted since its last announcement, and completions never outnumber announcements |
| FileSafety.CompletesExactlyWhenAllIndicesAreIn | core/peer_link.py:625-636 | an accepted chunk completes the file iff with it every index has been accepted since the announcement |
| FileSafety.LosslessTransferCompletes | core/peer_link.py:473-508 | from any reachable state, sending a file and delivering its frames in order hands over the same content |
| FileDelivery.FileArrives | core/transport_tcp.py:163-229 | the frames of a file, encoded and read back, are the same frames, and handling them ends with that file handed over and then the disconnect |
| FileDelivery.SendAndReceive | core/peer_link.py:473-536 | sending a file at one link and running the other link's reader loop over the bytes, however split, ends with exactly that file completed, its digest correct, and the disconnect |
| FileDelivery.FileFramesInOrder | core/peer_link.py:479-508 | the announcement comes first and chunk i is frame i + 1, its bundle behind a header naming the file, i and the total |
| LiveIds.BestCandidateMeaning | ai/ids_live.py:277-283 | the chosen candidate is a most probable attack class at or above the threshold, if there is one |
| LiveIds.BestCandidateIsFirst | ai/ids_live.py:282-283 | among equally probable candidates the first is chosen |
| LiveIds.OneWindow | ai/ids_live.py:124-148 | one window fires or clears at most one alert, NaN and warm-up windows none, and an alert never changes class |
| LiveIds.ReportedState | ai/ids_live.py:105-148 | a scored window reports its probabilities, the count with it, the alert as it now is, warming up iff below the required count and otherwise alerting iff there is an alert; a NaN window repeats the last state, or all classes at 0 before there is one; a window lacking a feature reports nothing |
| LiveIds.WatchCounts | ai/ids_live.py:124 | every window counts, raising and NaN ones included |
| LiveIds.LiveIDS.Create | ai/ids_live.py:71-75 | refused unless the clearing threshold is strictly below the firing one; otherwise a detector with nothing in memory |
| LiveIds.LiveIDS.UpdateAlert | ai/ids_live.py:273-306 | the loop over candidates computes the hysteresis step |
| LiveIds.LiveIDS.Evaluate | ai/ids_live.py:105-148 | memory and answer of one evaluation, including the window that raises |
| LiveIds.LiveIDS.Reset | ai/ids_live.py:154-164 | back to the initial memory |
| LiveIds.AlertsCostVariation | ai/ids_live.py:273-306 | m completed alerts of a class need total variation at least (2m - 1)(fire - clear) of its probability |
| Notifications.Notifier.HandleTransition | core/peer_link.py:738-796 | the callbacks of one transition |
| Notifications.Notifier.OnFeatures | core/peer_link.py:723-736 | a feature window is evaluated and its state handed on and remembered, unless it raises; after a disconnect only for frames already sent |
| Notifications.Notifier.OnDisconnect | core/peer_link.py:526-533 | a disconnect closes the link and resets the detector, and not the link's memory of it; frames already sent are still recorded |
| Notifications.Notifier.SetIds | core/peer_link.py:344-351 | a reset detector attached to a link starts both memories empty |
| Notifications.TraceIsWellFormed | core/peer_link.py:738-796 | as long as the detector is never reset behind a listening link's back, the callbacks are a prefix of (alert(t)+ cleared(t))*, cut short by restarts only, confidence at or above the clearing threshold |
| Notifications.EachWindowsCallback | core/peer_link.py:738-796 | a window causes one callback when the detector's alert appears, goes, or jumps by 0.10 or more in confidence, telling of that alert, and none otherwise |
| Notifications.SilentDrift | core/peer_link.py:773-788 | k silent scored windows leave the confidence within 0.10 k of the value last notified |
| IdsResets.SafeSettingsKeepTheTrace | ai/ids_live.py:154-164 | with safe settings the callbacks stay well formed whatever is reset when, and the link's memory is the detector's, empty, or about to be corrected |
| IdsResets.UnsafeSettingsBreakTheTrace | core/peer_link.py:773-796 | every unsafe detector has a run of probability distributions over its classes in which a class is reported inside another one's block |
| IdsResets.ResetsAreHarmlessIff | ai/ids_live.py:63-89 | the callbacks stay well formed in all runs iff the warm-up is at least two windows, or the firing threshold is above 1, or there are fewer than two attack classes, or the bundle does not match the extractor and every window raises |
| Attacks.ChainSplits | attacks/base.py:210-233 | the chain may be cut anywhere |
| Attacks.LastHook | attacks/base.py:210-233 | one more hook passes on what it is given as it says, drops it, or by raising leaves it alone; a dropped frame stays dropped |
| Attacks.DropIsFinal | attacks/base.py:221-233 | a drop anywhere drops the frame, whatever hooks follow |
| Attacks.HarmlessHookCanGo | attacks/base.py:210-233 | a hook that passes a frame on unchanged or raises may be removed |
| Attacks.HarmlessChain | attacks/base.py:210-233 | a chain of hooks that pass the frame on unchanged or raise is the identity |
| Attacks.AttackRegistry.Register | attacks/base.py:153-163 | joins at the end unless registered |
| Attacks.AttackRegistry.Unregister | attacks/base.py:165-180 | its one place closes up, the others stay in order; it is stopped and detached; an unregistered attack changes nothing |
| Attacks.AttackRegistry.ActiveAttacks | attacks/base.py:201-203 | exactly the registered attacks that are active, in the order of registration |
| Attacks.AttackRegistry.ApplyOutbound | attacks/base.py:210-233 | the loop computes the chain: first drop ends it, a raise counts as no hook |
| Tampering.FlipAtTogglesOneBit | attacks/mitm.py:99-101 | one loop step toggles one bit of the payload |
| Tampering.FlipMovesByPower | attacks/mitm.py:100 | flipping bit k of a byte adds or takes away 2^k |
| Tampering.FlipsHaveParity | attacks/mitm.py:97-101 | f flips change at most f bits and a number of the parity of f |
| Tampering.OddHitsDiffer | attacks/mitm.py:97-101 | after any flips exactly the bits named an odd number of times differ |
| Tampering.SameBitCancels | attacks/mitm.py:99-101 | flips of one bit cancel in pairs |
| Tampering.TamperedDiffersIffOdd | attacks/mitm.py:97-104 | a counted tamper always differs from its input iff f is odd |
| Tampering.MitmAttack.Create | attacks/mitm.py:62-80 | refused unless the probability is within 0 and 1 and at least one bit is flipped; otherwise inactive with both counters 0 |
| Tampering.MitmAttack.OnOutboundFrame | attacks/mitm.py:82-104 | seen and tampered counters; a frame not counted as tampered goes out unchanged; in one that is, exactly the bits drawn an odd number of times differ, at most the flip count and of its parity, so an odd count always changes the frame and a single flip changes the drawn bit only |
| Tampering.MitmAttack.FlipAll | attacks/mitm.py:97-101 | the in-place loop computes the flips in order |
| Replay.ReplayAttack.Create | attacks/replay.py:61-93 | refused for a buffer of no size or an interval that is not positive; otherwise inactive and empty |
| Replay.ReplayAttack.OnOutboundFrame | attacks/replay.py:124-139 | the frame passes; it is buffered iff active, chat and not being injected |
| Replay.ReplayAttack.Start | attacks/replay.py:103-104 | the attack becomes active, its buffer and counters kept |
| Replay.ReplayAttack.Stop | attacks/replay.py:115-116 | the attack becomes inactive, its buffer and counters kept |
| Replay.ReplayAttack.InjectOnce | attacks/replay.py:147-189 | without interleaving an injection sends a buffered payload, leaves the buffer alone, counts itself and notes its time and the whole milliseconds since the last |
| Replay.RunsKeepInv | attacks/replay.py:124-189 | in every interleaving of any number of senders and one injector: buffer is the last buffer_size kept payloads, injections were kept before, intervals number max(0, replayed - 1) |
| Replay.StatisticsAreOfTheRun | attacks/replay.py:180-189 | in every interleaving the count, the last time and the intervals are those of the injections completed, each interval truncated towards zero |
| Replay.InjectionGrowsIffRewritten | attacks/replay.py:131-138 | an injected payload is about to be buffered again iff the attack is active and an earlier hook rewrote it |
| Replay.BufferHoldsForeignPayloads | attacks/replay.py:124-139 | without rewriting, the payloads kept or about to be are, as a multiset, those seen while active that were not the one being injected, and the buffer is the last buffer_size kept |
| Replay.OrderIsKeptIff | attacks/replay.py:131-138 | what is kept follows the order of examination throughout a run iff no sender overtakes one with another payload between the hook's two locked sections |
| Replay.OvertakingLosesTheLatest | attacks/replay.py:131-138 | two senders and a buffer of one for which the payload examined first is what stays |
| Replay.InjectorLeavesBuffer | attacks/replay.py:147-189 | without rewriting, no step of the injector changes the buffer |
| NonInterference.MessagesSurviveFraming | core/transport_tcp.py:241-267 | every sync message survives its frame encoding |
| NonInterference.MessageLayout | core/transport_tcp.py:241-267 | a seed is eight bytes, the first weighing most, tau one signed byte, the fingerprint one byte a character |
| NonInterference.RunMitmHook | attacks/mitm.py:82-104 | the chain's tampering hook is the class's: same frame, same state |
| NonInterference.RunReplayHook | attacks/replay.py:124-139 | the chain's replay hook is the class's: same frame, same state |
| NonInterference.NewcomerIsLast | attacks/base.py:221-233 | an attack that joins sees the frame last, as all the others leave it |
| NonInterference.ChainOnFrames | attacks/mitm.py:82-104 | any chain of tampering and replay attacks keeps kind and length, and is the identity on frames that are not chat |
| NonInterference.OtherFramesLeaveAttacks | attacks/replay.py:124-139 | frames that are not chat change no attack of the chain |
| NonInterference.ChainIsTheRegistrys | attacks/base.py:210-233 | the chain of tampering and replay attacks is the registry's chain of the active ones' hooks, and never drops a frame |
| NonInterference.SyncSendIsUntouched | core/transport_tcp.py:163-182 | a sync send through any chain is the send without attacks |
| NonInterference.AttackedRunIsAPlainRun | core/peer_link.py:380-402 | every run over attacked transports, from fresh attacks, with attacks registered, removed and toggled on the way, goes through the session states of a run without attacks with the same sends, receives, timeouts and closed connections |
| NonInterference.AttackedSyncIsSafe | core/peer_link.py:380-402 | over attacked transports the sessions still hold the loop's weights, and two successes still share the key |
| Bookkeeping.AllSurvive | core/crypto_engine.py:141-147 | no frame of a list ends the reader iff none is a chat, control or file-meta frame under 28 bytes |
| Bookkeeping.SurvivedMeaning | core/crypto_engine.py:141-147 | of the frames that survive none ends the reader, and the one behind them does |
| Bookkeeping.EveryChatIsAnsweredOnce | core/peer_link.py:513-558 | the reader ends at the first chat, control or file-meta frame under 28 bytes and nowhere else; up to there each chat frame causes one record and one of received and decryption-failed, in order |
| Bookkeeping.OneAnswerEach | core/peer_link.py:538-558 | the i-th answer is received iff those bytes were sealed as chat |
| Bookkeeping.EveryFrameAccount | core/peer_link.py:538-636 | one frame: recorded iff its bundle is tried, as successful iff it was sealed under what the frame claims (for a chunk, the file, place and total of its header); one error iff it is too short, false, unreadable, of no pending file or leaves a gap in a full count; one report for each announcement and stored chunk; no entry changes otherwise; chat, file-meta and control frames count |
| Bookkeeping.EveryFrameIsAccountedFor | core/peer_link.py:513-636 | over any run of frames up to the first that ends the reader, records, errors, announcements, chunk reports and the receive counter are exactly those due frame by frame, in order |
| Bookkeeping.ReadingEndsOnce | core/peer_link.py:526-536 | the reader ends with one disconnect iff no frame was fatal, otherwise with an error and no disconnect |
| Reception.RunsStayGood | attacks/mitm.py:86-104 | every chat bundle on a channel or in a replay buffer stays long enough to decode, and stays one that was sealed if nobody tampers |
| Reception.AttackedChatsAreAnswered | core/peer_link.py:538-558 | everything on a successful session's channel, from any attacked peer, is a chat frame that is answered exactly once |
| Reception.ReplayedChatsAreReceived | core/peer_link.py:555-558 | if the attacks at both ends only replay and the peer's bundles were sealed, every chat on the channel is received with its plaintext, injected ones included |
| FeatureWindow.VarianceMeaning | ai/feature_extractor.py:186-192 | the spread is zero iff all observations agree |
| FeatureWindow.SpreadIsOverPairs | ai/feature_extractor.py:186-192 | twice the squared count times the spread is the sum of squared differences over all ordered pairs |
| FeatureWindow.SizesMeaning | ai/feature_extractor.py:191-192 | the reported mean size times the count is the total, with frames on either side of it; the reported size spread is that of all pairs of sizes, 0 for one frame |
| FeatureWindow.CadenceMeaning | ai/feature_extractor.py:178-214 | reported mean gap, gap spread and frame rate in terms of the time stamps, each 0 where the window is too short |
| FeatureWindow.CountsMeaning | ai/feature_extractor.py:194-221 | the reported shares, failure rate and duplicates count positions of the window: frames of each kind, failures among attempts, hashes seen earlier |
| FeatureWindow.GapsTelescope | ai/feature_extractor.py:181-184 | the inter-arrival gaps sum to the window's span |
| FeatureWindow.RateAgreesWithGap | ai/feature_extractor.py:180-214 | frame rate times mean gap times (n - 1) is 1000 n iff the window spans at least a microsecond |
| FeatureWindow.DuplicatesThreeWays | ai/feature_extractor.py:206-209 | the counter's excess, the positions with an earlier equal hash, and hashed frames less distinct hashes are one number |
| FeatureWindow.FractionsMeaning | ai/feature_extractor.py:218-221 | the composition fractions sum to at most one, to one iff all frames are application frames |
| FeatureWindow.EachFraction | ai/feature_extractor.py:218-221 | each composition fraction is 1 iff the whole window is of its kind and 0 iff nothing in it is |
| FeatureWindow.FailureRateMeaning | ai/feature_extractor.py:194-200 | the failure rate is within 0 and 1, 0 iff no attempt to open a frame failed, 1 iff some were made and all failed |
| FeatureWindow.OnlyAttemptsMatter | ai/feature_extractor.py:171-174 | frames recorded without a decryption result have no part in the failure rate: dropping them all leaves it as it is |
| FeatureWindow.ReportedDuplicates | ai/feature_extractor.py:202-209 | the reported duplicate count is hashed frames less distinct hashes |
| FeatureWindow.FeatureExtractor.Create | ai/feature_extractor.py:104-113 | refused for a window of no size; otherwise an empty window |
| FeatureWindow.FeatureExtractor.Record | ai/feature_extractor.py:133-145 | a bad direction is refused; the window stays the last window_size records since reset and the total their number |
| FeatureWindow.FeatureExtractor.ExtractFeatures | ai/feature_extractor.py:164-234 | the features are those of that window |
| FeatureWindow.FeatureExtractor.Reset | ai/feature_extractor.py:236-240 | window and total are cleared |
| FeatureWindow.EmissionsAreDue | core/peer_link.py:712-727 | after m records, however threads interleave, floor(m / every) features have been emitted once every total has been looked at |
| FeatureWindow.EmissionsAreTheMultiples | core/peer_link.py:712-727 | the totals emitted and the due totals still held are every, 2 * every and so on up to the total, each once |
| FeatureWindow.DueMeaning | core/peer_link.py:723 | a number is among the due totals, once, iff it is a multiple of `every` from 1 to the total |

## Left out

- Tpm.TreeParityMachine.Create: the generator's draw is a parameter.
- Tpm.TreeParityMachine.ComputeOutput: the answers are spelled out while N * L < 2^31; beyond, the accumulator wraps (`Tpm.Int32Wraps`).
- Tpm.UpdateMeaning: numpy arrays are sequences of rows; the update reassigns the field, as the source does after clipping its own copy in place.
- SequentialSync.VerdictMeaning: numpy's generator is a function of seed, round and position; nothing is said about how likely agreement is.
- SyncTheorems.SuccessIsWitnessed: in what holds of all runs a timeout may fire at any receive, also with a message queued, and a peer that ended without success may cut a session off at any send or receive; a connection that breaks by itself is left out.
- SyncSessions.SyncSession.Synchronize: both seeds are 64-bit and the learning rule is one of the three known names; elapsed time, logging and progress lines are left out.
- SyncSessions.LoopbackTransport.ExchangeSeed: seeds are 64-bit, as the sessions draw them and as TCP carries them; the queues would carry wider ones.
- SyncSessions.LoopbackTransport.RecvTyped: the queue holds what arrives in time, so waiting is not modelled in the class; the transition system has the waiting.
- SyncVerdicts.InProcessReportsTheLoop: the wrapper's two threads are the runs of the transition system; its replacement of a crashed session's result is left out because no session crashes.
- Framing.TcpTransport.RecvFrame: reset errors of the operating system appear as a disconnect at the end of the stream.
- Framing.ReaderRecoversAShuffle: a `sendall` that fails half-way is left out.
- FileTransfer.MakeFileMeta: one content stands for the file at both reads; a file changed between hashing and chunking is left out, as are paths and basenames.
- PeerLinks.CryptoEngine.Encrypt: AES-GCM is an ideal AEAD whose nonces never repeat; a forged bundle never opens.
- PeerLinks.PeerLink.HandleChat: the UTF-8 decoding with replacement after a successful decryption is left out, and callbacks are events.
- PeerLinks.PeerLink.RecordFrame: hashing, feature emission and detector evaluation are not part of this record; they are the feature window and the notifications.
- PeerLinks.PeerLink.HandleFileMeta: JSON is a pair of functions; an authenticated announcement lacking `file_id` or `sha256`, which no link sends, is left out.
- PeerLinks.PeerLink.ReaderLoop: a local `close` while the loop is reading is left out.
- PeerLinks.PeerLink.SendFile: the outbound records it also makes and the attack hooks on each send are left out; several concurrent senders are covered by the framing model only.
- LiveIds.LiveIDS.Evaluate: the classifier's probabilities are an arbitrary input, as reals, and the classifier itself does not raise; timestamps are parameters; calls are serialised.
- Notifications.Notifier.OnFeatures: each window with its hand-over is one step; how many frames make a window is the feature window's concern.
- IdsResets.ResetsAreHarmlessIff: any number of frames may be in flight at a disconnect, and any number of windows may come between the two wipes.
- Attacks.AttackRegistry.ApplyOutbound: hooks are fixed functions from frames to results; `apply_inbound` is the same loop and appears as the reader's hook.
- Replay.RunsKeepInv: one live injector for an attack, another attack's being a sender here; the activity flag and the set of payloads being injected are read in one step.
- Replay.ReplayAttack.InjectOnce: sleeping and a failing send are left out; interleaving and failure are in the two-thread model.
- Replay.ReplayAttack.Start: the injector thread is in the two-thread model, its creation is left out.
- Replay.ReplayAttack.Stop: the join of the injector is left out.
- NonInterference.AttackedRunIsAPlainRun: each hook call is one step here; its interleaving is the subject of the replay model.
- FeatureWindow.FeatureExtractor.ExtractFeatures: variances stand for standard deviations, and arithmetic is over reals.
- FeatureWindow.EmissionsAreDue: no reset between the records counted.
- The progress-reporting transport wrapper forwards every call and counts rounds; its counters are left out.
- Socket set-up, dialling, closing and thread joins are left out.
- Classifier training, reports, latency statistics, benchmarks, the web application and its scripts are left out.
