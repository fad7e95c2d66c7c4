# Verified model of a streaming transcription server

The server receives PCM audio over a WebSocket, keeps the last seconds of it in a bounded
buffer, decodes that buffer again and again, and turns decoded segments into provisional and
final text. What is hard about it is state shared between threads: the two threads of one
session, the sessions that share one loaded model, and the detached timers that unload it. This
project models those parts in Dafny and proves what they promise over every run.

The decoder is an oracle: it answers with any list of segments, with any timestamps and with or
without text, or it fails. Token validation by the external service is an oracle with three
answers. Clocks, socket failures and the choice of which thread runs next are inputs. A run is a
list of events, each one critical section or one message sent outside a lock; an event that is
not possible in a state does nothing, so theorems about all lists are theorems about all
interleavings. Classes carry the fields the program updates in place, and every method is proved
against a function of its inputs and the old fields. For the session and the inference limiter
that function is the step of the state machine, one event a method. The cache and the connection
counters have their own functions, which the steps of their machines use; one call of `Validate`
is the run of several events with nothing in between. The theorems are about the machines.

| module | models |
|---|---|
| `AudioPreprocessor` | high-pass filter and capped peak normalisation, in place |
| `WhisperEngine`, `EngineHistory` | the sample buffer, the commit rule, and every history of them |
| `HallucinationGuard` | the one-pass detector of decoder loops against what it should find |
| `RateWindow` | the three-second byte window |
| `SessionModel`, `StreamingSession` | one session with its receiving and its flush thread; the session object |
| `SessionEffects` | what each event of a session does, in numbers and texts |
| `SessionTranscript`, `SessionProtocol`, `SessionAftermath`, `SessionOverflow`, `SessionDrain`, `SessionLedger`, `SessionRate`, `SessionAudio` | theorems about every run of a session |
| `SessionWitnesses` | concrete runs behind promises that hold only under a condition |
| `ModelCache`, `ModelSharing` | reference counting, timers, and any number of holders of one model |
| `Server`, `ServerCapacity`, `ServerModel` | any number of complete sessions on one model and one limiter, with decodes that take time |
| `InferenceLimiter` | the counting semaphore with its condition variable |
| `ConnectionLimiter` | global and per-address connection counters and the accept loop |
| `AuthManager` | static token, expiring cache, many validations at once |

Promises that turned out to need a condition, stated as equivalences:

- A forced decode is documented to empty the buffer; it does exactly when the decoder found a segment.
- `reset(keep)` is documented to keep the last `keep` samples; asked for all of them or more, it keeps none.
- Committed text is documented never to be sent again; its audio leaves the buffer for good exactly when the commit is forced, or ends at a positive timestamp after which no committed segment ends, or takes the whole buffer. Otherwise the same text can be committed twice.
- The cache is documented to keep an idle model for the whole TTL; a timer left from an earlier idle period can end it sooner, and nothing else can.
- The reference count is the number of holders exactly when no session was configured twice; a second configuration pins the model for ever.
- The unsigned difference of sizes in the flush thread goes wrong exactly after a commit of segments without text that ended at a positive timestamp.
- The byte window is only checked when it ends: a connection is closed exactly when a window, up to and including the frame that ends it, carries more than 614400 bytes, so a burst inside three seconds is never refused.
- The final message should carry the text of the forced decode; a flush cycle can change it in between exactly when at least ten seconds of audio are left that it takes for new, which after the forced decode means that no segment was found.
- Nothing should follow the final message; a provisional one can, exactly when it is composed already or the flush thread has audio left to decode.
- The configured maximum of simultaneous decodes bounds those of the flush threads only; for all decodes together it holds exactly when no more clients are let in at a time than it allows. The defaults, eight connections and four decodes, break it.
- With both a static token and an API configured, the README says the API decides; the code uses the static token, and the API decides exactly when no static token is set.
- Chunks are documented to be dropped until the buffer drains; a saturated buffer can drain exactly when the recorded size differs from its own, and one decode that leaves it saturated is enough to end that.

## Model

| member | source | states |
|---|---|---|
| `AudioPreprocessor.Process` | src/utils/AudioPreprocessor.h:19-36 | The array ends up as the filtered and normalised chunk, and the two state variables as the filter state after it |
| `AudioPreprocessor.FilterInPlace` | src/utils/AudioPreprocessor.h:21-30 | The first pass leaves the filtered signal, the state after it and the largest magnitude in it |
| `AudioPreprocessor.ScaleInPlace` | src/utils/AudioPreprocessor.h:34-34 | The second pass multiplies every sample by the gain |
| `AudioPreprocessor.PeakIsLargest` | src/utils/AudioPreprocessor.h:29-29 | The tracked peak bounds every magnitude and is attained |
| `AudioPreprocessor.HighPassAppend` | src/utils/AudioPreprocessor.h:23-27 | Filtering two pieces one after the other with the carried state is filtering their concatenation |
| `AudioPreprocessor.ChunkingIsIrrelevant` | src/utils/AudioPreprocessor.h:12-13 | However a stream is cut into chunks, the pre-gain signal is the same |
| `AudioPreprocessor.HighPassClosedForm` | src/utils/AudioPreprocessor.h:25-25 | From silence, output i is 0.969 times input i less 0.031 times a geometrically weighted sum of all earlier inputs |
| `AudioPreprocessor.MemoryWeights` | src/utils/AudioPreprocessor.h:25-25 | The weight of an input in that sum falls by 0.969 with every later sample |
| `AudioPreprocessor.ConstantOffsetDecays` | src/utils/AudioPreprocessor.h:25-25 | A constant offset leaves the filter as the offset times 0.969 to the n |
| `AudioPreprocessor.HighPassIsBounded` | src/utils/AudioPreprocessor.h:23-29 | Inputs within M give outputs within 1.938 M over any length, by the invariant that the output stays within 0.969 M of 0.969 times the input |
| `AudioPreprocessor.GainRange` | src/utils/AudioPreprocessor.h:32-33 | The gain is between 1 and 4 and brings a weak peak to the smaller of 0.9 and four times itself |
| `AudioPreprocessor.NormalisedPeak` | src/utils/AudioPreprocessor.h:32-35 | The three normalisation rules as the exact peak of the output |
| `AudioPreprocessor.PreprocessedIsBounded` | src/utils/AudioPreprocessor.h:19-36 | After both stages every sample is within the larger of 0.9 and 1.938 M |
| `AudioPreprocessor.FilterSnoc` | src/utils/AudioPreprocessor.h:23-27 | Each sample is filtered once, in order, from the state the one before left |
| `AudioPreprocessor.SampleByOneGain` | src/utils/AudioPreprocessor.h:32-35 | Every filtered sample is amplified by the gain for the peak of all of them |
| `WhisperEngine.StreamingWhisperEngine.Create` | src/whisper/StreamingWhisperEngine.cpp:11-38 | Without a context or a decoder state there is an exception and no engine; otherwise a new engine with an empty buffer and a silent filter |
| `WhisperEngine.StreamingWhisperEngine.ProcessAudioChunk` | src/whisper/StreamingWhisperEngine.cpp:48-78 | At the high-water mark the chunk is dropped and nothing changes; otherwise its preprocessed samples are appended and the filter state advances |
| `WhisperEngine.StreamingWhisperEngine.Append` | src/whisper/StreamingWhisperEngine.cpp:61-76 | Whatever branch is taken, the buffer becomes the last 480000 samples of old and new together |
| `WhisperEngine.StreamingWhisperEngine.TranscribeSlidingWindow` | src/whisper/StreamingWhisperEngine.cpp:80-224 | Buffer and texts after a decode are those of the commit rule, for forced and unforced calls, empty buffers and failed decodes |
| `WhisperEngine.StreamingWhisperEngine.FindCut` | src/whisper/StreamingWhisperEngine.cpp:159-185 | The backward search with its early exit and its fallback finds the cut of the rule |
| `WhisperEngine.StreamingWhisperEngine.Gather` | src/whisper/StreamingWhisperEngine.cpp:188-195 | Texts of consecutive segments are joined in order, missing ones skipped |
| `WhisperEngine.StreamingWhisperEngine.Erase` | src/whisper/StreamingWhisperEngine.cpp:197-209 | Exactly the samples before the committed timestamp leave the front, or all of them |
| `WhisperEngine.StreamingWhisperEngine.Trim` | src/whisper/StreamingWhisperEngine.cpp:232-239 | The buffer after `reset` |
| `WhisperEngine.CutIsUnique` | src/whisper/StreamingWhisperEngine.cpp:163-185 | The declarative rule (last segment that ends before the overlap, else all but the last) has exactly one solution, the one computed |
| `WhisperEngine.TextIsPartitioned` | src/whisper/StreamingWhisperEngine.cpp:187-223 | In every branch committed text followed by partial text is the text of all segments in order |
| `WhisperEngine.ForcedDecode` | src/whisper/StreamingWhisperEngine.cpp:163-209 | A forced decode commits the text of all segments and leaves no audio, provided it finds a segment |
| `WhisperEngine.ShortDecode` | src/whisper/StreamingWhisperEngine.cpp:159-223 | Below 160000 samples everything stays provisional and all audio stays |
| `WhisperEngine.WindowDecode` | src/whisper/StreamingWhisperEngine.cpp:166-209 | From 160000 samples on: which segments are committed, and exactly which samples leave, for any last segment before the overlap or none |
| `WhisperEngine.NoDecode` | src/whisper/StreamingWhisperEngine.cpp:80-157 | No audio means no decode and no text; a failed decode leaves the audio and carries its code |
| `WhisperEngine.FeedEffect` | src/whisper/StreamingWhisperEngine.cpp:48-78 | From 320000 samples on a chunk leaves no trace; otherwise the buffer is the last 480000 of old and new samples and the filter advances |
| `WhisperEngine.WindowCommit` | src/whisper/StreamingWhisperEngine.cpp:166-205 | A commit before the overlap ends at the last such segment and leaves at least 32160 samples; the fallback commits all but the last segment and removes at least 128000 |
| `WhisperEngine.CommittedAudioLeavesIff` | src/whisper/StreamingWhisperEngine.cpp:159-209 | A commit moves the buffer's front past the end of every committed segment exactly when it is forced, or ends at a positive tick after which no committed segment ends, or takes everything; for timestamps in order the positive tick decides |
| `WhisperEngine.ForcedCommitEmpties` | src/whisper/StreamingWhisperEngine.cpp:163-209 | A forced commit empties the buffer exactly when there is a segment |
| `WhisperEngine.ResetKeepsTail` | src/whisper/StreamingWhisperEngine.cpp:232-239 | `reset` keeps the requested tail exactly when fewer samples than all are requested |
| `WhisperEngine.CapArithmetic` | src/whisper/StreamingWhisperEngine.cpp:61-76 | Accepting a chunk gives the capped sum; no loss up to 160001 samples, at most 102143 old samples for a frame of at most 1 MB |
| `EngineHistory.AudioIsTiled` | src/whisper/StreamingWhisperEngine.cpp:48-239 | Over every history the accepted stream is everything removed, in order, followed by the buffer |
| `EngineHistory.StreamsGrow` | src/whisper/StreamingWhisperEngine.cpp:48-239 | The accepted and the removed stream only ever grow at their ends, so the start of the buffer never moves back |
| `EngineHistory.CommittedAudioIsGoneIff` | src/whisper/StreamingWhisperEngine.cpp:159-209 | After a commit no history ever has audio of the committed segments in the buffer again, exactly under that condition |
| `EngineHistory.AcceptedIsFilteredStream` | src/whisper/StreamingWhisperEngine.cpp:53-76 | The filter sees the taken chunks as one stream from silence, whatever is dropped, decoded or trimmed; the accepted stream is the filtered one, cut where the chunks were, each piece times the one gain its peak asks for |
| `EngineHistory.AcceptedIsAmplified` | src/whisper/StreamingWhisperEngine.cpp:58-59 | Sample by sample no gain is below 1 or above 4 |
| `EngineHistory.BufferIsCapped` | src/whisper/StreamingWhisperEngine.cpp:63-76 | No history makes the buffer longer than 480000 samples |
| `EngineHistory.BufferIsBounded` | src/whisper/StreamingWhisperEngine.cpp:58-59 | With inputs within M every buffered sample is within the larger of 0.9 and 1.938 M |
| `HallucinationGuard.IsHallucination` | src/utils/HallucinationGuard.h:13-31 | True exactly when the text is longer than 500 characters, has four equal words in a row, or an ordered pair of words at four adjacent positions |
| `HallucinationGuard.HallucinatedIff` | src/utils/HallucinationGuard.h:13-31 | Flagged exactly for more than 500 characters, four equal words in a row, or the same pair of neighbours at four increasing positions |
| `HallucinationGuard.SpaceIs` | src/utils/HallucinationGuard.h:16-21 | Words are separated by the six whitespace characters of the C locale |
| `HallucinationGuard.Repeats` | src/utils/HallucinationGuard.h:16-30 | The loop with its early exits decides the scan of all words |
| `HallucinationGuard.CountWord` | src/utils/HallucinationGuard.h:22-28 | One turn of the loop on the run counter and the pair counts |
| `HallucinationGuard.Extract` | src/utils/HallucinationGuard.h:21-21 | Stream extraction yields the next word and the rest, and fails exactly at the end |
| `HallucinationGuard.TokenIsOneWord` | src/utils/HallucinationGuard.h:16-21 | A text without whitespace is one word |
| `HallucinationGuard.WordsSplit` | src/utils/HallucinationGuard.h:16-21 | Any whitespace character separates the words before it from the words after it |
| `HallucinationGuard.WordsAreTokens` | src/utils/HallucinationGuard.h:21-21 | Extracted words are not empty and contain no whitespace |
| `HallucinationGuard.SentenceRoundTrip` | src/utils/HallucinationGuard.h:16-21 | Words joined by spaces are extracted again, so every list of words is reached |
| `HallucinationGuard.ScanIsExact` | src/utils/HallucinationGuard.h:19-30 | The one-pass scan with its counters finds something exactly when the words repeat as described |
| `HallucinationGuard.FoundStaysFound` | src/utils/HallucinationGuard.h:23-27 | Stopping at the first find gives the verdict on the whole text |
| `HallucinationGuard.LoopingGrows` | src/utils/HallucinationGuard.h:23-27 | Repetition in a prefix is repetition in the whole |
| `HallucinationGuard.PairKeyInjective` | src/utils/HallucinationGuard.h:27-27 | Different word pairs have different map keys |
| `HallucinationGuard.TalliedNext` | src/utils/HallucinationGuard.h:27-27 | The map counts the positions of every word pair exactly |
| `HallucinationGuard.VocabularyBound` | src/utils/HallucinationGuard.h:27-27 | Without a pair repeated four times, k distinct words make at most 3k^2+1 words |
| `HallucinationGuard.AcceptedTextIsShort` | src/utils/HallucinationGuard.h:13-31 | Every accepted text over k distinct words has at most 3k^2+1 words |
| `HallucinationGuard.BoundIsTight` | src/utils/HallucinationGuard.h:21-29 | A text of thirteen words over two of them is accepted, so the bound is attained |
| `RateWindow.RateIsEnforced` | src/server/StreamingSession.h:272-291 | In a run not closed, the bytes up to the last reset are at most 614400 a window and 204800 for every second since the session was built |
| `RateWindow.ClosedIffExcess` | src/server/StreamingSession.h:272-291 | A run is closed exactly when some window, from the frame after a reset to the first one three seconds later, carries more than 614400 bytes |
| `RateWindow.NextFrameRefusedIff` | src/server/StreamingSession.h:276-290 | An open window holds all bytes since it started; the next frame is refused exactly when it ends the window and the sum is over the limit, and the window is over the limit exactly when every frame that ends it is refused |
| `RateWindow.NoFalsePositive` | src/server/StreamingSession.h:272-291 | A sender within R*d+B in every interval, never silent for more than G, with R*(3+G)+B at most 614400, is never closed |
| `SessionRate.SessionRunsWindow` | src/server/StreamingSession.h:244-291 | A session runs that window over exactly its valid frames, and closes for its rate exactly when the window does |
| `SessionRate.SessionClosedIffExcess` | src/server/StreamingSession.h:272-291 | A whole session is closed for its rate exactly when some window of its valid frames carries too much |
| `SessionRate.SessionRateIsEnforced` | src/server/StreamingSession.h:272-291 | The byte bound for whole sessions |
| `SessionRate.PacedClientIsNeverClosed` | src/server/StreamingSession.h:272-291 | A client that keeps the pace is never closed for its rate, over runs of any length |
| `StreamingSession.StreamingSession.constructor` | src/server/StreamingSession.h:47-71 | The initial session state |
| `StreamingSession.StreamingSession.HandleConfig` | src/server/StreamingSession.h:305-378 | The whole handler: token missing or rejected, malformed language, model not loaded, no decoder state, or ready; with what becomes of the session, the token cache and the model cache in each case, the old engine surviving a failed configuration |
| `StreamingSession.StreamingSession.Authorize` | src/server/StreamingSession.h:308-326 | No check without authentication; otherwise the error code for a missing or a rejected token, and the token cache afterwards |
| `StreamingSession.RefusalIff` | src/server/StreamingSession.h:308-326 | A `config` message is refused exactly unless authentication is off, its token is the static one, or a fresh cache entry or else the API allows it; with one code for a missing token and one for a wrong one |
| `StreamingSession.ConsultedIs` | src/server/StreamingSession.h:317-324 | The token cache changes only when the API was asked, and only for that token |
| `StreamingSession.ConfiguresIff` | src/server/StreamingSession.h:305-378 | A message configures exactly when it is accepted, the model is there and a decoder state can be set up; one that is not accepted changes nothing and closes the connection |
| `StreamingSession.OnlyAcceptedTokensConfigure` | src/server/StreamingSession.h:305-378 | Over every run of messages and other events: until some message is accepted there is no engine, no reference and no text |
| `StreamingSession.StreamingSession.Configure` | src/server/StreamingSession.h:344-366 | The critical section: reference taken, then a new engine with transcripts and bookkeeping reset and the overflow flag kept, or an exception that leaves the old engine |
| `StreamingSession.StreamingSession.ProcessAudioChunk` | src/server/StreamingSession.h:188-198 | Feeding the engine, and a warning exactly when overflow begins |
| `StreamingSession.StreamingSession.HandleBinaryMessage` | src/server/StreamingSession.h:244-303 | All frame checks in order, the rate window, then the audio |
| `StreamingSession.StreamingSession.HandleEnd` | src/server/StreamingSession.h:380-399 | The forced decode and the raw fallback, or the exception that ends the loop |
| `StreamingSession.StreamingSession.SendFinal` | src/server/StreamingSession.h:401-407 | The final message is composed after the lock was dropped |
| `StreamingSession.StreamingSession.ReleaseTheModel` | src/server/StreamingSession.h:143-151 | Engine and reference are given up together, once |
| `StreamingSession.StreamingSession.ShouldInfer` | src/server/StreamingSession.h:489-509 | The guards of a flush cycle, with 64-bit size arithmetic, decide as the state machine does |
| `StreamingSession.StreamingSession.FlushCycle` | src/server/StreamingSession.h:482-552 | One flush cycle up to where it drops the lock |
| `StreamingSession.StreamingSession.Digest` | src/server/StreamingSession.h:512-552 | What a cycle does with a transcript: overflow flag, both transcripts, bookkeeping, message |
| `StreamingSession.StreamingSession.SendMerged` | src/server/StreamingSession.h:552-554 | The composed message is sent later, from outside the lock |
| `SessionEffects.ConfiguredEffect` | src/server/StreamingSession.h:344-366 | Success starts an epoch: fresh engine, empty transcripts; overflow flag, byte window and pending message stay |
| `SessionEffects.ConfigFailedEffect` | src/server/StreamingSession.h:308-377 | Failure is reported, keeps the old engine and texts, takes a reference only if a context was there, and closes only if refused |
| `SessionEffects.FrameEffect` | src/server/StreamingSession.h:244-291 | Which frames close the connection, get an error, or count; and the byte window after each |
| `SessionEffects.AudioEffect` | src/server/StreamingSession.h:188-198 | A frame that counts and passes reaches the engine; the warning comes exactly when overflow begins |
| `SessionEffects.LastAudioIs` | src/server/StreamingSession.h:192-192 | In every run the recorded time is that of the last frame handed to an engine or of the last configuration |
| `SessionEffects.EndEffect` | src/server/StreamingSession.h:380-399 | The final text is the filtered transcript followed by all that the forced decode heard, and the raw transcript only if both are empty |
| `SessionEffects.EndRefused` | src/server/StreamingSession.h:223-226 | Before configuration `end` is only answered with an error |
| `SessionEffects.InfersExactly` | src/server/StreamingSession.h:482-509 | A cycle decodes exactly with a slot, two seconds of audio and 4000 new samples, or 401 ms since the last audio with anything new, or a record ahead of the buffer |
| `SessionEffects.NoFlushEffect` | src/server/StreamingSession.h:482-510 | A cycle that does not decode changes nothing; a failing decoder ends the process |
| `SessionEffects.FlushEffect` | src/server/StreamingSession.h:510-538 | The raw transcript takes every committed text and the filtered one those not flagged; what is recorded as decoded, and when overflow ends |
| `SessionEffects.MessageEffect` | src/server/StreamingSession.h:519-551 | A message is composed exactly when committed or partial text came that is not flagged, and what it says |
| `SessionEffects.ReleaseEffect` | src/server/StreamingSession.h:143-151 | Giving up the model takes the engine along, once |
| `SessionEffects.ReceiverMoves` | src/server/StreamingSession.h:88-140 | Where the receiving thread goes with every message it sends or failure it meets |
| `SessionTranscript.TranscriptsAreCommits` | src/server/StreamingSession.h:380-555 | In every interleaving the raw transcript joins all commits of the epoch in order and the filtered one the unflagged ones, with the forced text and the fallback in their place |
| `SessionTranscript.CommittedTextStays` | src/server/StreamingSession.h:389-529 | Within an epoch both transcripts only grow at the end |
| `SessionTranscript.ComposedMessage` | src/server/StreamingSession.h:545-551 | A provisional message is the committed text, followed by nothing or by the partial text; what follows is never flagged, and a partial text that is not flagged is always included |
| `SessionTranscript.FinalExtendsPartials` | src/server/StreamingSession.h:401-555 | The committed part of every provisional message is a prefix of the final text of its epoch, whatever happens in between |
| `SessionTranscript.FinalTextEmptyIff` | src/server/StreamingSession.h:392-398 | The final text is empty exactly when every commit before the end and the forced one were empty and nothing was kept afterwards |
| `SessionAftermath.FinalTextMayChangeIff` | src/server/StreamingSession.h:399-407 | Between the forced decode and the final message some continuation changes the final text exactly when at least 160000 samples are there that the flush thread has not recorded as decoded |
| `SessionAftermath.EndSettlesIff` | src/server/StreamingSession.h:389-407 | The forced decode leaves such audio exactly when it was there before and no segment was found |
| `SessionAftermath.InfersIffUnread` | src/server/StreamingSession.h:489-509 | A flush cycle can ever decode a state's audio exactly when two seconds are there and their number differs from the recorded one |
| `SessionProtocol.MessagesAreOrdered` | src/server/StreamingSession.h:88-140 | In every interleaving only errors precede `ready`, there is at most one final message, and only provisional ones follow it |
| `SessionAftermath.PartialMayFollowIff` | src/server/StreamingSession.h:401-555 | With the socket open, a provisional message can still follow the final one exactly when one is composed already or the flush thread has audio left to decode |
| `SessionAftermath.OnlyThePendingPartial` | src/server/StreamingSession.h:389-555 | After a forced decode that found a segment at most one provisional message follows, the one already composed |
| `SessionOverflow.StepOverflow` | src/server/StreamingSession.h:188-206 | How one event can change flag, level and pending warning |
| `SessionOverflow.OneWarningPerEpisode` | src/server/StreamingSession.h:188-206 | Between two `buffer_full` warnings the buffer was below the high-water mark |
| `SessionOverflow.DropsAreAnnounced` | src/server/StreamingSession.h:188-206 | Every dropped chunk triggers a warning or follows one with the buffer saturated ever since |
| `SessionDrain.MayDrainIff` | src/server/StreamingSession.h:188-206 | Without a new configuration, an end or a release, a saturated buffer can drain exactly when the recorded size differs from its own |
| `SessionDrain.StuckForEver` | src/server/StreamingSession.h:497-500 | Otherwise it never changes again and every frame is dropped |
| `SessionDrain.OneChance` | src/server/StreamingSession.h:510-538 | A decode that leaves a saturated buffer saturated makes it stuck, exactly unless segments without text were committed up to a positive tick |
| `SessionOverflow.AlwaysCapped` | src/whisper/StreamingWhisperEngine.cpp:53-76 | In every run neither the buffer nor the bookkeeping exceeds 480000 |
| `SessionOverflow.AcceptedFrame` | src/server/StreamingSession.h:247-297 | An accepted frame never replaces the whole buffer and costs at most 102143 old samples, none up to 160001 |
| `SessionLedger.InferenceIsPaid` | src/server/StreamingSession.h:489-538 | Per epoch 4000 for each audio-triggered decode plus 1 for each silence-triggered one is at most the accepted samples plus 4000 for each textless erasing commit; without those the difference never wraps |
| `SessionLedger.BacklogNegativeIff` | src/server/StreamingSession.h:523-538 | After a decode the recorded size exceeds the buffer exactly when audio was erased without text, that is when the committed segments had no text and ended at a positive tick |
| `SessionLedger.SpuriousInference` | src/server/StreamingSession.h:497-500 | Then the next cycle decodes again without new audio |
| `SessionWitnesses.SpuriousInferenceIsReachable` | src/server/StreamingSession.h:497-538 | A concrete run reaches that state |
| `SessionWitnesses.StalePartialAfterFinal` | src/server/StreamingSession.h:545-555 | A concrete run in which a provisional message arrives after the final one |
| `SessionWitnesses.FinalTextChangesInReach` | src/server/StreamingSession.h:389-407 | A concrete run in which a flush cycle changes the final text after the forced decode |
| `SessionWitnesses.TextIsCommittedTwice` | src/whisper/StreamingWhisperEngine.cpp:166-204 | A concrete run in which the same audio is committed twice and its text stands twice in the transcript |
| `SessionWitnesses.BurstIsTaken` | src/server/StreamingSession.h:272-291 | A concrete session takes a megabyte at once, and is closed for four bytes three seconds later |
| `SessionWitnesses.StuckIsReachable` | src/server/StreamingSession.h:497-538 | A concrete run ends in a session that is configured, open and drops every frame for good |
| `SessionAudio.SessionDrivesEngine` | src/server/StreamingSession.h:188-555 | In every session run the engine is where its own operations lead: the accepted stream is what was removed followed by the buffer |
| `ModelCache.ModelCache.constructor` | src/whisper/ModelCache.h:187-192 | The cache starts empty |
| `ModelCache.ModelCache.AcquireContext` | src/whisper/ModelCache.h:50-85 | Acquire: reuse, replace another path, or load; a failed load throws with nothing loaded |
| `ModelCache.ModelCache.ReleaseContext` | src/whisper/ModelCache.h:93-108 | Release: immediate, deferred or no unload, by the TTL |
| `ModelCache.ModelCache.TimerExpires` | src/whisper/ModelCache.h:176-184 | The body of a timer thread after its sleep |
| `ModelCache.ModelCache.UnloadLocked` | src/whisper/ModelCache.h:155-163 | Unloading clears context, path and count |
| `ModelCache.AcquireEffect` | src/whisper/ModelCache.h:50-85 | Sharing a loaded model of the same path, else loading afresh with one reference, else nothing loaded; a pending unload is cancelled |
| `ModelCache.ReleaseEffect` | src/whisper/ModelCache.h:93-108 | Only the last reference matters, and the TTL decides between unloading at once, one timer, and nothing |
| `ModelCache.FireEffect` | src/whisper/ModelCache.h:176-184 | A timer unloads exactly when an unload is pending and nobody holds the model |
| `ModelSharing.NoUseAfterFree` | src/whisper/ModelCache.h:50-185 | In every interleaving the count is the number of acquires not released, and every context in a hand or an engine is the loaded one |
| `ModelSharing.CountIsHoldersIff` | src/server/StreamingSession.h:341-366 | The count is the number of contexts held exactly when no session was configured twice |
| `ModelSharing.ReconfigPinsModel` | src/server/StreamingSession.h:143-151 | After one second configuration the same model stays loaded for ever |
| `ModelSharing.ReconfigIsReachable` | src/server/StreamingSession.h:341-345 | A concrete run leaves one reference and no holder |
| `ModelSharing.IdleModelHasDeadline` | src/whisper/ModelCache.h:93-185 | With prompt timers an idle model has a live timer due a TTL after the last release, and is never idle past it |
| `ModelSharing.IdleUntilATimer` | src/whisper/ModelCache.h:176-184 | Without new acquires an idle model stays until a timer live at the start is due |
| `ModelSharing.KeptForTtlIffNoStaleTimer` | src/whisper/ModelCache.h:29-33 | An idle model can be unloaded before the full TTL exactly when an older timer is due sooner |
| `ModelSharing.StaleTimerIsReachable` | src/whisper/ModelCache.h:171-185 | A concrete run leaves such a timer |
| `ModelSharing.TtlMeaning` | src/whisper/ModelCache.h:93-108 | In every run: with TTL zero the model is loaded exactly while referenced, with a positive one an unload is pending exactly while it is idle |
| `ModelSharing.NegativeTtlKeeps` | src/whisper/ModelCache.h:106-107 | With a negative TTL a loaded model stays the same for ever |
| `Server.DecodersUseLoadedModel` | src/server/StreamingSession.h:143-509 | In every interleaving of any number of complete sessions, from the begin to the end of every decode its context is the loaded one and referenced |
| `Server.DecodesCanEnd` | src/server/StreamingSession.h:482-510 | What other threads do during a decode neither blocks its end nor touches its audio: the engine afterwards is what the answer makes of the engine of the begin |
| `Server.DecodingLasts` | src/server/StreamingSession.h:482-510 | What a decode began on is remembered until it ends |
| `Server.DecodesAreLimited` | src/whisper/InferenceLimiter.h:44-62 | Decodes of flush threads never exceed the configured maximum; those inside `handleEnd` come on top |
| `ServerCapacity.MaximumKeptIff` | src/server/StreamingSession.h:383-390 | The maximum holds for all decodes in all runs with at most c clients at a time exactly when c is at most the maximum |
| `ServerCapacity.DefaultsExceedMaximum` | src/server.cpp:392-408 | With eight connections and a maximum of four some run has eight decodes at once |
| `ServerCapacity.DecodesExceedMaximum` | src/server/StreamingSession.h:383-390 | From every state any number of further decodes inside `handleEnd` can be under way at once, one for every further client |
| `ServerCapacity.DecodersAreLive` | src/server/StreamingSession.h:143-151 | Every decode belongs to a session that has not given up the model |
| `ServerModel.ModelRunsOnItsOwn` | src/server.cpp:339-361 | The shared model of a server run is by itself a run of the sharing machine |
| `ServerModel.ServerIdleDeadline` | src/whisper/ModelCache.h:93-185 | In the whole server, with prompt timers, an idle model is gone a TTL after the last release, and sooner exactly when an older timer is due sooner |
| `ServerModel.ServerPinsModel` | src/server/StreamingSession.h:143-151 | One session configured twice keeps the model loaded whatever all others do |
| `Server.SessionsRunOnTheirOwn` | src/server.cpp:339-361 | Every session of a server run is by itself a run of the session machine |
| `InferenceLimiter.InferenceLimiter.constructor` | src/whisper/InferenceLimiter.h:101-102 | No slot taken, limit four |
| `InferenceLimiter.InferenceLimiter.SetMaxConcurrency` | src/whisper/InferenceLimiter.h:22-29 | A positive limit is stored and everybody asleep is woken |
| `InferenceLimiter.InferenceLimiter.AcquireOrSleep` | src/whisper/InferenceLimiter.h:34-38 | First look at the counter: take a slot or go to sleep |
| `InferenceLimiter.InferenceLimiter.AcquireAfterWake` | src/whisper/InferenceLimiter.h:36-37 | Look again after any wake-up |
| `InferenceLimiter.InferenceLimiter.TryToAcquire` | src/whisper/InferenceLimiter.h:44-51 | Take a slot or leave, never sleep |
| `InferenceLimiter.InferenceLimiter.GiveBack` | src/whisper/InferenceLimiter.h:56-62 | Free a slot and wake one sleeper |
| `InferenceLimiter.InferenceLimiter.HasCapacity` | src/whisper/InferenceLimiter.h:76-79 | Whether a slot is free |
| `InferenceLimiter.RequestEffect` | src/whisper/InferenceLimiter.h:34-51 | With a free slot both requests take it; without one the blocking request sleeps and the other leaves no trace |
| `InferenceLimiter.ResumeEffect` | src/whisper/InferenceLimiter.h:36-37 | A woken thread takes a slot or goes back to sleep |
| `InferenceLimiter.WakeEffect` | src/whisper/InferenceLimiter.h:22-62 | A release frees one slot and wakes one sleeper; a positive limit is stored and wakes all |
| `InferenceLimiter.StrayEffect` | src/whisper/InferenceLimiter.h:56-62 | With no slot taken a release frees and wakes nothing |
| `InferenceLimiter.NeverLosesWakeUp` | src/whisper/InferenceLimiter.h:22-62 | In every reachable state, if a thread sleeps then at least as many threads are woken and on their way as slots are free |
| `InferenceLimiter.CounterIsHolders` | src/whisper/InferenceLimiter.h:34-62 | With paired releases the counter is the number of holders and never exceeds the highest limit set |
| `InferenceLimiter.DrainIsBounded` | src/whisper/InferenceLimiter.h:34-62 | Every schedule of threads already inside strictly uses up a measure |
| `InferenceLimiter.EverybodyIsServed` | src/whisper/InferenceLimiter.h:34-62 | Once nobody new arrives, every schedule ends within three steps a thread and only with nobody asleep |
| `ConnectionLimiter.ConnectionLimiter.constructor` | src/server/ConnectionLimiter.cpp:3-4 | All counters zero |
| `ConnectionLimiter.ConnectionLimiter.TryToAcquire` | src/server/ConnectionLimiter.cpp:6-20 | The counters after a granted or refused request, the empty entry of a refused one included |
| `ConnectionLimiter.ConnectionLimiter.GiveBack` | src/server/ConnectionLimiter.cpp:22-34 | The counters after a release, also of an unknown address |
| `ConnectionLimiter.TryAcquireRefines` | src/server/ConnectionLimiter.cpp:6-20 | Seen as a bounded multiset: granted exactly while both bounds leave room, then one element more |
| `ConnectionLimiter.TryAcquireEntry` | src/server/ConnectionLimiter.cpp:6-20 | A request refused for the total leaves no trace, any other an entry for its address, and no other address is touched |
| `ConnectionLimiter.ReleaseRefines` | src/server/ConnectionLimiter.cpp:22-34 | A release removes one element; the counters stay consistent exactly when the address had a slot or none was taken at all |
| `ConnectionLimiter.CountersAreExact` | src/server.cpp:474-503 | For every run of accepts, failed spawns and guard destructions: total, sum of counts and live slots agree, both limits hold, and the keys are the addresses with live slots |
| `AuthManager.AuthManager.constructor` | src/server/AuthManager.cpp:4-17 | The configuration is kept and the cache starts empty |
| `AuthManager.AuthManager.ConstantTimeEqual` | src/server/AuthManager.cpp:20-27 | The XOR/OR accumulator is zero exactly for equal tokens |
| `AuthManager.AuthManager.Validate` | src/server/AuthManager.cpp:33-68 | Disabled, static, cached and queried mode with the resulting cache; an unavailable API is denied and not cached |
| `AuthManager.AuthCache.Get` | src/auth/AuthCache.cpp:3-14 | A fresh entry is returned, an expired one is removed |
| `AuthManager.AuthCache.Put` | src/auth/AuthCache.cpp:16-22 | The entry expires a TTL from now |
| `AuthManager.ValidatedIff` | src/server/AuthManager.cpp:33-68 | A call admits exactly everybody without authentication, the static token, or whom a fresh entry or else the API allows; and exactly what it leaves in the cache |
| `AuthManager.ValidateIsARun` | src/server/AuthManager.cpp:33-68 | A call of `Validate` is the run of its cache accesses with nothing in between: same verdict, same cache |
| `AuthManager.VerdictsAreJustified` | src/server/AuthManager.cpp:33-68 | In every interleaving of validations every verdict, admitted or refused, is the right one: auth disabled, static equality, what the cache should remember, this call's own API answer, refusal when the API is unavailable; and the cache answers exactly what was kept last while fresh |
| `AuthManager.AdmissionIsTraced` | src/server/AuthManager.cpp:54-67 | Behind every API admission stands an Allowed answer for that token, kept at the verdict or less than a TTL before |
| `AuthManager.StaticTokenWins` | src/server/AuthManager.cpp:33-52 | With both configured, a token the API denies is admitted and one it allows is refused |
| `AuthManager.ApiDecidesIff` | src/server/AuthManager.cpp:33-68 | With an API configured, the static token makes no difference to any call exactly when it is not set |
| `AuthManager.ApiBacksVerdictsIff` | src/server/AuthManager.cpp:33-68 | In all interleavings an agreeing answer of the API precedes every verdict, exactly when no static token is set |

## Left out

- whisper.cpp itself: decoding is an oracle, nothing is said about the quality of texts or the decoder parameters passed to it.
- Sockets, TLS, HTTP endpoints, the WebSocket handshake and JSON parsing: replaced by client events and the list of messages sent.
- Bit-exact floating point: samples are real numbers, so rounding, NaN and infinity are not modelled.
- WhisperEngine.StreamingWhisperEngine.TranscribeSlidingWindow: timestamps are unbounded integers, so an overflow of the 64-bit product of a timestamp and 160 is not modelled.
- ModelSharing.IdleModelHasDeadline: assumes that a timer thread runs as soon as it is due; a late thread makes the deadline later by as much.
- AuthManager.AuthManager.ConstantTimeEqual: functional equality only, not the time it takes.
- Error replies are appended in the step that decides them; their order relative to a provisional message sent at the same moment is not modelled.
- StreamingSession.StreamingSession.HandleBinaryMessage: the `AUDIO_ERROR` reply, which only an exception such as exhausted memory can cause.
- StreamingSession.StreamingSession.SendFinal: on an open socket every message is delivered; in the code a text that is not valid UTF-8 makes the serialisation fail, and the message, even the final one, is dropped with a log line.
- StreamingSession.StreamingSession.SendMerged: the same, for provisional messages.
- The connection limiter is not part of `Server`: a bound on the clients let in at a time is a premise there.
- A failed decode in the flush thread ends the process; what other sessions lose by that is not modelled.
- `forceUnload`, changing the TTL after the start and a second model path in one server: the cache functions handle paths, the sharing theorems are for one path.
- The mutex inside the engine: every session accesses its engine under its own lock.
- `SessionTracker`, the shutdown watchdog, metrics, logging, command line and environment parsing, session ids, sample format conversion, `transcribe` and the other setters: they would only add easy members.
