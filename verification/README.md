# Verified model of the Athena voice assistant

This project models the parts of the Athena voice assistant that carry state or exact
arithmetic, and proves what they promise: the answer pipeline (router, LLM, synthesis and
sink actors), the assist bridge with one actor per device, the intent matcher, the satellite
firmware's signal arithmetic and session machine, and the provider side (circuit breaker with
retry, stream decoders, socket frames, command pairing).

Code that changes state step by step is a class or a method with loops, proved against a
specification function; the laws are then lemmas about that function over every run. The two
parts whose promise is about interleavings (router, dispatches and LLM in `Turns`; routing
calls and actor exits in `Bridge`) are labelled step machines: every sequence of enabled
labels is a run, and the theorems hold for every run. `Assist` ties the code of `route` and of
an actor's exit path to the steps of `Bridge`: each statement that touches shared state is one
step.

Check it with `dafny verify dfyconfig.toml`.

| file | models |
|---|---|
| `Loudness`, `DcBlocking`, `Silence` | `satellite-esp32/src/mic.rs`: square root and level, DC filter, end-of-utterance detection |
| `SatelliteSession`, `SessionRuns` | `satellite-esp32/src/session.rs`: the session, and what it does and when over whole runs |
| `Breaker` | the circuit breaker and the retrying synthesiser of the providers crate |
| `Lines`, `Bodies`, `Socket` | the NDJSON and server-sent-event decoders and what they yield, the audio socket's frames |
| `Pairing`, `PairingLaws`, `PairingOrder` | discovery of shutters and on/off devices among equipment commands, what it guarantees, and which commands it takes |
| `Sentences`, `Tts`, `Speech`, `Sink`, `LlmActor`, `Routing`, `Turns`, `Wording` | the answer pipeline, actor by actor and composed; what is spoken (`Speech`) and what the router says (`Wording`) |
| `Topics`, `Loader`, `Deadlines`, `Bridge`, `Contention`, `Assist` | the assist bridge: topics, the loader protocol of one actor and its timers, the map of actors, when a device has two, the code on the map |
| `Similarity`, `Literals`, `Templates`, `Slots`, `SlotKinds`, `Ranking`, `Matcher`, `Ambiguity` | the intent matcher |
| `Text`, `Tokens`, `Chunks`, `Ints`, `Options`, `Arithmetic` | shared vocabulary |

What the proofs showed about the code:

- A failure threshold of 0 behaves like 1 (`Breaker.Trip`); the closed form of the load bound uses that value.
- With `silence_ms` = 0 a loud frame still does not end the utterance: the promise asks for a quiet newest frame.
- A socket frame survives its encoding if and only if its payload has at most 65535 bytes; longer payloads get a truncated length (`Socket.FrameRoundTripIff`).
- An empty microphone frame in a streaming session is published as a second end marker, so the language of a session holds if and only if streamed frames are non-empty (`SatelliteSession.LanguageIffFramesHaveSound`).
- Epochs saturate at 2^64 - 1: in every run with n final transcripts no epoch is forwarded twice if and only if n is at most 2^64 - 1 (`Turns.ForwardedOnceIffUnsaturated`).
- Two live actors for one device are possible (`Contention.TwoLiveActors`), although the comment at `bridge.rs` lines 141-145 speaks of avoiding them: an exiting actor routes a leftover again while the next question for the device arrives. The condition is exact: a run in which no two routing calls of one device are past their lookup at once never has two (`Contention.OneActorWhenSerial`), and wherever two are, the run can go on to two live actors (`Contention.TwoActorsWhenContended`). A lock per device around `route` meets it. Questions are conserved either way.
- `route` removes a closed channel's entry unconditionally (`bridge.rs` line 155). After a panic the same overlap can remove the entry of a live successor (`Contention.LiveEntryLost`). The condition is exact: a run that never passes a state in which one call is about to remove a closed entry while another builds its replacement removes only panicked actors' entries (`Contention.RemoveIsSafeWhenGuarded`), and from every such state the run can go on to the loss (`Contention.RemoveLosesLive`). The same holds for losing an entry to another call's insert, for calls that have still to touch the map at all (`Contention.EntryGoesOneWayWhenUnthreatened`, `Contention.EntryTakenWhenThreatened`).
- Callers of the circuit breaker read the clock before they take its lock. If readings take effect out of order, a stale failure can let the next probe through early (`Breaker.StaleFailureShortensTheGap`); `Breaker.ProbesAreSpacedIff` says exactly when.
- Different discovered devices never share a command id, whatever the list; with repeated ids one device can pair an id with itself (`PairingLaws.RepeatedIdPairsWithItself`), and a pool of commands rules that out exactly if it holds no two commands of one id that belong together (`PairingLaws.OwnIdsDistinctIff`).
- Without a panic the `Closed` branch of `route` is never taken (`Bridge.EntriesAreOpen`): an actor removes its entry before it closes its channel.
- The tag in `answer_deadline` always equals the current epoch, so the comparison that is meant to filter stale text never fails; what keeps old text out is that a question clears the buffer and drains the token channel (`Loader.NewestQuestionOnly`).
- The near-tie rule of `find_match` is not transitive, and the order of the rules decides. For an utterance of 21 to 39 equal letters, a rule whose phrase is letter for letter the utterance loses in one order to a phrase it beats by more than the band, and wins in another (`Ambiguity.ExactPhraseLoses`). For one of 81 to 119 characters, a phrase of one word wins in one order although a phrase of three words ties with it (`Ambiguity.SpecificPhraseLoses`). No candidate is ever better than the winner, in any order, exactly if being better is transitive among the candidates (`Ranking.UnsurpassedIff`); the loss of confidence alone stays within the band, in any order, exactly if ties along increasing specificity are closed (`Ranking.NeverBeatenIff`); in general the winner is at most one band below the maximum and one more for each tie replacement (`Ranking.WinnerNearMaximum`).
- The comment at `engine.rs` lines 201-202 says a template's confidence is scaled by how much of the input was consumed; the code takes the plain similarity of the filled phrase and the input, and so does the model.

Assumptions, all visible in the contracts: lower-casing maps one character to one character
and keeps its class (`Text.Unicode.Lawful`), because the matcher indexes the original string with
offsets from the lower-cased one; confidences are real numbers; a cancelled dispatch may still
resolve to anything; the clock of one call never runs backwards; laws that count messages are
about open channels.

## Model

| member | source | states |
|---|---|---|
| Loudness.Isqrt | satellite-esp32/src/mic.rs:142-153 | for every u64 the result is the floor of the square root; the loop ends and no intermediate value leaves u64 |
| Loudness.NewtonStep | satellite-esp32/src/mic.rs:148-151 | one iteration keeps the guess above the root, never overflows, and stopping means the guess is the root |
| Loudness.FloorSqrtUnique | satellite-esp32/src/mic.rs:141-153 | the defining inequality has one solution, so the loop and the reference definition agree |
| Loudness.Rms | satellite-esp32/src/mic.rs:127-139 | the level is the floor root of the mean square, at most 32768, with the accumulator inside u64 |
| Loudness.LevelBound | satellite-esp32/src/mic.rs:127-139 | no i16 frame is louder than 32768 |
| Loudness.ConstantMagnitudeLevel | satellite-esp32/src/mic.rs:127-153 | a frame of constant magnitude c, whatever its signs, has level exactly c |
| DcBlocking.DcBlocker.Process | satellite-esp32/src/mic.rs:171-178 | samples are rewritten in place to the outputs of the filter; every i32 intermediate fits |
| DcBlocking.DcBlocker.Sample | satellite-esp32/src/mic.rs:173-176 | one sample: new memory and clamped output, kept inside the band |
| DcBlocking.FrameIsFiltered | satellite-esp32/src/mic.rs:171-178 | from every memory: sample by sample the memory moves by 256 times the difference of neighbours and leaks a 256th, rounded down, and each output is the memory's 256th, rounded down, or the nearer bound of i16 |
| DcBlocking.SettledSamplePasses | satellite-esp32/src/mic.rs:173-177 | from a settled memory a sample comes out as its difference to the one before, clamped to i16 |
| DcBlocking.FeedStaysInBand | satellite-esp32/src/mic.rs:174 | 256 times the previous sample less y is a leaky average of the input and cannot leave the input's range |
| DcBlocking.NeverOverflows | satellite-esp32/src/mic.rs:166-179 | for every sample sequence y stays within 256 * 65535 of zero |
| DcBlocking.HeldInputDecays | satellite-esp32/src/mic.rs:174 | under constant input the residue strictly decreases until the output is 0, and stays there |
| DcBlocking.HeldInputIsSilenced | satellite-esp32/src/mic.rs:171-178 | from any reachable memory a held input is silenced after finitely many samples |
| DcBlocking.ConstantInputIsSilenced | satellite-esp32/src/mic.rs:155-178 | whatever was recorded before, a constant input ends in output exactly 0, for good |
| Silence.SilenceTracker.Push | satellite-esp32/src/mic.rs:84-101 | true exactly when speech was heard since the reset and the quiet run reached silence_ms; the bar is taken before the frame moves the floor; run_ms must have room only where it grows |
| Silence.SilenceTracker.Count | satellite-esp32/src/mic.rs:90-100 | the two counters after one frame, and the decision they make |
| Silence.SilenceTracker.Observe | satellite-esp32/src/mic.rs:80-82 | an idle frame moves the floor and leaves the utterance alone |
| Silence.SilenceTracker.Reset | satellite-esp32/src/mic.rs:68-71 | a new utterance: counters cleared, learned floor kept |
| Silence.SilenceTracker.UpdateFloor | satellite-esp32/src/mic.rs:109-124 | the floor follows the history of levels; warm-up counted with a saturating counter |
| Silence.SilenceTracker.NextFloor | satellite-esp32/src/mic.rs:114-123 | the u32 computation equals the floor rule on naturals, without underflow or overflow |
| Silence.SilenceTracker.Threshold | satellite-esp32/src/mic.rs:103-107 | three times the floor, at least the minimum; the saturation of the product is never reached |
| Silence.FloorBounded | satellite-esp32/src/mic.rs:109-124 | for every history the learned floor stays in [0, 32776] |
| Silence.FloorMoves | satellite-esp32/src/mic.rs:115-122 | a quieter frame moves the floor strictly down but not below that frame; any other pushes it up by at most 1 + floor/4096 |
| Silence.FirstFloor | satellite-esp32/src/mic.rs:109-114 | ten frames teach nothing; the eleventh is the first floor, at least 1 |
| Silence.FloorRates | satellite-esp32/src/mic.rs:115-122 | a quieter frame leaves seven eighths of the gap, any other raises the floor by its 4096th, 1 at least |
| Silence.SteadyRoom | satellite-esp32/src/mic.rs:103-124 | in a steady room the floor settles at the room's level, alternating with one above, and the bar at three times that |
| Silence.EndMeansQuietAfterSpeech | satellite-esp32/src/mic.rs:84-101 | the promise in levels: a frame reached its bar, all after it stayed below theirs, long enough |
| Silence.LastLoudUnique | satellite-esp32/src/mic.rs:90-100 | the last loud frame of an utterance is well defined |
| Silence.CountersDecide | satellite-esp32/src/mic.rs:84-101 | run_ms and speech_started decide exactly the promise stated over the whole utterance |
| SatelliteSession.Session.Handle | satellite-esp32/src/session.rs:107-115 | the object does what the transition function says and stays consistent |
| SatelliteSession.Session.HandleTrigger | satellite-esp32/src/session.rs:122-133 | a trigger opens a session only when idle |
| SatelliteSession.Session.HandleMicFrame | satellite-esp32/src/session.rs:135-143 | frames are published only while streaming |
| SatelliteSession.Session.CloseUtterance | satellite-esp32/src/session.rs:146-156 | the empty end marker and the reply deadline |
| SatelliteSession.Session.HandleInbound | satellite-esp32/src/session.rs:158-212 | replies are taken only for the open session and while one is awaited or played |
| SatelliteSession.Session.HandleTick | satellite-esp32/src/session.rs:214-224 | an expired deadline ends the utterance, or the session |
| SatelliteSession.Session.Close | satellite-esp32/src/session.rs:226-231 | back to idle, without id and deadline |
| SatelliteSession.PrefixIdentifiesSession | satellite-esp32/src/session.rs:165-168 | a topic that passes the prefix test belongs to this session, ids having no slash |
| SatelliteSession.AlwaysConsistent | satellite-esp32/src/session.rs:107-232 | in every run: idle, without id and without deadline are the same |
| SatelliteSession.SessionLanguage | satellite-esp32/src/session.rs:107-232 | each session publishes start, frames, exactly one end marker, then only shown replies before its single end |
| SatelliteSession.LanguageIffFramesHaveSound | satellite-esp32/src/session.rs:135-156 | the session language holds if and only if no empty frame reaches a streaming session |
| SatelliteSession.EmptyFrameBreaks | satellite-esp32/src/session.rs:135-143 | an empty streamed frame is one end marker too many |
| SatelliteSession.BudgetHolds | satellite-esp32/src/session.rs:122-156 | between paced ticks the deadline never exceeds the trigger time plus the budget |
| SatelliteSession.SessionEndsInTime | satellite-esp32/src/session.rs:122-232 | with ticks at most d apart a session triggered at t is never open later than t + 40000 + 2d |
| SessionRuns.SessionMovesOnExactly | satellite-esp32/src/session.rs:107-232 | after every run, what the next event does to the session: a trigger opens it, silence or a tick more than 10 s after the trigger ends the utterance, its own done message or a tick more than 30 s after that closes it, its audio messages start playing, and nothing else moves it |
| SessionRuns.LogTellsTheEvents | satellite-esp32/src/session.rs:107-232 | everything published, played and shown in any run, in order, is: the start payload, each frame heard while streaming, the empty marker, what the session's own replies ask for, and the end |
| Breaker.CircuitBreaker.MayCall | crates/athena-voice-providers/src/circuit.rs:39-65 | verdict and new state at a reading of the clock, probe rationing included |
| Breaker.CircuitBreaker.Succeeded | crates/athena-voice-providers/src/circuit.rs:68-71 | a success closes and clears |
| Breaker.CircuitBreaker.Failed | crates/athena-voice-providers/src/circuit.rs:75-98 | a failure counts, opens at the threshold, reopens a half-open circuit |
| Breaker.ClosedIffFewFailures | crates/athena-voice-providers/src/circuit.rs:39-98 | in every history the circuit is closed exactly while the failures since the last success are below the trip count, and its counter is that number |
| Breaker.ProbesAreSpaced | crates/athena-voice-providers/src/circuit.rs:44-62 | for any callers whose clock readings take effect in order: two probes with no success between them are at least the probe gap or a whole open period apart |
| Breaker.ProbesAreSpacedIff | crates/athena-voice-providers/src/circuit.rs:39-98 | for readings in any order: the next probe keeps that distance if and only if the circuit is half open, no distance is configured, or the failure that reopened it was not read too long before the probe |
| Breaker.StaleFailureShortensTheGap | crates/athena-voice-providers/src/circuit.rs:75-98 | a failure read before the probe and recorded after it lets the next probe through after 2 instead of 5 |
| Breaker.PermittedExactly | crates/athena-voice-providers/src/circuit.rs:39-65 | in every history: a closed circuit permits, an open one exactly from an open period after the failure that opened it, a half-open one exactly from a probe gap after the last probe |
| Breaker.HalfOpenIffProbing | crates/athena-voice-providers/src/circuit.rs:39-98 | half open exactly while nothing has been recorded since a probe |
| Breaker.RetryAfterIsExact | crates/athena-voice-providers/src/circuit.rs:44-62 | a caller that waits as long as a refusal says is let through, and one that waits less is refused |
| Breaker.Synthesize | crates/athena-voice-providers/src/retry.rs:164-196 | one call: refused at once, or attempts up to the first success, each recorded |
| Breaker.StopsAtSuccess | crates/athena-voice-providers/src/retry.rs:170-195 | attempts are made up to the first success; only that makes the call a success and closes the circuit |
| Breaker.FailureRun | crates/athena-voice-providers/src/retry.rs:174-194 | a run of failures moves the circuit along: counted, opened at the first one over the threshold, then still |
| Breaker.LoadWhileDown | crates/athena-voice-providers/src/retry.rs:170-195 | while every inner call fails, at most threshold + (attempts - 1) + attempts * floor(t / open duration) inner calls start up to t after the trip |
| Breaker.UntrippedMakesEveryAttempt | crates/athena-voice-providers/src/retry.rs:170-195 | before the trip nothing is refused and fewer than the trip count have been made |
| Lines.DecodeChunks | crates/athena-voice-providers/src/remote/openai.rs:143-164 | whatever the chunking, the buffer loop yields the tokens of one pass over the joined body, a broken transport included |
| Lines.DecodeSseTokens | crates/athena-voice-providers/src/remote/openai.rs:138-165 | the server-sent-event decoder does not depend on chunking |
| Lines.DecodeNdjsonTokens | crates/athena-voice-providers/src/remote/ollama.rs:108-136 | the NDJSON decoder does not depend on chunking |
| Lines.FirstLineOf | crates/athena-voice-providers/src/remote/openai.rs:148-149 | a complete line at the head of the buffer is the first line of everything that may follow |
| Lines.LinesRoundTrip | crates/athena-voice-providers/src/remote/ollama.rs:119-121 | lines written with line feeds are exactly the lines cut out again; an unterminated tail is not a line |
| Bodies.DataLineReads | crates/athena-voice-providers/src/remote/openai.rs:150-161 | a data field with whatever white space yields its payload's content; [DONE] stops the stream |
| Bodies.OtherLineSkipped | crates/athena-voice-providers/src/remote/openai.rs:152-154 | any line that is no data field is passed over |
| Bodies.SseBodyYields | crates/athena-voice-providers/src/remote/openai.rs:143-164 | a body of data fields among other lines yields their contents, in order |
| Bodies.SseDoneEnds | crates/athena-voice-providers/src/remote/openai.rs:156-158 | a data field of [DONE] ends it, whatever follows |
| Bodies.NdjsonBodyYields | crates/athena-voice-providers/src/remote/ollama.rs:119-134 | a body of JSON lines yields their non-empty contents, in order; empty and rejected lines are passed over |
| Bodies.NdjsonDoneEnds | crates/athena-voice-providers/src/remote/ollama.rs:125-132 | the line marked done ends it after its own content, whatever follows |
| Socket.Decode | crates/athena-voice-server/src/socket.rs:52-72 | one frame taken from the buffer in place; an incomplete or invalid one leaves it untouched |
| Socket.Encode | crates/athena-voice-server/src/socket.rs:78-85 | the frame appended to what the buffer held |
| Socket.FrameRoundTripIff | crates/athena-voice-server/src/socket.rs:196-204 | a frame decodes back to itself if and only if its payload fits 16 bits |
| Socket.DecodesExactly | crates/athena-voice-server/src/socket.rs:52-72 | a frame is decoded exactly if the bytes begin with its layout: 0xAE, 1 or 2, the length in two bytes, the high one first, the payload; invalid exactly on another header or operation |
| Socket.EncodesTheWire | crates/athena-voice-server/src/socket.rs:78-85 | a frame is encoded to that layout if and only if its payload fits 16 bits |
| Socket.DecisionStands | crates/athena-voice-server/src/socket.rs:52-72 | bytes that arrive later never change a decision already made |
| Socket.ParseResumes | crates/athena-voice-server/src/socket.rs:52-72 | parsing a concatenation is parsing the first part and going on from its tail |
| Socket.ReadFrames | crates/athena-voice-server/src/socket.rs:52-72 | any chunking gives the frames of the joined stream and leaves its incomplete tail |
| Socket.FramesRoundTrip | crates/athena-voice-server/src/socket.rs:48-86 | encoding any list of fitting frames and parsing it back returns the list and the tail |
| Pairing.FindUnused | crates/athena-voice-admin/src/jeedom.rs:142-145 | the first matching command not consumed yet; none only if all matching ones are consumed |
| Pairing.PushShutter | crates/athena-voice-admin/src/jeedom.rs:194-234 | the couple is consumed, then the first unused stop and the first unused slider |
| Pairing.PairShutters | crates/athena-voice-admin/src/jeedom.rs:240-271 | both loops over a set and a list in place compute the two passes |
| Pairing.PairPrefix | crates/athena-voice-admin/src/jeedom.rs:136-155 | one turn of the generic loop, which may consume its first id without finding a device |
| Pairing.PairActions | crates/athena-voice-admin/src/jeedom.rs:132-174 | both loops compute the two passes |
| Pairing.Discover | crates/athena-voice-admin/src/jeedom.rs:369-375 | shutters first, then on/off devices among what they leave |
| PairingLaws.ShuttersKept | crates/athena-voice-admin/src/jeedom.rs:240-271 | whatever was used before: shutters share no id, consist of matching commands, and nothing pairable or attachable is left |
| PairingLaws.ActionsKept | crates/athena-voice-admin/src/jeedom.rs:132-174 | the same for on/off devices, and an id consumed without a device is shared by a P_ON and a P_OFF command |
| PairingLaws.DevicesShareNoId | crates/athena-voice-admin/src/jeedom.rs:369-375 | for every list, repeated ids or not, different devices share no id and are made of matching commands |
| PairingLaws.NothingPairableIsLeft | crates/athena-voice-admin/src/jeedom.rs:369-375 | no unused couple of either pass remains, and a stop or slider is missing only if all are consumed |
| PairingLaws.OwnIdsDistinctIff | crates/athena-voice-admin/src/jeedom.rs:194-234 | every device of every list drawn from a pool has distinct ids of its own if and only if the pool holds no two commands of one id that belong together |
| PairingLaws.RepeatedIdPairsWithItself | crates/athena-voice-admin/src/jeedom.rs:245-257 | a raise and a lower command with id 1 make the shutter (1, 1) |
| PairingLaws.UniqueIdsGiveDistinctDevices | crates/athena-voice-admin/src/jeedom.rs:369-375 | with unique ids all ids of all devices are pairwise distinct, and no id is consumed without a device |
| PairingOrder.FindsTheFirst | crates/athena-voice-admin/src/jeedom.rs:142-145 | the command found is the first of its kind that is not consumed |
| PairingOrder.ShuttersTakeTheFirst | crates/athena-voice-admin/src/jeedom.rs:194-271 | every shutter is made of the first unused commands of its kind, stop and slider included; generic types before names, names in the order of the vocabulary |
| PairingOrder.ActionsTakeTheFirst | crates/athena-voice-admin/src/jeedom.rs:132-174 | the same for on/off devices among what the shutters leave |
| PairingOrder.Vocabulary | crates/athena-voice-admin/src/jeedom.rs:186-221 | which commands attach as stop and slider, and which names pair up |
| Sentences.SentenceBuffer.PushToken | crates/athena-voice-runtime/src/pipeline/sentence.rs:28-42 | the buffer after a token and the trimmed text it releases |
| Sentences.SentenceBuffer.TakeAll | crates/athena-voice-runtime/src/pipeline/sentence.rs:45-49 | drained: the trimmed rest, unless it is empty |
| Sentences.SentenceBuffer.Clear | crates/athena-voice-runtime/src/pipeline/sentence.rs:52-54 | buffered text dropped |
| Sentences.PushHolds | crates/athena-voice-runtime/src/pipeline/sentence.rs:28-42 | a push neither loses nor invents text: what was received is what was cut plus what is buffered |
| Sentences.ReleaseHolds | crates/athena-voice-runtime/src/pipeline/sentence.rs:45-49 | nor does draining the buffer |
| Sentences.ReleasesExactly | crates/athena-voice-runtime/src/pipeline/sentence.rs:28-42 | a push releases everything, trimmed, exactly when what is buffered is not mere white space and its last character other than white space ends a sentence or 100 bytes are reached; else it keeps all |
| Sentences.BytesCounted | crates/athena-voice-runtime/src/pipeline/sentence.rs:36 | the cap counts bytes: one for each ASCII character, two to four for any other |
| Sentences.CoversKeepsCharacters | crates/athena-voice-runtime/src/pipeline/sentence.rs:12-42 | texts that cover an answer hold its non-space characters, each once and in order |
| Text.TrimCuts | crates/athena-voice-runtime/src/pipeline/sentence.rs:36-48 | trim cuts out a slice that loses only white space at the ends |
| LlmActor.AnswerPrompt | crates/athena-voice-runtime/src/pipeline/llm.rs:36-88 | the messages one prompt puts on the token channel |
| LlmActor.OneEndAndLast | crates/athena-voice-runtime/src/pipeline/llm.rs:36-88 | exactly one answer end per prompt, and last, on every path |
| LlmActor.FailureIsSpoken | crates/athena-voice-runtime/src/pipeline/llm.rs:43-79 | a refused or broken completion is never met with silence |
| LlmActor.AnswerIsWhatArrived | crates/athena-voice-runtime/src/pipeline/llm.rs:36-88 | exactly the pieces that arrived before the end or break, in order, then the answer end; the apology only if the provider refused or broke before the first piece |
| Routing.Router.OnFinal | crates/athena-voice-runtime/src/pipeline/router.rs:100-249 | a final transcript: next epoch, barge-in if work is outstanding, then skill or LLM |
| Routing.Router.OnOutcome | crates/athena-voice-runtime/src/pipeline/router.rs:257-352 | an outcome: cancelled if superseded, else forwarded, with an answer end unless handed to the LLM |
| Turns.OutcomeEffects | crates/athena-voice-runtime/src/pipeline/router.rs:278-351 | an outcome closes its turn, hands it to the LLM or is reported cancelled: exactly one of the three |
| Wording.RouterSaysWhatItOwes | crates/athena-voice-runtime/src/pipeline/router.rs:292-351 | in every interleaving the router's messages are, in order of receipt, for each response then current: its text, closed with a full stop unless it ends a sentence, and the end; nothing if the LLM is asked; the end alone otherwise; and the LLM's prompts are exactly those of undispatched finals and asking responses |
| Wording.ChannelCarriesBoth | crates/athena-voice-runtime/src/pipeline/router.rs:294-350 | the token channel carries the router's and the LLM's messages, each in order, and nothing else |
| Wording.EventsTellTheHistory | crates/athena-voice-runtime/src/pipeline/router.rs:102-249 | the event bus hears, in order, exactly the barge-ins, matches, invocations, LLM fallbacks, audio and volume responses and cancellations of what the router took in |
| Wording.BusyMeansOutstanding | crates/athena-voice-runtime/src/pipeline/router.rs:102-115 | and a final interrupts exactly when the utterance before it is unresolved or was answered or handed to the LLM |
| Turns.TurnsAlwaysBalance | crates/athena-voice-runtime/src/pipeline/router.rs:99-249 | in every interleaving each final transcript is closed, cancelled, or on its way exactly once |
| Turns.TurnClosingLaw | crates/athena-voice-runtime/src/pipeline/router.rs:292-351 | in every drained run the answer ends are the final transcripts less the cancelled dispatches |
| Turns.EpochsAlwaysSafe | crates/athena-voice-runtime/src/pipeline/router.rs:88-131 | the epoch invariant over every run with fewer than 2^64 finals |
| Turns.PendingIffUnresolved | crates/athena-voice-runtime/src/pipeline/router.rs:88-131 | a pending dispatch has the current epoch, and exists exactly when the current utterance's outcome is outstanding |
| Turns.OutcomesHandledOnce | crates/athena-voice-runtime/src/pipeline/router.rs:257-352 | every outcome received is forwarded exactly if its epoch is current, else reported cancelled; no epoch is received twice |
| Turns.BargeInExactly | crates/athena-voice-runtime/src/pipeline/router.rs:102-115 | a final transcript barges in exactly when the utterance before it is unresolved or already answered or handed to the LLM |
| Turns.ExitLosesNothingCurrent | crates/athena-voice-runtime/src/pipeline/router.rs:89-93 | the normal exit never loses the current utterance's outcome |
| Turns.ForwardedOnceIffUnsaturated | crates/athena-voice-runtime/src/pipeline/router.rs:101 | no run with n final transcripts forwards two outcomes of one epoch if and only if n is at most 2^64 - 1 |
| Turns.DonePerUtterance | crates/athena-voice-runtime/src/satellite/ingress.rs:215-276 | the whole pipeline, drained: one done to the satellite for every utterance that was not cancelled |
| Tts.Flush | crates/athena-voice-runtime/src/pipeline/tts.rs:122-195 | the text announced, a format declaration, then the chunks, each announced with its number, up to the end, an error or a barge-in; only the text if synthesis fails; the next number |
| Tts.EventsNumberChunks | crates/athena-voice-runtime/src/pipeline/tts.rs:132-189 | over a whole session the event bus hears every spoken text in order, and of every chunk sent to the sink, in order, its length and its position, saturating at the last u32 |
| Speech.FlushRelaysUntilStopped | crates/athena-voice-runtime/src/pipeline/tts.rs:136-192 | a failed synthesis sends nothing; any other its format and exactly the audio before its first error or barge-in, in order |
| Speech.AudioHeardIsAudible | crates/athena-voice-runtime/src/pipeline/tts.rs:56-192 | with the sink, over any run: exactly that audio of every synthesis spoken is published, in order |
| Speech.BargeInDropsTheOldAnswer | crates/athena-voice-runtime/src/pipeline/tts.rs:59-64 | with barge-ins at any moments: what is spoken since the newest covers, answer by answer, exactly what was received since |
| Speech.IdleFlushSpeaks | crates/athena-voice-runtime/src/pipeline/tts.rs:68-78 | while text is buffered, the idle flush speaks all of it exactly from 800 ms after the newest token on |
| Speech.RunningIff | crates/athena-voice-runtime/src/pipeline/tts.rs:56-86 | cancellation and the closed channel end the loop, nothing else |
| Speech.HeldIsUnfinished | crates/athena-voice-runtime/src/pipeline/tts.rs:103-111 | the stage holds back no finished sentence and no 100 bytes of text |
| Tts.RunTts | crates/athena-voice-runtime/src/pipeline/tts.rs:56-113 | the loop over any arms in any order acts as its step function says |
| Tts.Fire | crates/athena-voice-runtime/src/pipeline/tts.rs:57-112 | the body of one arm |
| Tts.OnMessage | crates/athena-voice-runtime/src/pipeline/tts.rs:86-110 | a token or an answer end |
| Tts.EveryEndIsPassedOn | crates/athena-voice-runtime/src/pipeline/tts.rs:91-100 | every answer end received is passed on, barge-ins and failed syntheses included |
| Tts.MetaPrecedesEveryChunk | crates/athena-voice-runtime/src/pipeline/tts.rs:148-195 | composed with the sink: at most one meta, and no chunk published before it |
| Tts.DonePerReceivedEnd | crates/athena-voice-runtime/src/pipeline/tts.rs:79-112 | composed with the sink: one done for every answer end received |
| Tts.AnswerTextIsConserved | crates/athena-voice-runtime/src/pipeline/tts.rs:68-111 | without barge-in and with idle flushes at any moments, the texts between two answer ends are that answer's tokens up to dropped white space; answers never merge |
| Tts.ClosingSpeaksTheRest | crates/athena-voice-runtime/src/pipeline/tts.rs:80-85 | when the channel closes the last answer is spoken to its end |
| Sink.RunSink | crates/athena-voice-runtime/src/pipeline/sink.rs:53-121 | everything published for the messages consumed, teardown included |
| Sink.DonePerAnswer | crates/athena-voice-runtime/src/pipeline/sink.rs:107-121 | one done per answer end, and one at teardown exactly when something came since the last or none ever came |
| Sink.EveryChunkIsFollowedByDone | crates/athena-voice-runtime/src/pipeline/sink.rs:115-121 | the last thing a session publishes is a done |
| Sink.AudioIsConserved | crates/athena-voice-runtime/src/pipeline/sink.rs:93-106 | exactly the consumed chunks are published, in order |
| Sink.MetaRun | crates/athena-voice-runtime/src/pipeline/sink.rs:63-92 | meta is published at most once, and exactly if a format was declared |
| Sink.MetaIsTheFirstFormat | crates/athena-voice-runtime/src/pipeline/sink.rs:63-92 | the format published is the first one declared |
| Sink.MetaBeforeAudio | crates/athena-voice-runtime/src/pipeline/sink.rs:63-106 | on a stream that declares before it sends, meta comes before any audio |
| Loader.DeviceActor.Fire | crates/athena-voice-runtime/src/assist/bridge.rs:235-320 | one arm of the device actor's loop |
| Loader.DeviceActor.TakeQuestion | crates/athena-voice-runtime/src/assist/bridge.rs:263-284 | a question supersedes what is in flight, starts the loader, is announced and handed to the router; a gone router ends the loop |
| Loader.DeviceActor.DrainTokens | crates/athena-voice-runtime/src/assist/bridge.rs:274 | no token sent before the question stays on the channel |
| Loader.DeviceActor.TakeToken | crates/athena-voice-runtime/src/assist/bridge.rs:285-318 | one message off the channel: a token pushed, or an answer end that releases the loader |
| Loader.DeviceActor.Publish | crates/athena-voice-runtime/src/assist/bridge.rs:373-397 | a text is published, and the first one for a question releases the loader |
| Loader.RunDeviceActor | crates/athena-voice-runtime/src/assist/bridge.rs:218-328 | the loop and the release of the loader at exit |
| Loader.LoaderProtocol | crates/athena-voice-runtime/src/assist/bridge.rs:235-328 | for every interleaving the statuses are a prefix of (in-progress+ done)* and a complete word at exit; a text released while loading is followed at once by done |
| Loader.LoaderReleasedInTime | crates/athena-voice-runtime/src/assist/bridge.rs:31-33 | with the answer timer looked at every d at least, a running actor's loader is never still spinning 30 s and d after the newest question |
| Deadlines.LeavesExactly | crates/athena-voice-runtime/src/assist/bridge.rs:236-328 | a running actor leaves its loop exactly on cancellation, a closed channel, a gone router, or an idle timer no less than the session's idle time after the newest question or its birth |
| Deadlines.IdleFlushPublishes | crates/athena-voice-runtime/src/assist/bridge.rs:252-262 | while text is buffered, the idle flush publishes all of it exactly from 800 ms after the newest token on |
| Deadlines.TimeoutReleases | crates/athena-voice-runtime/src/assist/bridge.rs:242-251 | the answer timer releases the loader exactly if it spins and 30 s have passed since the newest question |
| Deadlines.AnswerEndReleases | crates/athena-voice-runtime/src/assist/bridge.rs:291-306 | an answer end publishes the text still held and releases a loader that still spins |
| Deadlines.HeldIsUnfinished | crates/athena-voice-runtime/src/assist/bridge.rs:308-317 | the actor holds back no finished sentence and no 100 bytes of text |
| Loader.NewestQuestionOnly | crates/athena-voice-runtime/src/assist/bridge.rs:263-318 | a pending deadline carries the current epoch and lies 30 s after the newest question; every question is announced, and handed to the router in order unless the router is gone; text published since the newest covers exactly what was received since, and that is, in order, what was put on the token channel since |
| Bridge.QuestionsConserved | crates/athena-voice-runtime/src/assist/bridge.rs:134-164 | in every interleaving every question is in exactly one place: a call's hands, a full backlog's drop, a queue, a consumer, a leftover, shutdown's discard, or a panic's loss |
| Bridge.NothingIsLost | crates/athena-voice-runtime/src/assist/bridge.rs:134-371 | without shutdown and panic, once all is quiet every question was consumed exactly once or dropped on a full backlog |
| Bridge.RunsAreSound | crates/athena-voice-runtime/src/assist/bridge.rs:134-371 | per channel, accepted questions are consumed, rerouted, discarded, lost or queued in order; the map's entries are wired to channels of their device |
| Bridge.ExitLeavesNothing | crates/athena-voice-runtime/src/assist/bridge.rs:334-367 | an exited actor's channel was consumed and the rest routed again, or dropped because of shutdown |
| Bridge.DropMeansFullBacklog | crates/athena-voice-runtime/src/assist/bridge.rs:137-147 | a question is dropped on arrival only when eight wait in the open channel of its device |
| Bridge.EntriesAreOpen | crates/athena-voice-runtime/src/assist/bridge.rs:334-341 | without a panic every map entry's channel is open, and route never meets a closed one |
| Bridge.EntryGoesThreeWays | crates/athena-voice-runtime/src/assist/bridge.rs:154-162 | panics or not, an exiting actor never removes a successor's entry: an entry goes by its own actor's removal, a replacing insert, or route's remove after a closed channel, the last only after a panic |
| Contention.OneActorWhenSerial | crates/athena-voice-runtime/src/assist/bridge.rs:134-164 | if no two routing calls of one device are ever past their lookup at once, every live or leaving actor is its device's entry, so a device never has two; panics included |
| Contention.TwoActorsWhenContended | crates/athena-voice-runtime/src/assist/bridge.rs:153-163 | conversely, from every state with two such calls the run can go on to two live actors of the device |
| Contention.TwoLiveActors | crates/athena-voice-runtime/src/assist/bridge.rs:346-367 | a run with two live actors: a rerouted leftover overlaps the next question, the broker's questions coming one after the other |
| Contention.RemoveIsSafeWhenGuarded | crates/athena-voice-runtime/src/assist/bridge.rs:154-156 | if no call is ever about to remove a closed entry while another builds the device's next one, route's remove takes away a panicked actor's entry or nothing |
| Contention.RemoveLosesLive | crates/athena-voice-runtime/src/assist/bridge.rs:154-156 | conversely, from every state with such a pair of calls (the other one's channel, if already inserted, being still the entry) the run can go on to where a live actor's entry is removed |
| Contention.EntryGoesOneWayWhenUnthreatened | crates/athena-voice-runtime/src/assist/bridge.rs:154-162 | if no call that has still to touch the map ever meets another call building for its device, the entry of an actor that has not panicked goes only by that actor's own removal |
| Contention.EntryTakenWhenThreatened | crates/athena-voice-runtime/src/assist/bridge.rs:154-162 | conversely, from every state with such a pair (with the same proviso) the run can go on to where a routing call takes a live actor's entry |
| Contention.SerialIsGuarded | crates/athena-voice-runtime/src/assist/bridge.rs:134-164 | both conditions follow from calls of one device never overlapping past their lookup |
| Contention.LiveEntryLost | crates/athena-voice-runtime/src/assist/bridge.rs:154-156 | a run that gets there after a panic |
| Assist.AssistBridge.Handle | crates/athena-voice-runtime/src/assist/bridge.rs:122-132 | true exactly for the topics of device ids; a malformed or empty payload changes nothing; else the question ends an open queue of its device, or the backlog is full and nothing changes |
| Assist.AssistBridge.Admit | crates/athena-voice-runtime/src/assist/bridge.rs:130-131 | a well-formed question arrives and is routed in one uninterrupted call |
| Topics.ParsesExactly | crates/athena-voice-runtime/src/assist/topics.rs:15-22 | a topic is parsed to a device exactly if it is that device's question topic and the id cannot steer the answer |
| Topics.ParsesText | crates/athena-voice-runtime/src/assist/topics.rs:44-51 | a payload carries a question exactly if its text is not mere white space; the question is that text without the white space around it |
| Topics.NeverHearsItself | crates/athena-voice-runtime/src/assist/topics.rs:15-32 | no answer or status topic of the bridge is taken for a question |
| Assist.AssistBridge.Route | crates/athena-voice-runtime/src/assist/bridge.rs:134-164 | the same for one uninterrupted call of route, every branch being steps of the machine |
| Assist.AssistBridge.Offer | crates/athena-voice-runtime/src/assist/bridge.rs:136-156 | the fast path and the removal of a closed channel's entry |
| Assist.AssistBridge.TrySend | crates/athena-voice-runtime/src/assist/bridge.rs:137-148 | enqueued below the capacity of eight, dropped at it |
| Assist.AssistBridge.Respawn | crates/athena-voice-runtime/src/assist/bridge.rs:157-163 | a fresh channel with the question, its entry and its actor |
| Assist.AssistBridge.Exit | crates/athena-voice-runtime/src/assist/bridge.rs:330-367 | the exit path empties the channel into new calls or, at shutdown, drops the rest; its own entry is gone and other devices' entries are untouched |
| Assist.AssistBridge.Unmap | crates/athena-voice-runtime/src/assist/bridge.rs:334-341 | the entry is removed only if it is still the actor's own, then the channel is closed |
| Assist.AssistBridge.DrainAll | crates/athena-voice-runtime/src/assist/bridge.rs:342-345 | every queued question becomes a leftover, in order |
| Assist.AssistBridge.Conclude | crates/athena-voice-runtime/src/assist/bridge.rs:346-367 | leftovers are dropped exactly during shutdown and rerouted otherwise |
| Assist.AssistBridge.RouteAll | crates/athena-voice-runtime/src/assist/bridge.rs:363-365 | all leftovers are routed again, one after the other |
| Similarity.SimilarityLaws | crates/athena-voice-runtime/src/intent/engine.rs:135 | the edit similarity lies in [0, 1] and is 1 exactly for equal strings |
| Similarity.TransposedDistance | crates/athena-voice-runtime/src/intent/engine.rs:135 | two neighbouring characters in the wrong order are one edit |
| Similarity.ExtraDistance | crates/athena-voice-runtime/src/intent/engine.rs:135 | a character too many is one edit |
| Similarity.MissingDistance | crates/athena-voice-runtime/src/intent/engine.rs:135 | a character too few is one edit |
| Literals.NormalizeLiteral | crates/athena-voice-runtime/src/intent/engine.rs:104-119 | the result is the lower-cased words of kept characters joined by single spaces |
| Literals.WordsSpellTheText | crates/athena-voice-runtime/src/intent/engine.rs:104-119 | normalisation keeps exactly the letters, digits, apostrophes and hyphens, in lower case and in order |
| Literals.WordsOfJoin | crates/athena-voice-runtime/src/intent/engine.rs:223-236 | splitting at white space undoes joining words with spaces |
| Literals.BestWindowSimilarity | crates/athena-voice-runtime/src/intent/engine.rs:223-240 | the loops compute the best window score |
| Literals.BestOfSizeIsMax | crates/athena-voice-runtime/src/intent/engine.rs:231-238 | that score is at least every window's of its size and at most 1 |
| Literals.BestWindowIsBest | crates/athena-voice-runtime/src/intent/engine.rs:223-240 | no window a word shorter, as long or a word longer than the phrase scores more, and one scores just that |
| Literals.ExactWindow | crates/athena-voice-runtime/src/intent/engine.rs:223-240 | a window that reads like the phrase is reached and scores 1 |
| Literals.FullScoreIffSameWords | crates/athena-voice-runtime/src/intent/engine.rs:128-136 | a slot-less phrase scores 1 exactly when its normal form is the utterance's |
| Literals.PaddedWords | crates/athena-voice-runtime/src/intent/engine.rs:104-119 | normalisation distributes over padded speech |
| Literals.PaddedSpeechScores | crates/athena-voice-runtime/src/intent/engine.rs:125-148 | padded speech scores 0.95, or its whole similarity if that is more |
| Templates.SplitPhrase | crates/athena-voice-runtime/src/intent/engine.rs:259-284 | the nested loops produce the segments of the recursive grammar |
| Templates.SplitOfRender | crates/athena-voice-runtime/src/intent/engine.rs:259-284 | parsing undoes rendering for every well-formed template |
| Templates.RenderOfSplit | crates/athena-voice-runtime/src/intent/engine.rs:259-284 | every phrase parses to a well-formed template that renders back to it, up to a missing last brace |
| Templates.SlotlessIff | crates/athena-voice-runtime/src/intent/engine.rs:132 | a phrase is a single literal exactly when it is non-empty and has no opening brace |
| Slots.Walk | crates/athena-voice-runtime/src/intent/engine.rs:150-199 | the walk's loop computes the extraction of the step function, trimmed-literal fallback and null slots included |
| Slots.SlotValuesAreSlices | crates/athena-voice-runtime/src/intent/engine.rs:175-197 | for every input: each slot once and in template order; values are trimmed, non-empty, kind-respecting, disjoint slices of the input |
| SlotKinds.ValuesRespectKinds | crates/athena-voice-runtime/src/intent/engine.rs:242-252 | for every utterance: no recorded value violates the first specification of its slot's name; a number slot's parses as a number, an enumerated slot's is an option up to ASCII case |
| SlotKinds.SlotTakesItsGap | crates/athena-voice-runtime/src/intent/engine.rs:175-197 | a slot's gap reaches to the next literal's first occurrence; trimmed it is the value exactly if it is not empty and violates nothing, else the slot is null and the walk stays |
| SlotKinds.LiteralTakesFirst | crates/athena-voice-runtime/src/intent/engine.rs:156-174 | a literal is passed at its first occurrence, else without its trailing white space; the phrase fails exactly if neither occurs |
| SlotKinds.SlotMapHoldsTheLast | crates/athena-voice-runtime/src/intent/engine.rs:188-195 | the skill gets each slot once, with the value of its last occurrence |
| Slots.ExtractionUndoesFilling | crates/athena-voice-runtime/src/intent/engine.rs:150-199 | a filled template without adjacent slots, its literals in whatever case and first occurring where placed, gives back exactly the values and rebuilds what reads like the utterance |
| Slots.ExtractionUndoesFillingIff | crates/athena-voice-runtime/src/intent/engine.rs:150-199 | and, for values that respect their kinds, only then: if and only if every literal first occurs where it was placed |
| Slots.MissingValueIsNull | crates/athena-voice-runtime/src/intent/engine.rs:163-172 | any template cut off before its last value: when the last literal is reached and the rest of the utterance reads like it, in whatever case, without trailing white space, the walk ends there and the last slot is null |
| Ranking.ClearWinnerWins | crates/athena-voice-runtime/src/intent/engine.rs:70-82 | a candidate ahead of every other by more than the band wins, wherever it stands |
| Ranking.ClearMatchWins | crates/athena-voice-runtime/src/intent/engine.rs:70-82 | the same for a match that several phrases give alike |
| Ranking.AllTiedPicksMostSpecific | crates/athena-voice-runtime/src/intent/engine.rs:70-82 | if all tie pairwise, the earliest of the most specific wins |
| Ranking.WinnerNearMaximum | crates/athena-voice-runtime/src/intent/engine.rs:70-82 | the winner is within one band plus one per tie replacement of the maximum |
| Ranking.UnsurpassedIff | crates/athena-voice-runtime/src/intent/engine.rs:52-82 | in every order of every selection from a pool no candidate is better than the winner, neither clearly more confident nor more specific in a near-tie, if and only if being better is transitive in the pool |
| Ranking.SpecificTieLoses | crates/athena-voice-runtime/src/intent/engine.rs:52-82 | three candidates whose near-ties cost no more than the band, and in one order a less specific one wins against a near-tie |
| Ranking.NeverBeatenIff | crates/athena-voice-runtime/src/intent/engine.rs:70-82 | what the choice costs in confidence: in every order of every selection from a pool the winner is beaten by no more than the band, if and only if ties along increasing specificity are closed in the pool |
| Ranking.TiesAreNotTransitive | crates/athena-voice-runtime/src/intent/engine.rs:25-27 | any two ties in a row that lead down by more than the band make the winner depend on the order |
| Ambiguity.ExactPhraseLoses | crates/athena-voice-runtime/src/intent/engine.rs:56-88 | three rules and an utterance of 21 to 39 letters equal to one rule's phrase: in one order that rule loses to one it beats by more than the band, in the other it wins |
| Ambiguity.SpecificPhraseLoses | crates/athena-voice-runtime/src/intent/engine.rs:56-88 | three rules and an utterance of 81 to 119 characters: in one order a phrase of one word wins over a phrase of three that ties with it, in the other that phrase wins |
| Similarity.OverwrittenDistance | crates/athena-voice-runtime/src/intent/engine.rs:135 | overwriting characters by one the other string lacks costs exactly one edit each |
| Matcher.TryMatchPhrase | crates/athena-voice-runtime/src/intent/engine.rs:121-217 | one phrase: fuzzy literal or template walk |
| Matcher.FindMatch | crates/athena-voice-runtime/src/intent/engine.rs:56-88 | the two loops choose the best of all candidates in rule order |
| Matcher.Consider | crates/athena-voice-runtime/src/intent/engine.rs:61-83 | the innermost body against the best so far |
| Matcher.NothingIffNoneReaches | crates/athena-voice-runtime/src/intent/engine.rs:56-88 | nothing is returned exactly when no phrase of the locale reaches the threshold |
| Matcher.MatchComesFromARule | crates/athena-voice-runtime/src/intent/engine.rs:56-88 | whatever is returned is the match of some phrase that reaches 0.8, under its rule's intent and for the skill that owns the rule |
| Matcher.SlotlessMatch | crates/athena-voice-runtime/src/intent/engine.rs:128-148 | a slot-less phrase fills no slot and counts for as many words as it has |
| Matcher.PaddedSpeechMatches | crates/athena-voice-runtime/src/intent/engine.rs:125-148 | a slot-less phrase said among other words always finds some rule |
| Matcher.SpacesSetApart | crates/athena-voice-runtime/src/intent/engine.rs:128-131 | arbitrary text separated by spaces is such padding |
| Matcher.FilledTemplateMatches | crates/athena-voice-runtime/src/intent/engine.rs:201-216 | the phrase of a filled template matches with confidence 1 and its values as slots |
| Matcher.FilledTemplateWins | crates/athena-voice-runtime/src/intent/engine.rs:56-88 | so the search returns something at most one band, and one more per tie replacement, below 1; and exactly that match if every other candidate is below 0.95 |
| Matcher.ConfidenceRange | crates/athena-voice-runtime/src/intent/engine.rs:201-205 | every confidence is in [0, 1]; a template's is 1 exactly when the filled phrase equals the utterance up to case |

## Left out

- Matcher.TryMatchPhrase: confidences are reals, so the rounding of f64 division and of the cast to f32 is not modelled; the thresholds 0.8 and 0.05 are exact.
- Similarity.SimilarityLaws: the distance is the published definition of the strsim crate, written recursively; the crate's table-filling code is not part of this model.
- Slots.Walk: offsets count characters instead of bytes, which agrees because lower-casing is taken character by character; characters whose lower case is longer (such as a dotted capital I) are outside the model. Which texts parse as floating-point numbers is an uninterpreted predicate.
- Turns.TurnClosingLaw: channels are open and unbounded; blocking on a full channel only delays steps and cancellation of whole actors is not a step.
- Turns.DonePerUtterance: says nothing about stale LLM text, because barge-in does not stop an LLM stream already running.
- Tts.AnswerTextIsConserved: runs without barge-in only; with one, buffered text is dropped on purpose. Lagged event-bus messages are not modelled.
- Lines.DecodeSseTokens: lossy UTF-8 decoding and the JSON content of a payload are uninterpreted functions of the bytes; only LF-terminated lines, as the code does, of sections 9.2.5 and 9.2.6 of the WHATWG HTML Living Standard.
- Lines.DecodeNdjsonTokens: the JSON library's answer to a line is uninterpreted.
- Pairing.Discover: information commands, labels and the JSON of an equipment are not modelled, only its action commands.
- Breaker.LoadWhileDown: one sequential caller; backoff sleeps are only time passing between attempts. The retrying recogniser and LLM wrappers make a single attempt and are not modelled.
- Bridge.QuestionsConserved: a panic is a step of an actor's loop or of its last status publish, not of the drain; aborting tasks when the process ends is not a step.
- SatelliteSession.SessionLanguage: session ids are assumed fresh, as random UUIDs; payload parsing is uninterpreted.
- Silence.SilenceTracker.Push: where a quiet frame adds to run_ms, assumes that it does not overflow u32, as the code does.
- MQTT clients, HTTP, sockets, SQLite, file watching, process spawning, and the WASM registry: input and output only; a dispatch is one outcome.
- Resampling, synthesis helpers, level meters, sample conversion, ESP32 drivers, speaker thread and Wi-Fi: hardware or floating point without exact claims.
- Admin pages, configuration, localised tables, prompt texts, heartbeat and topic subscriptions: tables and formatting.
