# Flowstate: a verified model of the server edge, the replay verifier and the client codec

Flowstate is a small authoritative multiplayer game: a server steps a simulated world at a
fixed tick rate, buffers commands from its sessions, records everything it applies, and can
later verify a recorded match by replaying it. A Godot client talks to it through a
hand-written Protocol Buffers codec.

This Dafny project models those parts and proves what they promise. The source's mutable
objects are classes (`Server`, `World`, `InputBuffer`, `ReplayRecorder`, `Fnv1a64`,
`ByteWriter`, `ByteReader`, `TickFloor`, `InputSeqGen`, `MatchState`), and each of their
methods is proved to take its state where a specification function says. A `Server` carries
its run, a list of events (accept, welcome, disconnect, receive, step, set fingerprint), as a
ghost history that `Valid()` ties to its fields, so a theorem about runs is a theorem about
every server at every moment.

The main results:

- **Replay verifiability, exactly** (`RecordThenVerify.VerifyExact`). The artifact a run
  records is accepted by the verifier if and only if the builds are acceptable, at least one
  step was taken, nobody joined after the first step, and no two sessions shared a player id.
  Ties, rate limits, fallbacks and disconnects play no part. `Server.FinalizeMatch` carries
  the same statement as a postcondition.
- **What acceptance means** (`Acceptance.VerdictExact`). Every artifact, from a run or not, is
  accepted if and only if it satisfies `Accepts`, which reads the artifact alone; otherwise
  the error names the first thing wrong with it and the values that disagree. `Tampering`
  replaces the fields of a clean run's artifact one by one and says what the verifier answers.
- **Trace refinement** (`InputTrace.TraceRefinement`, `Trajectories.TrajectoryRefinement`).
  What is recorded for a player and a tick, and where every character is, are functions of
  the event history that mention no buffer and no table.
- **Non-interference** (`Interference.NonInterference`, `FutureIsInert`). Nobody's messages
  move anybody else's character, and no command reaches back before its tick.
- **The whole-run rate limit** (`InputTrace.WholeRunRateLimit`) and the invariant of every
  reachable server state (`ServerRuns.RunKeepsInvariant`).
- **What deliveries can change, exactly** (`Deliveries.DeliveriesExact`). Two runs that are
  equal but for their commands record the same if and only if the commands that won point the
  same way on every stepped tick, and then the servers differ in nothing but the buffer. For
  one key, `ArrivalOrder.OrderFreeExact` (reordering), `Neighbours.SwapExact` and
  `Duplicates.RepeatExact` say when the winner is the same; `Redelivery` carries the last two
  over to whole runs, and `Binary64` says what f64 rounding does to them.
- **Motion** (`Motion.VelocityInRun`). Over the reals, in every run, a character's velocity
  after a step is five times the input recorded for its player, shortened to length one if
  longer, axis by axis, and its position has moved by that; `StepMovesCharacter` is the same
  for any arithmetic.
- **Freezing on disconnect, exactly** (`Frozen.StaysPutExact`), **the speed limit**
  (`Distance.DistanceBound`), **floor safety over a lossy channel** (`ClosedLoop.FloorSafety`).
- **From the world to the screen** (`ServerWire.SnapshotReachesClient`). The bytes a step
  broadcasts make the client's match state show exactly the world's characters, and carry the
  tick, the floor and the digest (`BroadcastAnnounces`); the floors of the closed loop are the
  ones that a client reads in those bytes (`SentMessages.RunSends`).
- **The codec**: round trips for every message and indifference to unknown fields, down to
  the signed 64-bit shifts, masks and ors (`WireMessages`, `Varint`, `WireIO`). `WireLayout`
  states which field number carries what, for writing and for reading, and `WireBytes` gives
  the literal bytes of small messages.
- **The state digest**: every byte step is a bijection on 64-bit states, and the encoding
  that is hashed determines the world up to signed zeros and NaNs (`Digest`, `Simulation`).
  `Digest.PublishedValues` has the published FNV-1a values, and `Layout.EncodingLayout` says
  which byte of the hashed message holds what.
- **The artifact's contents** (`ArtifactContents.RunContents`), field by field, for every run.

f64 arithmetic is a value of type `Arith`, a record of total functions, and results that need
only determinism hold for every such value. `Float64.Exact` describes arithmetic over the
reals, for the results where rounding is not the point, and `Binary64.Rounds` rounding to
binary64 numbers, for those where it is.

Where the code and its documentation differ, the model follows the code. Each time there is
a concrete run or input on which the documented rule fails, and the exact condition under
which the code keeps it:

- **Sessions may join at any time, and a match can be reproduced from its artifact**
  (docs/specs/FS-0007-v0-multiplayer-slice.md:303 and 320-321,
  docs/constitution/invariants.md:72). Both cannot be had: the recorder notes no tick for a
  spawn, and the stream check asks for an input from every player at every tick.
  `RecordThenVerify.LateJoinRun` is the run accept, step, accept with default settings, whose
  artifact is rejected under any options; `LateJoinRejected` says that a late join always is,
  and `VerifyExact` when an artifact is accepted.
- **A departed player's character freezes in place** (crates/server/src/lib.rs:312-316,
  FS-0007:303). The disconnect clears the intent but not the buffered commands.
  `Frozen.StillMoving` is a run whose departed character moves; `Frozen.StaysPutExact` says
  exactly when it stays where it is, for any arithmetic in which zero behaves as it does in
  f64; over the reals that is when no untied command asks for a motion (`Frozen.FreezeExact`).
  `Freeze.IdleExact` is the statement about the applied intents. The two differ for f64: a
  left-behind minus zero is an intent other than zero that moves nobody.
- **Recorded inputs in canonical order** (FS-0007:448), by tick and then by player id, and
  **the entity mapping by player id** (FS-0007:446). Both are recorded in spawn order.
  `RecordingOrder.NotCanonical` is a run out of order; `RecordingOrder.CanonicalExact` and
  `RecordingOrder.MappingOrderExact` tie the order to that of the ids handed out, and
  `RecordingOrder.DefaultIdsCanonical` shows that default ids are always in order. The
  verifier sorts and does not mind (`VerifierFacts.VerifyIgnoresInputOrder`).
- **Selection independent of arrival order** (docs/adr/0006-input-tick-targeting.md:36). Only
  the first arrivals up to the limit are admitted, and a stored selection is clamped again
  on every later arrival (crates/server/src/input_buffer.rs:88-92).
  `ArrivalOrder.OrderFreeExact` is the exact condition for every list of commands, every
  limit and every arithmetic, `OrderIndependenceExact` the one for all lists of a length;
  `LimitDecides` and `ClampDecides` are reorderings that show. Over the reals only the limit
  matters (`RealsClampIdempotent`). In f64 the clamp matters too: `Binary64` shows that
  [19, 260] is shortened twice however halves are rounded (`ClampNotIdempotent`), so order is
  irrelevant in general for at most one command (`OrderMattersExact`).
- **Tolerance of duplication** (docs/adr/0006-input-tick-targeting.md:17). A command that the
  channel repeats can show in three ways. It ties with itself, as the selection rule at
  FS-0007:268 has it, and both copies are dropped (`Duplicates.RepeatedWinnerDropped`). It has
  the stored command clamped once more (`RepeatedLoserShows`; in f64 `Binary64.RepeatShows`,
  with the directions [1, 0] and [19, 260] at any limit from 3 up). It uses up a place under
  the limit, so that a command behind it is shut out (`RepeatShutsOut`: with default settings,
  numbers 1, 2, 3, a copy of 1, then 4 select 3). `Duplicates.RepeatExact` says exactly when a
  copy anywhere behind the original is harmless, for every arithmetic, and
  `Redelivery.RepeatInRun` when a whole run does not show it.
- **At most the configured number of commands per tick** (FS-0007:266). A first arrival is
  never held against the limit: `InputTrace.RateZeroAccepts` accepts one at rate zero, and
  `InputTrace.RateLimitKept` is the exact condition.
- **No command before the welcome** (FS-0007:344). The server looks at sessions, not at
  welcomes: `Handshake.HeardTooEarly` has a command buffered before any welcome, and
  `Handshake.PreWelcomeExact` says when the rule is kept, namely when every live session has
  been welcomed, as its caller does at once.

To check the project: `dafny verify dfyconfig.toml`.

## Model

| member | source | states |
|---|---|---|
| `RecordThenVerify.VerifyExact` | crates/server/src/lib.rs:362-465 | for every run of the server, verifying its artifact succeeds iff the builds are acceptable, a step was taken, nobody joined late and ids are distinct |
| `RecordThenVerify.CleanRunVerifies` | crates/replay/src/lib.rs:352-460 | sufficiency: any such run, with any mix of inputs, ties, drops and disconnects, verifies with `Ok(())` |
| `RecordThenVerify.AcceptedRunIsClean` | crates/replay/src/lib.rs:352-460 | necessity: a run whose artifact is accepted meets all four conditions |
| `RecordThenVerify.LateJoinRejected` | crates/replay/src/lib.rs:487-505 | under the other conditions, a join after the first step is rejected as an invalid input stream |
| `RecordThenVerify.LateJoinRun` | crates/replay/src/lib.rs:487-505 | with default settings the run accept, step, accept is possible and its artifact rejected under any options |
| `RecordThenVerify.RunRecording` | crates/server/src/lib.rs:362-424 | in every reachable state, unless somebody joined late, the world is the replay of the recording and the recording has each player as often per tick as it joined |
| `RecordThenVerify.RunTicks` | crates/server/src/lib.rs:367-414 | in every reachable state all recorded ticks are past, and tick 0 was applied to those who joined before the first step only |
| `VerifierFacts.ValidateExact` | crates/replay/src/lib.rs:464-525 | the stream check succeeds iff every mapped player has exactly one input per tick of the half-open range and nothing else is present |
| `VerifierFacts.SoundStreamSize` | crates/replay/src/lib.rs:464-525 | a sound stream has as many inputs as distinct players times ticks |
| `VerifierFacts.VerifyIgnoresInputOrder` | crates/replay/src/lib.rs:416-440 | with mapped ids below 256, an artifact is accepted iff every permutation of its inputs is |
| `Verifier.ValidateInputStream` | crates/replay/src/lib.rs:464-525 | the loops return the first error in the order missing, duplicate, outside, unknown, as the specification function does |
| `Verifier.GroupByTick` | crates/replay/src/lib.rs:416-427 | the lookup table holds each tick's inputs in list order, or some input is malformed |
| `Verifier.VerifyReplay` | crates/replay/src/lib.rs:352-460 | the verdict is `Ok` iff the builds agree or need not, the stream is sound, every listed spawn gets its mapped entity, the baseline digest is that of the respawned world, all inputs are well formed, and the replayed world has the checkpoint tick and the final digest; every error is the first defect, with the values that disagree |
| `Acceptance.VerdictExact` | crates/replay/src/lib.rs:352-525 | for every artifact, acceptance and each error stated of the artifact alone |
| `Tampering.OtherFinalDigest` | crates/replay/src/lib.rs:450-457 | a clean run's artifact with another final digest is accepted iff the digest is the same, and otherwise the error names both digests |
| `Tampering.OtherAnchor` | crates/replay/src/lib.rs:407-414 | likewise for the digest of the initial baseline |
| `Tampering.OtherInputs` | crates/replay/src/lib.rs:416-457 | with another input stream: accepted iff the stream is sound and well formed and its replay has the recorded digest |
| `Tampering.OtherCheckpoint` | crates/replay/src/lib.rs:487-519 | with another checkpoint tick, if anybody joined: rejected for a missing or an out-of-range input |
| `Tampering.OtherEntity` | crates/replay/src/lib.rs:385-405 | with another entity for one player: rejected at that player's spawn, naming the expected and the actual entity |
| `ArtifactContents.RunContents` | crates/replay/src/lib.rs:170-236 | every field of a run's artifact: constants, seed and rate, ids and entities in join order, each input with its two components, fingerprint, final digest and tick |
| `ArtifactContents.BaselineContents` | crates/server/src/lib.rs:368-375 | once a step was taken, the recorded baseline is at tick 0 and holds exactly the starters, at the origin and at rest |
| `InputTrace.TraceRefinement` | crates/server/src/lib.rs:372-414 | the recording equals a function of the event history: per step and joined player, the winning offered command or the previous intent |
| `InputTrace.AppliedIsUniqueBest` | crates/server/src/input_buffer.rs:63-130 | the input is the command with the strictly greatest sequence number among the first max(1, limit) offered, clamped once per arrival from its own on (so once, if clamping it again changes nothing), and the previous intent if there is none |
| `InputTrace.LoneCommandApplied` | crates/server/src/input_buffer.rs:63-164 | a lone command is applied component by component, divided by its length if that is more than one |
| `InputTrace.WholeRunRateLimit` | crates/server/src/input_buffer.rs:63-135 | over a whole run the server accepts exactly the first max(1, ceil(rate / hz)) offers for a player and tick, although entries are taken and evicted |
| `InputTrace.RateLimitKept` | crates/server/src/input_buffer.rs:68-73 | the accepted count stays within ceil(rate / hz) itself iff that is positive or nothing was offered |
| `InputTrace.RateZeroAccepts` | crates/server/src/input_buffer.rs:95-111 | a run that accepts a command at a configured rate of zero |
| `Trajectories.TrajectoryRefinement` | crates/sim/src/lib.rs:309-405 | every character of the world started at the origin and moved once per step by its own player's applied input |
| `Trajectories.AdvanceEach` | crates/sim/src/lib.rs:326-328 | with distinct players, one tick's sorted inputs move each character exactly once, by its own input |
| `Interference.NonInterference` | crates/server/src/lib.rs:328-456 | two runs that agree on the joins, the steps and one session's own events give that player the same applied input on every tick and the same character after every step |
| `Trajectories.PathRefinement` | crates/sim/src/lib.rs:309-342 | the characters the world shows step by step are those the event history gives |
| `Interference.FutureIsInert` | crates/server/src/input_buffer.rs:120-135 | dropping every command for tick T and later keeps a run legal and leaves everything but those buffer entries unchanged up to tick T |
| `Interference.FutureNonInterference` | crates/server/src/lib.rs:362-456 | runs that differ only in commands for tick T and later are in one world, with one recording, up to tick T |
| `ServerRuns.RunKeepsInvariant` | crates/server/src/lib.rs:231-456 | in every reachable state: rosters and entity ids agree, live session and player maps are mutually inverse, floors are tick plus lead, buffered keys lie in the window |
| `ServerRuns.BufferBounded` | crates/server/src/lib.rs:426-436 | the buffer never holds more than players times (max_future + 1) entries |
| `ServerRuns.CollectKeeps` | crates/server/src/lib.rs:377-380 | collecting a tick removes exactly that tick's entries of the listed players and no others |
| `ServerRuns.CollectYields` | crates/server/src/lib.rs:400-409 | it yields one input per player, in order, and leaves every listed player an intent |
| `ServerRuns.FloorMonotone` | crates/server/src/lib.rs:426-433 | the floor a session is held to never decreases |
| `Freeze.RunPlayersDistinct` | crates/server/src/lib.rs:139-143 | ids are never reused: without duplicate test ids all sessions of any run have distinct players |
| `ServerEdge.Server.constructor` | crates/server/src/lib.rs:169-201 | a fresh server with the empty run |
| `ServerEdge.Server.SetBuildFingerprint` | crates/server/src/lib.rs:204-207 | one more event, the recorder's fingerprint replaced, nothing else |
| `ServerEdge.Server.AcceptSession` | crates/server/src/lib.rs:231-275 | one more event; the whole new state, and the session, player and entity ids handed out |
| `ServerEdge.Server.WelcomeFor` | crates/server/src/lib.rs:285-300 | the session's floor becomes tick plus lead, the welcome says so, and that floor is what the closed loop has as sent |
| `ServerEdge.Server.ShouldEndMatch` | crates/server/src/lib.rs:302-310 | the match ends exactly when the server's run has taken the configured number of steps, whoever came or went |
| `ServerEdge.Server.DisconnectSession` | crates/server/src/lib.rs:317-324 | the session's tables are cleared and its player's intent zeroed; the buffer and the character stay |
| `ServerEdge.Server.ReceiveInput` | crates/server/src/lib.rs:328-356 | the verdict and the only change, to one buffer entry |
| `ServerEdge.Server.Step` | crates/server/src/lib.rs:362-456 | one tick: baseline once, inputs collected and recorded, world advanced, floors raised, old entries evicted; a client reads in the bytes the tick, the floor tick plus lead, the digest and every character, and every live session is sent just that |
| `ServerEdge.Server.CollectInputs` | crates/server/src/lib.rs:377-409 | the per-player loop takes, falls back and remembers as specified |
| `ServerEdge.Server.EmitFloor` | crates/server/src/lib.rs:429-433 | every live session gets the floor, whatever order the table yields them in |
| `ServerEdge.Server.FinalizeMatch` | crates/server/src/lib.rs:459-465 | the artifact, and for all options that it is accepted iff the server's own history is clean |
| `InputBuffering.InputBuffer.TryBufferInput` | crates/server/src/input_buffer.rs:63-113 | result and new entries for one arrival, including the re-clamping of the stored selection |
| `InputBuffering.InputBuffer.TakeInput` | crates/server/src/input_buffer.rs:120-130 | removes the key and yields the selection unless its greatest sequence number is tied |
| `InputBuffering.InputBuffer.EvictBeforeTick` | crates/server/src/input_buffer.rs:133-135 | keeps exactly the entries of the tick and later |
| `InputBuffering.AdmitMeetsSpec` | crates/server/src/input_buffer.rs:63-113 | arrival by arrival the entry is the one described by the first greatest sequence number of the admitted commands; accepted iff fewer than max(1, limit) came before |
| `ArrivalOrder.OrderFreeExact` | crates/server/src/input_buffer.rs:63-130 | for every list of commands, limit and arithmetic: no reordering changes the selection iff there is at most one, or all are admitted and the winner is tied or survives a second clamp, or the one admitted is the same whichever it is, or every choice that the limit admits is tied |
| `ArrivalOrder.ArrivalOrderIndependence` | crates/server/src/input_buffer.rs:63-130 | if clamping the winner twice is clamping it once, all permutations of at most max(1, limit) commands select the same command, and none iff the greatest number is shared |
| `ArrivalOrder.OrderIndependenceExact` | crates/server/src/input_buffer.rs:68-92 | this holds for all lists of n usable commands iff n is at most 1, or all n are admitted and clamping twice is clamping once for every usable direction |
| `ArrivalOrder.LimitDecides` | crates/server/src/input_buffer.rs:68-73 | a reordering past the limit that changes the selection |
| `ArrivalOrder.ClampDecides` | crates/server/src/input_buffer.rs:88-92 | a reordering within the limit that changes the selection when clamping twice is not clamping once |
| `ArrivalOrder.RealsClampIdempotent` | crates/server/src/input_buffer.rs:154-164 | over the reals clamping twice is clamping once |
| `Duplicates.RepeatExact` | crates/server/src/input_buffer.rs:63-130 | for every arithmetic, limit and list: a copy of a command, anywhere behind the original, leaves the selection as it was iff it is not admitted; or all are admitted, the copy is not the newest, and the winner arrived later or survives one more clamp; or the command it shuts out would not have changed the winner either; or the greatest number was tied anyway |
| `Duplicates.RepeatedLoserShows` | crates/server/src/input_buffer.rs:88-92 | repeating the older of two commands changes the selection if clamping the newer one twice is not clamping it once |
| `Duplicates.RepeatShutsOut` | crates/server/src/input_buffer.rs:68-71 | with default settings a copy of the first of three commands shuts out a fourth and newest, so that the third is selected |
| `Neighbours.SwapExact` | crates/server/src/input_buffer.rs:63-130 | two neighbouring arrivals for a key may change places without changing the selection iff neither is admitted, or only one is and either would do, or both are and neither wins untied or the clamp it gains or loses does not show |
| `Deliveries.DeliveriesExact` | crates/server/src/lib.rs:333-414 | two runs equal but for their commands are both legal or neither, and record the same inputs iff on every stepped tick the winning commands point the same way; then the servers are equal in everything but the buffer |
| `Redelivery.RepeatInRun` | crates/server/src/lib.rs:333-414 | a second delivery of an offered command leaves a run's recording as it was iff it fails a check, its tick is not stepped, it is harmless for its key, or a different command wins and points the same way |
| `Redelivery.SwapInRun` | crates/server/src/lib.rs:333-414 | two neighbouring deliveries in the other order leave the recording as it was iff they are not for one player and tick, that tick is not stepped, the swap is harmless for their key, or different commands win and point the same way |
| `Binary64.ClampNotIdempotent` | crates/server/src/input_buffer.rs:154-164 | rounding to nearest in binary64, the clamped [19, 260] is clamped to something else again |
| `Binary64.OrderMattersExact` | crates/server/src/input_buffer.rs:88-92 | with such rounding order is irrelevant for all lists of n commands iff n is at most 1, whatever the limit |
| `Binary64.RepeatShows` | crates/server/src/input_buffer.rs:88-92 | with such rounding a repeated [1, 0] changes what is selected after [1, 0], [19, 260], at any limit from 3 up |
| `NearestNumbers.RoundingExists` | crates/server/src/input_buffer.rs:154-164 | there is arithmetic that rounds to nearest as `Binary64` asks: next to every real and every root there is a nearest binary64 number |
| `InputBuffering.DivCeilLeast` | crates/server/src/input_buffer.rs:42-53 | the per-tick limit is the least number of ticks' worth that covers the rate |
| `RecordingOrder.CanonicalExact` | crates/server/src/lib.rs:377-414 | the recorded inputs are ordered by tick and then player id iff the ids handed out before the last step were handed out in ascending order |
| `RecordingOrder.MappingOrderExact` | crates/replay/src/lib.rs:191-198 | the artifact's entity mapping is ordered by player id iff all ids were handed out in ascending order |
| `RecordingOrder.DefaultIdsCanonical` | crates/server/src/lib.rs:246-255 | without test ids both are always in order |
| `RecordingOrder.NotCanonical` | crates/server/src/lib.rs:377-414 | with test ids 99 and 17 the one tick of a run is recorded as 99, 17, and so is the entity mapping |
| `Handshake.PreWelcomeExact` | crates/server/src/lib.rs:333-346 | only welcomed sessions are heard iff every live session whose window is open has been welcomed |
| `Handshake.HeardTooEarly` | crates/server/src/lib.rs:333-346 | a command of a session that was accepted and not yet welcomed reaches the buffer |
| `Validation.ValidateInput` | crates/server/src/validation.rs:74-127 | the checks in order, the first failing one naming the reason, ending in the buffer |
| `Validation.VerdictExplained` | crates/server/src/validation.rs:74-127 | for every command and buffer: the first failing check with the values compared, or the new entry and whether the winner was shortened |
| `Simulation.World.SpawnCharacter` | crates/sim/src/lib.rs:258-269 | a fresh greatest entity id, appended, the order kept |
| `Simulation.World.AdvanceTick` | crates/sim/src/lib.rs:309-342 | the world after one tick and its snapshot |
| `Simulation.World.Move` | crates/sim/src/lib.rs:383-405 | one player's first character moves by its intent, axis by axis: velocity five times the clamped intent, position plus velocity times dt; every other character stays |
| `Simulation.MovementMovesOne` | crates/sim/src/lib.rs:383-405 | the same of the specification function |
| `Motion.VelocityOverReals` | crates/sim/src/lib.rs:383-426 | over the reals the velocity is five times the intent, or five times the unit vector in its direction, and the position follows it |
| `Motion.SpeedLimit` | crates/sim/src/lib.rs:416-426 | over the reals no velocity is longer than five |
| `Motion.StepMovesCharacter` | crates/server/src/lib.rs:377-424 | in every run, until the next step, character i is where the input recorded for its player on the last tick took it, for any arithmetic |
| `Motion.VelocityInRun` | crates/sim/src/lib.rs:383-426 | over the reals, in every run, the velocity is five times the recorded input, shortened to length one if longer |
| `Simulation.World.CurrentDigest` | crates/sim/src/lib.rs:351-375 | the digest is FNV-1a of the canonical encoding of tick and characters |
| `Simulation.SpawnOrdered` | crates/sim/src/lib.rs:258-269 | spawning keeps characters strictly ascending, so the sort changes nothing |
| `Simulation.AdvanceOrdered` | crates/sim/src/lib.rs:309-342 | advancing keeps characters strictly ascending by entity id |
| `Simulation.EncodingInjective` | crates/sim/src/lib.rs:351-375 | two worlds feed the hasher the same bytes iff tick and entity list agree up to signed zeros and NaNs |
| `Simulation.DigestSensitivity` | crates/sim/src/lib.rs:351-375 | indistinguishable worlds share a digest, and equal-length encodings differing in one byte never do |
| `Float64.CanonicalEquivalence` | crates/sim/src/lib.rs:157-169 | canonicalisation identifies the NaNs, identifies the zeros, and nothing else |
| `Float64.CanonicalPattern` | crates/sim/src/lib.rs:157-169 | what stands for each class: 0x7ff8000000000000 for a NaN, 0 for a zero, and everything else for itself |
| `Layout.EncodingLayout` | crates/sim/src/lib.rs:351-375 | the hashed bytes: the tick first, then 40 bytes a character with id, position and velocity, each word least significant byte first |
| `Layout.EmptyWorldDigest` | crates/sim/src/lib.rs:351-375 | a fresh world's digest is 0xa8c7f832281a39c5 |
| `Digest.Fnv1a64.Update` | crates/sim/src/lib.rs:139-144 | the loop computes the fold of the byte step |
| `Digest.StepMultiplies` | crates/sim/src/lib.rs:122-144 | a zero byte multiplies the state by 0x100000001b3 modulo 2^64 |
| `Digest.StepXorsFirst` | crates/sim/src/lib.rs:139-144 | any byte is first xored into the low eight bits, bit by bit, and then multiplied as a zero byte is |
| `Digest.PublishedValues` | crates/sim/src/lib.rs:119-148 | the published hashes of the empty message and of "a" |
| `Digest.StepBijective` | crates/sim/src/lib.rs:139-144 | xor with a byte and multiplication by the prime modulo 2^64 is undone by 0xce965057aff6957b, both ways |
| `Digest.FnvInjective` | crates/sim/src/lib.rs:139-144 | updating with fixed bytes is injective in the starting state |
| `Digest.OneByteChangesHash` | crates/sim/src/lib.rs:139-144 | changing one byte of the input always changes the hash |
| `Frozen.StaysPutExact` | crates/server/src/lib.rs:312-324 | for any arithmetic with f64's zero, when a session leaves, its character is where it was in every continuation iff each of its player's buffered commands is tied or displaces nothing from that place |
| `Frozen.FreezeExact` | crates/server/src/lib.rs:312-324 | over the reals, when a session leaves, its character is where it was in every continuation iff each of its player's buffered commands is tied or asks for no motion |
| `Freeze.IdleExact` | crates/server/src/lib.rs:317-324 | for any arithmetic, every input applied for the departed player is zero in every continuation iff the same holds |
| `Frozen.FrozenInPlace` | crates/server/src/lib.rs:377-409 | if adding zero leaves the character's own two coordinates alone, a player who leaves no moving command keeps its position for good and has velocity zero from the next step on |
| `Frozen.PlacesSettled` | crates/sim/src/lib.rs:309-405 | no character of any run is at a coordinate, such as minus zero, that adding zero would change |
| `Frozen.StillMoving` | crates/server/src/lib.rs:312-324 | a run whose character is at the origin when its session leaves and at (5/60, 0) two steps later |
| `Distance.DistanceBound` | crates/sim/src/lib.rs:383-426 | over the reals, k steps after it appeared every character is within k * 5 / tick_rate_hz of the origin |
| `Plane.ClampedUnit` | crates/sim/src/lib.rs:416-426 | over the reals the clamped direction has length at most one |
| `Client.TickFloor.Observe` | crates/client/src/tick_floor.rs:30-32 | the floor becomes the greater of itself and what was received |
| `Client.InputSeqGen.Advance` | crates/client/src/input.rs:31-34 | sequence numbers go up by one |
| `Client.PollSnapshot` | crates/client/src/state.rs:90-113 | the drain loop returns the newest usable snapshot |
| `Client.LatestIsFirstGreatest` | crates/client/src/state.rs:118-120 | the newest snapshot is the first of those with the greatest tick, and there is none iff no event carries one |
| `ClosedLoop.FloorSafety` | crates/client/src/state.rs:80-113 | with snapshots lost, repeated or reordered, a client's floor is at most its session's, and keeping the newest snapshot equals taking in all |
| `ClosedLoop.ClientMonotone` | crates/client/src/tick_floor.rs:28-32 | the client's floor never decreases |
| `ClosedLoop.RejectedWasStale` | crates/client/src/input.rs:37-41 | a targeted command rejected below the floor was sent with a client floor strictly under the server's at receipt, and that floor had been sent at a tick before the server's |
| `ClosedLoop.FloorWasSent` | crates/client/src/tick_floor.rs:19-32 | a client's floor is always one that the server sent it |
| `Duplicates.RepeatedWinnerDropped` | crates/server/src/input_buffer.rs:79-85 | a repeated delivery of the winning command within the limit makes the server select nothing |
| `MatchStates.MatchState.ApplyBaseline` | client/match/match_state.gd:16-20 | tick and table are those of the baseline |
| `MatchStates.TableExact` | client/match/match_state.gd:16-20 | the table holds each id's last entry and no other id |
| `MatchStates.MatchState.ApplySnapshot` | client/match/match_state.gd:27-34 | applied iff strictly newer, and then tick and table are those of the snapshot |
| `MatchStates.DrainIsHarmless` | client/match/match_state.gd:23-34 | applying only the newest snapshot of a drain shows what applying each in turn shows |
| `MatchStates.DrainsCompose` | client/match/match_state.gd:23-34 | however events are cut into drains, the client shows what one drain of all of them would |
| `ServerWire.SnapshotReachesClient` | crates/server/src/lib.rs:438-455 | after any step, a client that applies the decoded broadcast shows this tick and exactly the world's characters, floats bit for bit, and reads the floor and the digest |
| `ServerWire.BroadcastAnnounces` | crates/server/src/lib.rs:427-455 | decoding a step's bytes gives the world's tick, the floor, the state digest and every character, for all 64-bit patterns |
| `SentMessages.RunSends` | crates/server/src/lib.rs:427-455 | in every run the tick and floor read in a step's bytes are what the closed loop has as sent to every live session |
| `SentMessages.WelcomeSent` | crates/server/src/lib.rs:289-299 | and so is a welcome's floor, for its own session only |
| `ServerWire.BaselineReachesClient` | crates/server/src/lib.rs:468-471 | a joining client that applies the decoded baseline shows exactly the world and has its digest |
| `ServerWire.WelcomeReachesClient` | crates/server/src/lib.rs:294-299 | every number of a welcome arrives, for all 64-bit patterns |
| `Varint.UnsignedShrIsLogical` | client/net/wire/byte_writer.gd:17-18 | the emulated shift is the logical shift for every word and every distance from 1 to 63 |
| `Varint.TenBytes` | client/net/wire/byte_writer.gd:23-31 | no pattern takes more than ten bytes |
| `Varint.VarintByte` | client/net/wire/byte_writer.gd:23-31 | byte i holds bits 7 * i and up, with the top bit set on all but the last |
| `Varint.VarintRoundTrip` | client/net/wire/byte_reader.gd:21-31 | reading a written varint gives the exact pattern and its length, whatever follows |
| `WireIO.ByteWriter.WriteVarint` | client/net/wire/byte_writer.gd:23-31 | the loop terminates and appends the varint of the value's pattern |
| `WireIO.ByteWriter.WriteTag` | client/net/wire/byte_writer.gd:35-36 | appends the varint of 8 * number + wire type |
| `WireIO.ByteReader.ReadVarint` | client/net/wire/byte_reader.gd:21-31 | consumes exactly the varint and returns its pattern as a signed word |
| `WireIO.ByteReader.ReadTag` | client/net/wire/byte_reader.gd:35-37 | splits the tag into field number and wire type |
| `WireIO.ByteReader.SkipField` | client/net/wire/byte_reader.gd:54-66 | steps over exactly one payload of the wire type |
| `WireFormat.FieldsRoundTrip` | client/net/wire/wire_format.gd:8-11 | printed fields parse back exactly, to the last byte |
| `WireLayout.WelcomeEncoded` | client/net/wire/codec.gd:36-50 | in the encoded bytes, numbers 1 to 4 carry target_tick_floor, tick_rate_hz, player_id and controlled_entity_id, zeros and empty lists left out, in ascending order and nothing else |
| `WireLayout.WelcomeFold` | client/net/wire/codec.gd:53-71 | in whatever well-formed fields are read, numbers 1 to 4 carry target_tick_floor, tick_rate_hz, player_id and controlled_entity_id; the last one of a number counts, a missing one is zero or empty, and entities are appended in order |
| `WireBytes.WelcomeBytes` | client/net/wire/codec.gd:36-50 | the literal bytes of a message with numbers below 128 |
| `WireLayout.EntityEncoded` | client/net/wire/codec.gd:78-85 | in the encoded bytes, number 1 carries the id, 2 the position and 3 the velocity, zeros and empty lists left out, in ascending order and nothing else |
| `WireLayout.EntityFold` | client/net/wire/codec.gd:88-104 | in whatever well-formed fields are read, number 1 carries the id, 2 the position and 3 the velocity; the last one of a number counts and a missing one is zero or empty |
| `WireBytes.EntityBytes` | client/net/wire/codec.gd:78-85 | the literal bytes of a message with numbers below 128 |
| `WireLayout.BaselineEncoded` | client/net/wire/codec.gd:111-124 | in the encoded bytes, number 1 carries the tick, 2 each nested entity and 3 the digest, zeros and empty lists left out, in ascending order and nothing else |
| `WireLayout.BaselineFold` | client/net/wire/codec.gd:127-144 | in whatever well-formed fields are read, number 1 carries the tick, 2 each nested entity and 3 the digest; the last one of a number counts, a missing one is zero or empty, and entities are appended in order |
| `WireBytes.BaselineBytes` | client/net/wire/codec.gd:111-124 | the literal bytes of a message with numbers below 128 |
| `WireLayout.InputEncoded` | client/net/wire/codec.gd:151-160 | in the encoded bytes, number 1 carries the tick, 2 the sequence number and 3 the direction, zeros and empty lists left out, in ascending order and nothing else |
| `WireLayout.InputFold` | client/net/wire/codec.gd:163-179 | in whatever well-formed fields are read, number 1 carries the tick, 2 the sequence number and 3 the direction; the last one of a number counts and a missing one is zero or empty |
| `WireBytes.InputBytes` | client/net/wire/codec.gd:151-160 | the literal bytes of a message with numbers below 128 |
| `WireLayout.SnapshotEncoded` | client/net/wire/codec.gd:186-202 | in the encoded bytes, number 1 carries the tick, 2 each nested entity, 3 the digest and 4 the floor, zeros and empty lists left out, in ascending order and nothing else |
| `WireLayout.SnapshotFold` | client/net/wire/codec.gd:205-224 | in whatever well-formed fields are read, number 1 carries the tick, 2 each nested entity, 3 the digest and 4 the floor; the last one of a number counts, a missing one is zero or empty, and entities are appended in order |
| `WireBytes.SnapshotBytes` | client/net/wire/codec.gd:186-202 | the literal bytes of a message with numbers below 128 |
| `WireLayout.PackedBytes` | client/net/wire/codec.gd:235-241 | byte k of double i is bits 8 * k and up of its pattern |
| `WireBytes.RightwardBytes` | client/net/wire/codec.gd:151-160 | tick 7, number 1, direction [1, 0] are the 22 bytes 08 07 10 01 1A 10 00 00 00 00 00 00 F0 3F and eight zeros |
| `WireMessages.WelcomeRoundTrip` | client/net/wire/codec.gd:36-71 | every welcome survives encoding and decoding |
| `WireMessages.EntityRoundTrip` | client/net/wire/codec.gd:78-104 | every entity survives, empty and all-zero lists kept apart |
| `WireMessages.BaselineRoundTrip` | client/net/wire/codec.gd:111-144 | every baseline survives, with any number of entities |
| `WireMessages.InputRoundTrip` | client/net/wire/codec.gd:151-179 | every command survives |
| `WireMessages.SnapshotRoundTrip` | client/net/wire/codec.gd:186-224 | every snapshot survives, with any number of entities and any 64-bit patterns |
| `WireMessages.ForwardCompatible` | client/net/wire/codec.gd:222-223 | unknown well-formed fields of any wire type, anywhere between the known ones, do not change what is decoded |
| `WireMessages.WelcomeForward` | client/net/wire/codec.gd:69-70 | any field list whose known fields are those of a welcome decodes to that welcome |
| `WireMessages.EntityForward` | client/net/wire/codec.gd:102-103 | any field list whose known fields are those of an entity decodes to that entity |
| `WireMessages.InputForward` | client/net/wire/codec.gd:177-178 | any field list whose known fields are those of a command decodes to that command |
| `WireMessages.BaselineForward` | client/net/wire/codec.gd:142-143 | likewise for baselines: unknown fields between the nested entities are skipped |
| `WireMessages.SnapshotForward` | client/net/wire/codec.gd:205-224 | any field list whose known fields are those of a snapshot decodes to that snapshot |
| `WireMessages.SnapshotForwardDeep` | client/net/wire/codec.gd:205-224 | unknown fields between a snapshot's fields and between those of each nested entity, all at once, change nothing |
| `WireMessages.BaselineForwardDeep` | client/net/wire/codec.gd:127-144 | likewise for a baseline and each of its nested entities |
| `WireMessages.SnapshotSplice` | client/net/wire/codec.gd:205-224 | in bytes: an unknown field put in at a field boundary of an encoded snapshot is skipped |
| `WireCodec.EncodeServerWelcome` | client/net/wire/codec.gd:36-50 | the bytes are the serialised fields: numbers 1 to 4 carry target_tick_floor, tick_rate_hz, player_id and controlled_entity_id; their literal bytes where the numbers are below 128 |
| `WireCodec.DecodeServerWelcome` | client/net/wire/codec.gd:53-71 | the loop folds every field into the message: numbers 1 to 4 carry target_tick_floor, tick_rate_hz, player_id and controlled_entity_id, the last one of a number counting, unknown numbers skipped |
| `WireCodec.EncodeEntitySnapshotProto` | client/net/wire/codec.gd:78-85 | the bytes are the serialised fields: number 1 carries the id, 2 the position and 3 the velocity; their literal bytes where the numbers are below 128 |
| `WireCodec.DecodeEntitySnapshotProto` | client/net/wire/codec.gd:88-104 | the loop folds every field into the message: number 1 carries the id, 2 the position and 3 the velocity, the last one of a number counting, unknown numbers skipped |
| `WireCodec.EncodeJoinBaseline` | client/net/wire/codec.gd:111-124 | the bytes are the serialised fields: number 1 carries the tick, 2 each nested entity and 3 the digest; their literal bytes where the numbers are below 128 |
| `WireCodec.DecodeJoinBaseline` | client/net/wire/codec.gd:127-144 | the loop folds every field into the message: number 1 carries the tick, 2 each nested entity and 3 the digest, the last one of a number counting, unknown numbers skipped |
| `WireCodec.EncodeInputCmdProto` | client/net/wire/codec.gd:151-160 | the bytes are the serialised fields: number 1 carries the tick, 2 the sequence number and 3 the direction; their literal bytes where the numbers are below 128 |
| `WireCodec.DecodeInputCmdProto` | client/net/wire/codec.gd:163-179 | the loop folds every field into the message: number 1 carries the tick, 2 the sequence number and 3 the direction, the last one of a number counting, unknown numbers skipped |
| `WireCodec.EncodeSnapshotProto` | client/net/wire/codec.gd:186-202 | the bytes are the serialised fields: number 1 carries the tick, 2 each nested entity, 3 the digest and 4 the floor; their literal bytes where the numbers are below 128 |
| `WireCodec.DecodeSnapshotProto` | client/net/wire/codec.gd:205-224 | the loop folds every field into the message: number 1 carries the tick, 2 each nested entity, 3 the digest and 4 the floor, the last one of a number counting, unknown numbers skipped |
| `WireCodec.WritePackedDoubles` | client/net/wire/codec.gd:235-241 | nothing for an empty list, otherwise tag, byte length and eight bytes per double |
| `WireCodec.ReadPackedDoubles` | client/net/wire/codec.gd:244-250 | reads back the doubles of the payload and ends behind it |

## Left out

- `Verifier.VerifyReplay`: requires a positive tick rate and a baseline at tick 0 (or nothing to replay), because the source panics otherwise; error reasons are data instead of formatted text.
- `Tampering.OtherCheckpoint`: requires that somebody joined; without any character only the hash of two different ticks tells the checkpoints apart.
- `Binary64.ClampNotIdempotent`: the arithmetic is on the finite binary64 numbers with one zero and without overflow, and says nothing of results beyond 2^1023.
- `ServerEdge.Server.AcceptSession`: requires what the source panics without: a free session slot, an ordinal below 255, and a configured test id if test ids are used.
- `ServerEdge.Server.Step`: its bytes are the published encoding of the message; prost itself is not part of this model.
- `Interference.NonInterference`: requires distinct player ids, as do the trace and the trajectory results; with a shared test id two sessions feed one buffer key.
- `Frozen.StaysPutExact`: requires that no two sessions will ever share a player id, as `FreezeExact`, `IdleExact` and `FrozenInPlace` do; and that zero keeps a place reached by sums from zero, which holds over the reals (`RealsHaveZeroLaws`) and in f64.
- `WireIO.ByteReader.ReadVarint`: requires a varint of at most ten bytes at the reader's position; the source does no bounds checks, so truncated and malformed bytes are not modelled.
- `WireCodec.DecodeSnapshotProto`: requires bytes that parse to their end and the proper wire type in every known field, as the other decoders do.
- `WireCodec.EncodeSnapshotProto`: requires double lists below 2^48 elements, so that byte counts are signed words, as the other encoders do.
- `Distance.DistanceBound`: over the reals; how far rounding can exceed the bound is not modelled.
- u64 overflow of ticks, sequence numbers and entity ids: a precondition of the methods; the specifications use natural numbers.
- f64 addition, multiplication, division and square root bit by bit: uninterpreted, or exact over the reals or rounded to nearest where a result says so.
- The session tables of `Server` are grouped in one record, `Registry`; its second copy of the build fingerprint and the connect timeout, which nothing reads, are dropped.
- `InputSeqTie` and `DroppedInputSeqTie`: kept as values, but no code produces them; nor is there code for the per-session tick monotonicity check of the documentation.
- Messages of the client are values where the source has objects; `ClientHello`, which has no fields, is omitted.
- ENet, sockets, pacing and the tick loop: the network appears as the order of events, and in `ClosedLoop` as any selection of the messages sent.
- SHA-256 fingerprints, file reading and writing, and the environment: a fingerprint is compared for equality only.
- Godot scenes, input capture and the Python scripts.
