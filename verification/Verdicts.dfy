/** The verdict on a replay artifact as a function of the artifact and the options. */
module Verdicts {
  import opened Wrappers
  import opened Words
  import opened Sequences
  import opened Float64
  import opened Simulation
  import opened Replay

  datatype StreamError =
    | MissingInput(player: nat, tick: nat)
    | DuplicateInput(player: nat, tick: nat)
    | OutsideRange(player: nat, tick: nat, from: nat, until: nat)
    | UnknownPlayer(player: nat)

  datatype VerifyError =
    | BuildMismatch(expected: string, actual: string)
    | MissingBaseline
    | InitializationAnchorMismatch(expectedDigest: U64, actualDigest: U64)
    | SpawnReconstructionMismatch(playerId: PlayerId, expectedEntity: nat, actualEntity: nat)
    | InputStreamInvalid(reason: StreamError)
    | FinalDigestMismatch(expectedFinal: U64, actualFinal: U64)
    | CheckpointTickMismatch(expectedTick: nat, actualTick: nat)
    | InvalidFormat

  type Verdict = Result<(), VerifyError>

  datatype VerifyOptions = VerifyOptions(strictBuildCheck: bool, currentBuild: Option<BuildFingerprint>)

  // Step 1: the build.

  predicate SameBuild(a: BuildFingerprint, b: BuildFingerprint) {
    a.binarySha256 == b.binarySha256 && a.targetTriple == b.targetTriple && a.profile == b.profile
  }

  /** Only two present fingerprints can disagree, and only strict mode minds. */
  predicate BuildAccepted(recorded: Option<BuildFingerprint>, options: VerifyOptions) {
    recorded.Some? && options.currentBuild.Some? && options.strictBuildCheck
    ==> SameBuild(recorded.value, options.currentBuild.value)
  }

  // Step 2: the input stream.

  function Occurrences<F>(inputs: seq<AppliedInputProto<F>>, p: nat, t: nat): nat {
    if inputs == [] then 0
    else
      var last := inputs[|inputs| - 1];
      Occurrences(inputs[..|inputs| - 1], p, t) + if last.playerId == p && last.tick == t then 1 else 0
  }

  function PlayerIds(mapping: seq<PlayerEntityMapping>): seq<nat> {
    Map((m: PlayerEntityMapping) => m.playerId, mapping)
  }

  function TicksError<F>(inputs: seq<AppliedInputProto<F>>, p: nat, from: nat, until: nat): Option<StreamError>
    decreases until - from
  {
    if from >= until then None
    else if Occurrences(inputs, p, from) == 0 then Some(MissingInput(p, from))
    else if Occurrences(inputs, p, from) > 1 then Some(DuplicateInput(p, from))
    else TicksError(inputs, p, from + 1, until)
  }

  function PlayersError<F>(inputs: seq<AppliedInputProto<F>>, players: seq<nat>, from: nat, until: nat): Option<StreamError> {
    if players == [] then None
    else if TicksError(inputs, players[0], from, until).Some? then TicksError(inputs, players[0], from, until)
    else PlayersError(inputs, players[1..], from, until)
  }

  function StraysError<F>(inputs: seq<AppliedInputProto<F>>, players: seq<nat>, from: nat, until: nat): Option<StreamError> {
    if inputs == [] then None
    else
      var i := inputs[0];
      if i.tick < from || i.tick >= until then Some(OutsideRange(i.playerId, i.tick, from, until))
      else if i.playerId !in players then Some(UnknownPlayer(i.playerId))
      else StraysError(inputs[1..], players, from, until)
  }

  function ValidateStream<F>(a: ReplayArtifact<F>): Verdict {
    if a.initialBaseline.None? then Err(MissingBaseline)
    else
      var from, until := a.initialBaseline.value.tick, a.checkpointTick;
      var players := PlayerIds(a.playerEntityMapping);
      var perPlayer := PlayersError(a.inputs, players, from, until);
      if perPlayer.Some? then Err(InputStreamInvalid(perPlayer.value))
      else
        var strays := StraysError(a.inputs, players, from, until);
        if strays.Some? then Err(InputStreamInvalid(strays.value)) else Ok(())
  }

  // Steps 3 to 5: the initial world.

  /** A later entry for a player replaces an earlier one. */
  function MappingTable(mapping: seq<PlayerEntityMapping>): map<nat, nat> {
    if mapping == [] then map[]
    else
      var last := mapping[|mapping| - 1];
      MappingTable(mapping[..|mapping| - 1])[last.playerId := last.entityId]
  }

  function Reconstruct<F>(ar: Arith<F>, w: WorldState<F>, table: map<nat, nat>, order: seq<nat>): Result<WorldState<F>, VerifyError>
    decreases |order|
  {
    if order == [] then Ok(w)
    else
      var p := order[0];
      if p in table && table[p] != w.nextEntityId then
        Err(SpawnReconstructionMismatch(p % 256, table[p], w.nextEntityId))
      else Reconstruct(ar, Spawn(ar, w, p % 256), table, order[1..])
  }

  // Steps 6 to 8: replaying the inputs.

  function ConvertInputs<F>(inputs: seq<AppliedInputProto<F>>): Option<seq<AppliedInput<F>>> {
    if inputs == [] then Some([])
    else
      var front := ConvertInputs(inputs[..|inputs| - 1]);
      var last := inputs[|inputs| - 1].ToApplied();
      if front.None? || last.None? then None else Some(front.value + [last.value])
  }

  /** The inputs of one tick, in stored order. */
  function AtTick<F>(inputs: seq<AppliedInput<F>>, tick: nat): seq<AppliedInput<F>> {
    if inputs == [] then []
    else
      var front := AtTick(inputs[..|inputs| - 1], tick);
      var last := inputs[|inputs| - 1];
      if last.tick == tick then front + [last] else front
  }

  function StepInputOf<F>(i: AppliedInput<F>): StepInput<F> { i.ToStepInput() }

  /** What one tick feeds the world: its inputs in player order. */
  function SortedStepInputs<F>(inputs: seq<AppliedInput<F>>): seq<StepInput<F>> {
    SortBy(PlayerKey, Map(StepInputOf, inputs))
  }

  function ReplayTicks<F>(ar: Arith<F>, w: WorldState<F>, inputs: seq<AppliedInput<F>>, from: nat, until: nat): WorldState<F>
    decreases until
  {
    if until <= from then w
    else Advance(ar, ReplayTicks(ar, w, inputs, from, until - 1), SortedStepInputs(AtTick(inputs, until - 1)))
  }

  function CheckOutcome<F>(ar: Arith<F>, a: ReplayArtifact<F>, w: WorldState<F>): Verdict {
    if w.tick != a.checkpointTick then Err(CheckpointTickMismatch(a.checkpointTick, w.tick))
    else if StateDigest(ar, w) != a.finalDigest then Err(FinalDigestMismatch(a.finalDigest, StateDigest(ar, w)))
    else Ok(())
  }

  function VerifyFrom<F>(ar: Arith<F>, a: ReplayArtifact<F>, baseline: JoinBaseline<F>): Verdict {
    var rebuilt := Reconstruct(ar, NewWorld(ar, a.seed, a.tickRateHz), MappingTable(a.playerEntityMapping), a.entitySpawnOrder);
    if rebuilt.Err? then Err(rebuilt.error)
    else if StateDigest(ar, rebuilt.value) != baseline.digest then
      Err(InitializationAnchorMismatch(baseline.digest, StateDigest(ar, rebuilt.value)))
    else
      var inputs := ConvertInputs(a.inputs);
      if inputs.None? then Err(InvalidFormat)
      else CheckOutcome(ar, a, ReplayTicks(ar, rebuilt.value, inputs.value, baseline.tick, a.checkpointTick))
  }

  function Verify<F>(ar: Arith<F>, a: ReplayArtifact<F>, options: VerifyOptions): Verdict {
    if !BuildAccepted(a.buildFingerprint, options) then
      Err(BuildMismatch(a.buildFingerprint.value.binarySha256, options.currentBuild.value.binarySha256))
    else if ValidateStream(a).Err? then ValidateStream(a)
    else VerifyFrom(ar, a, a.initialBaseline.value)
  }
}
