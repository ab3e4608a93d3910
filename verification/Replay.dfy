/** Replay artifacts: the recorder that produces them and the records they are made of. */
module Replay {
  import opened Wrappers
  import opened Words
  import opened Sequences
  import opened Float64
  import opened Simulation

  datatype AppliedInput<F> = AppliedInput(tick: nat, playerId: PlayerId, moveDir: Vec2<F>, isFallback: bool) {
    function ToStepInput(): StepInput<F> { StepInput(playerId, moveDir) }

    function ToProto(): AppliedInputProto<F> {
      AppliedInputProto(tick, playerId, [moveDir.x, moveDir.y], isFallback)
    }
  }

  // Wire records. Player ids are `u32` there.

  datatype AppliedInputProto<F> = AppliedInputProto(tick: nat, playerId: nat, moveDir: seq<F>, isFallback: bool) {
    /** `try_from`; `as PlayerId` keeps the low 8 bits. */
    function ToApplied(): Option<AppliedInput<F>> {
      if |moveDir| != 2 then None
      else Some(AppliedInput(tick, playerId % 256, Vec2(moveDir[0], moveDir[1]), isFallback))
    }
  }

  datatype EntitySnapshotProto<F> = EntitySnapshotProto(entityId: nat, position: seq<F>, velocity: seq<F>)

  datatype JoinBaseline<F> = JoinBaseline(tick: nat, entities: seq<EntitySnapshotProto<F>>, digest: U64)

  datatype PlayerEntityMapping = PlayerEntityMapping(playerId: nat, entityId: nat)

  datatype TuningParameter<F> = TuningParameter(key: string, value: F)

  datatype BuildFingerprint = BuildFingerprint(binarySha256: string, targetTriple: string, profile: string, gitCommit: string)

  datatype ReplayArtifact<F> = ReplayArtifact(
    replayFormatVersion: nat,
    initialBaseline: Option<JoinBaseline<F>>,
    seed: nat,
    rngAlgorithm: string,
    tickRateHz: nat,
    stateDigestAlgoId: string,
    entitySpawnOrder: seq<nat>,
    playerEntityMapping: seq<PlayerEntityMapping>,
    tuningParameters: seq<TuningParameter<F>>,
    inputs: seq<AppliedInputProto<F>>,
    buildFingerprint: Option<BuildFingerprint>,
    finalDigest: U64,
    checkpointTick: nat,
    endReason: string,
    testMode: bool,
    testPlayerIds: seq<nat>)

  const STATE_DIGEST_ALGO_ID := "statedigest-v0-fnv1a64-le-f64canon-eidasc-posvel"

  datatype ReplayConfig = ReplayConfig(
    seed: nat, tickRateHz: nat, rngAlgorithm: string, testMode: bool, testPlayerIds: seq<PlayerId>)

  datatype RecorderState<F> = RecorderState(
    config: ReplayConfig,
    entitySpawnOrder: seq<PlayerId>,
    playerEntityMapping: seq<(PlayerId, nat)>,
    initialBaseline: Option<Baseline<F>>,
    inputs: seq<AppliedInput<F>>,
    buildFingerprint: Option<BuildFingerprint>)

  function NewRecorder<F>(config: ReplayConfig): RecorderState<F> {
    RecorderState(config, [], [], None, [], None)
  }

  function BaselineProto<F>(b: Baseline<F>): JoinBaseline<F> {
    JoinBaseline(b.tick, Map(EntityProto, b.entities), b.digest)
  }

  function EntityProto<F>(e: EntitySnapshot<F>): EntitySnapshotProto<F> {
    EntitySnapshotProto(e.entityId, [e.position.x, e.position.y], [e.velocity.x, e.velocity.y])
  }

  function InputProto<F>(i: AppliedInput<F>): AppliedInputProto<F> { i.ToProto() }

  function MappingProto(m: (PlayerId, nat)): PlayerEntityMapping { PlayerEntityMapping(m.0, m.1) }

  function Widen(p: PlayerId): nat { p }

  function Artifact<F>(ar: Arith<F>, r: RecorderState<F>, finalDigest: U64, checkpointTick: nat, endReason: string): ReplayArtifact<F> {
    ReplayArtifact(
      1,
      if r.initialBaseline.None? then None else Some(BaselineProto(r.initialBaseline.value)),
      r.config.seed,
      r.config.rngAlgorithm,
      r.config.tickRateHz,
      STATE_DIGEST_ALGO_ID,
      Map(Widen, r.entitySpawnOrder),
      Map(MappingProto, r.playerEntityMapping),
      [TuningParameter("move_speed", ar.ofInt(MOVE_SPEED))],
      Map(InputProto, r.inputs),
      r.buildFingerprint,
      finalDigest,
      checkpointTick,
      endReason,
      r.config.testMode,
      Map(Widen, r.config.testPlayerIds))
  }

  class ReplayRecorder<F> {
    const config: ReplayConfig
    var entitySpawnOrder: seq<PlayerId>
    var playerEntityMapping: seq<(PlayerId, nat)>
    var initialBaseline: Option<Baseline<F>>
    var inputs: seq<AppliedInput<F>>
    var buildFingerprint: Option<BuildFingerprint>

    ghost function State(): RecorderState<F>
      reads this
    {
      RecorderState(config, entitySpawnOrder, playerEntityMapping, initialBaseline, inputs, buildFingerprint)
    }

    constructor (config: ReplayConfig)
      ensures State() == NewRecorder(config)
    {
      this.config := config;
      entitySpawnOrder, playerEntityMapping, initialBaseline, inputs, buildFingerprint := [], [], None, [], None;
    }

    method RecordSpawn(playerId: PlayerId, entityId: nat)
      modifies this
      ensures State() == old(State()).(entitySpawnOrder := old(entitySpawnOrder) + [playerId],
                                       playerEntityMapping := old(playerEntityMapping) + [(playerId, entityId)])
    {
      entitySpawnOrder := entitySpawnOrder + [playerId];
      playerEntityMapping := playerEntityMapping + [(playerId, entityId)];
    }

    method RecordBaseline(baseline: Baseline<F>)
      modifies this
      ensures State() == old(State()).(initialBaseline := Some(baseline))
    {
      initialBaseline := Some(baseline);
    }

    method RecordInput(input: AppliedInput<F>)
      modifies this
      ensures State() == old(State()).(inputs := old(inputs) + [input])
    {
      inputs := inputs + [input];
    }

    method SetBuildFingerprint(fingerprint: BuildFingerprint)
      modifies this
      ensures State() == old(State()).(buildFingerprint := Some(fingerprint))
    {
      buildFingerprint := Some(fingerprint);
    }

    method Finalize(ar: Arith<F>, finalDigest: U64, checkpointTick: nat, endReason: string) returns (artifact: ReplayArtifact<F>)
      ensures artifact == Artifact(ar, State(), finalDigest, checkpointTick, endReason)
    {
      artifact := ReplayArtifact(
        1,
        if initialBaseline.None? then None else Some(BaselineProto(initialBaseline.value)),
        config.seed,
        config.rngAlgorithm,
        config.tickRateHz,
        STATE_DIGEST_ALGO_ID,
        Map(Widen, entitySpawnOrder),
        Map(MappingProto, playerEntityMapping),
        [TuningParameter("move_speed", ar.ofInt(MOVE_SPEED))],
        Map(InputProto, inputs),
        buildFingerprint,
        finalDigest,
        checkpointTick,
        endReason,
        config.testMode,
        Map(Widen, config.testPlayerIds));
    }
  }

  /** Recording an input in wire form loses nothing. */
  lemma AppliedInputRoundTrip<F>(i: AppliedInput<F>)
    ensures i.ToProto().ToApplied() == Some(i)
  {
  }
}
