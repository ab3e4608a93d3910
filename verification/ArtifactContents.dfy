/** What a match's artifact says, field by field, for every run of the server. */
module ArtifactContents {
  import opened Wrappers
  import opened Sequences
  import opened Float64
  import opened Simulation
  import opened Replay
  import opened ServerModel
  import opened ServerRuns
  import opened RecordThenVerify

  // The baseline.

  lemma {:induction false} SpawnAllCharacters<F>(ar: Arith<F>, w: WorldState<F>, players: seq<PlayerId>)
    requires w.characters == [] && w.nextEntityId == 1
    ensures
      var all := SpawnAll(ar, w, players);
      && |all.characters| == |players| && all.tick == w.tick
      && forall i :: 0 <= i < |players| ==> all.characters[i] == NewCharacter(ar, i + 1, players[i])
  {
    if players == [] {
    } else {
      SpawnAllCharacters(ar, w, players[..|players| - 1]);
      SpawnAllIds(ar, w, players[..|players| - 1]);
    }
  }

  /** Once a step was taken, the recorded baseline is the world as the starters found it. */
  lemma {:induction false} BaselineOfStarters<F>(ar: Arith<F>, config: ServerConfig, evs: seq<Event<F>>)
    requires Legal(ar, config, evs) && Steps(evs) > 0
    ensures Enrollable(config, Starters(evs))
    ensures After(ar, config, evs).recorder.initialBaseline == Some(BaselineOf(ar, InitialWorld(ar, config, Roster(config, Starters(evs)))))
  {
    var before, e := Front(evs), Last(evs);
    var s := After(ar, config, before);
    RunLast(ar, config, evs);
    RunTicks(ar, config, evs);
    BeforeEvent(ar, config, before, s);
    if Steps(before) == 0 {
      RunRecording(ar, config, before);
      StepParts(ar, s, 0);
    } else {
      BaselineOfStarters(ar, config, before);
      BaselineKept(ar, s, e);
    }
  }

  lemma BaselineKept<F>(ar: Arith<F>, s: ServerState<F>, e: Event<F>)
    requires s.config.tickRateHz > 0 && Enabled(s, e) && s.baselineRecorded
    ensures Apply(ar, s, e).recorder.initialBaseline == s.recorder.initialBaseline
  {
  }

  /** The starters at the origin, with entity ids 1, 2, ..., at tick 0. */
  ghost predicate StartersAtOrigin<F>(ar: Arith<F>, b: JoinBaseline<F>, starters: nat) {
    && b.tick == 0 && |b.entities| == starters
    && forall i :: 0 <= i < starters ==>
         b.entities[i] == EntitySnapshotProto(i + 1, [ar.ofInt(0), ar.ofInt(0)], [ar.ofInt(0), ar.ofInt(0)])
  }

  lemma BaselineContents<F>(ar: Arith<F>, config: ServerConfig, evs: seq<Event<F>>)
    requires Legal(ar, config, evs) && Steps(evs) > 0
    ensures
      var b := After(ar, config, evs).recorder.initialBaseline;
      b.Some? && StartersAtOrigin(ar, BaselineProto(b.value), Starters(evs))
  {
    BaselineOfStarters(ar, config, evs);
    SpawnAllCharacters(ar, NewWorld(ar, config.seed, config.tickRateHz), Roster(config, Starters(evs)));
  }

  // The artifact.

  /** What does not depend on what happened. */
  ghost predicate Constants<F>(ar: Arith<F>, config: ServerConfig, a: ReplayArtifact<F>) {
    && a.replayFormatVersion == 1
    && a.seed == config.seed && a.tickRateHz == config.tickRateHz
    && a.rngAlgorithm == "none" && a.stateDigestAlgoId == "statedigest-v0-fnv1a64-le-f64canon-eidasc-posvel"
    && a.tuningParameters == [TuningParameter("move_speed", ar.ofInt(5))]
    && a.endReason == "complete"
    && a.testMode == config.testMode
    && a.testPlayerIds == (if config.testPlayerIds.Some? then config.testPlayerIds.value else [])
  }

  /** Session i + 1 got the i-th id and the entity i + 1. */
  ghost predicate Joined<F>(config: ServerConfig, a: ReplayArtifact<F>, joins: nat) {
    && |a.entitySpawnOrder| == |a.playerEntityMapping| == joins && Enrollable(config, joins)
    && forall i :: 0 <= i < joins ==>
         && a.entitySpawnOrder[i] == (if config.testPlayerIds.Some? then config.testPlayerIds.value[i] else i)
         && a.playerEntityMapping[i] == PlayerEntityMapping(a.entitySpawnOrder[i], i + 1)
  }

  /** Every recorded input with its tick, its player, its two components and whether it was a fallback. */
  ghost predicate Inputs<F>(a: ReplayArtifact<F>, inputs: seq<AppliedInput<F>>) {
    && |a.inputs| == |inputs|
    && forall i :: 0 <= i < |inputs| ==>
         a.inputs[i] == AppliedInputProto(inputs[i].tick, inputs[i].playerId, [inputs[i].moveDir.x, inputs[i].moveDir.y], inputs[i].isFallback)
  }

  lemma JoinedContents<F>(ar: Arith<F>, config: ServerConfig, evs: seq<Event<F>>, s: ServerState<F>)
    requires RosterInv(config, evs, s)
    ensures Joined(config, Finalize(ar, s), Joins(evs))
  {
  }

  lemma StateContents<F>(ar: Arith<F>, config: ServerConfig, s: ServerState<F>)
    requires s.recorder.config == config.ToReplay() && s.world.seed == config.seed
    ensures Constants(ar, config, Finalize(ar, s)) && Inputs(Finalize(ar, s), s.recorder.inputs)
  {
    assert forall ids: seq<PlayerId> :: Map(Widen, ids) == ids;
  }

  /** The artifact of every run. */
  lemma RunContents<F>(ar: Arith<F>, config: ServerConfig, evs: seq<Event<F>>)
    requires Legal(ar, config, evs)
    ensures
      var s := After(ar, config, evs);
      var a := Finalize(ar, s);
      && Constants(ar, config, a) && Joined(config, a, Joins(evs)) && Inputs(a, s.recorder.inputs)
      && a.buildFingerprint == LastFingerprint(evs)
      && a.checkpointTick == Steps(evs) && a.finalDigest == StateDigest(ar, s.world)
      && (if Steps(evs) == 0 then a.initialBaseline.None?
          else a.initialBaseline.Some? && StartersAtOrigin(ar, a.initialBaseline.value, Starters(evs)))
  {
    var s := After(ar, config, evs);
    RunKeepsInvariant(ar, config, evs);
    JoinedContents(ar, config, evs, s);
    StateContents(ar, config, s);
    ArtifactOf(ar, config, evs, s);
    if Steps(evs) > 0 { BaselineContents(ar, config, evs); }
  }
}
