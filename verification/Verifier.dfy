/**
 `verify_replay`: rebuild the match from an artifact and check the outcome.

 `VerifyReplay` is the verifier's own procedure, with its lookup tables and early returns,
 proved to give the verdict of `Verify` and to accept just what `Accepts` describes.
 */
module Verifier {
  import opened Wrappers
  import opened Sequences
  import opened Float64
  import opened Simulation
  import opened Replay
  import opened Verdicts
  import opened Acceptance

  function CountOf(pairs: map<(nat, nat), nat>, p: nat, t: nat): nat {
    if (p, t) in pairs then pairs[(p, t)] else 0
  }

  method CountPairs<F>(inputs: seq<AppliedInputProto<F>>) returns (pairs: map<(nat, nat), nat>)
    ensures forall p, t :: CountOf(pairs, p, t) == Occurrences(inputs, p, t)
  {
    pairs := map[];
    var i := 0;
    while i < |inputs|
      invariant 0 <= i <= |inputs|
      invariant forall p, t :: CountOf(pairs, p, t) == Occurrences(inputs[..i], p, t)
    {
      var key := (inputs[i].playerId, inputs[i].tick);
      assert inputs[..i + 1][..i] == inputs[..i];
      pairs := pairs[key := CountOf(pairs, key.0, key.1) + 1];
      i := i + 1;
    }
    assert inputs[..i] == inputs;
  }

  method ValidateInputStream<F>(artifact: ReplayArtifact<F>) returns (verdict: Verdict)
    ensures verdict == ValidateStream(artifact)
  {
    if artifact.initialBaseline.None? {
      return Err(MissingBaseline);
    }
    var initialTick, checkpointTick := artifact.initialBaseline.value.tick, artifact.checkpointTick;
    var playerIds := PlayerIds(artifact.playerEntityMapping);
    var inputs := artifact.inputs;
    var pairs := CountPairs(inputs);

    var i := 0;
    while i < |playerIds|
      invariant 0 <= i <= |playerIds|
      invariant PlayersError(inputs, playerIds, initialTick, checkpointTick) == PlayersError(inputs, playerIds[i..], initialTick, checkpointTick)
    {
      var p, tick := playerIds[i], initialTick;
      while tick < checkpointTick
        invariant TicksError(inputs, p, initialTick, checkpointTick) == TicksError(inputs, p, tick, checkpointTick)
      {
        var count := CountOf(pairs, p, tick);
        if count == 0 {
          return Err(InputStreamInvalid(MissingInput(p, tick)));
        } else if count > 1 {
          return Err(InputStreamInvalid(DuplicateInput(p, tick)));
        }
        tick := tick + 1;
      }
      assert playerIds[i..][1..] == playerIds[i + 1..];
      i := i + 1;
    }

    var j := 0;
    while j < |inputs|
      invariant 0 <= j <= |inputs|
      invariant StraysError(inputs, playerIds, initialTick, checkpointTick) == StraysError(inputs[j..], playerIds, initialTick, checkpointTick)
    {
      var input := inputs[j];
      if input.tick < initialTick || input.tick >= checkpointTick {
        return Err(InputStreamInvalid(OutsideRange(input.playerId, input.tick, initialTick, checkpointTick)));
      }
      if input.playerId !in playerIds {
        return Err(InputStreamInvalid(UnknownPlayer(input.playerId)));
      }
      assert inputs[j..][1..] == inputs[j + 1..];
      j := j + 1;
    }
    return Ok(());
  }

  function Bucket<F>(table: map<nat, seq<AppliedInput<F>>>, tick: nat): seq<AppliedInput<F>> {
    if tick in table then table[tick] else []
  }

  /** The table holds each tick's inputs, in the order of the list. */
  ghost predicate Filed<F>(table: map<nat, seq<AppliedInput<F>>>, inputs: seq<AppliedInput<F>>) {
    forall t :: Bucket(table, t) == AtTick(inputs, t)
  }

  lemma FileNext<F>(table: map<nat, seq<AppliedInput<F>>>, inputs: seq<AppliedInput<F>>, input: AppliedInput<F>)
    requires Filed(table, inputs)
    ensures Filed(table[input.tick := Bucket(table, input.tick) + [input]], inputs + [input])
  {
    var next := table[input.tick := Bucket(table, input.tick) + [input]];
    assert (inputs + [input])[..|inputs|] == inputs;
    forall t ensures Bucket(next, t) == AtTick(inputs + [input], t) {
      assert Bucket(table, t) == AtTick(inputs, t);
    }
  }

  lemma ConvertNext<F>(inputs: seq<AppliedInputProto<F>>, i: nat)
    requires i < |inputs| && ConvertInputs(inputs[..i]).Some?
    ensures ConvertInputs(inputs[..i + 1]) ==
      if inputs[i].ToApplied().None? then None else Some(ConvertInputs(inputs[..i]).value + [inputs[i].ToApplied().value])
  {
    assert inputs[..i + 1][..i] == inputs[..i];
  }

  /** `inputs_by_tick`, or nothing if some input is malformed. */
  method GroupByTick<F>(inputs: seq<AppliedInputProto<F>>) returns (table: Option<map<nat, seq<AppliedInput<F>>>>)
    ensures table.None? <==> ConvertInputs(inputs).None?
    ensures table.Some? ==> Filed(table.value, ConvertInputs(inputs).value)
  {
    var byTick: map<nat, seq<AppliedInput<F>>> := map[];
    var i := 0;
    while i < |inputs|
      invariant 0 <= i <= |inputs|
      invariant ConvertInputs(inputs[..i]).Some?
      invariant Filed(byTick, ConvertInputs(inputs[..i]).value)
    {
      ConvertNext(inputs, i);
      var converted := inputs[i].ToApplied();
      if converted.None? {
        NoConversion(inputs, i + 1);
        return None;
      }
      var input := converted.value;
      FileNext(byTick, ConvertInputs(inputs[..i]).value, input);
      byTick := byTick[input.tick := Bucket(byTick, input.tick) + [input]];
      i := i + 1;
    }
    assert inputs[..i] == inputs;
    table := Some(byTick);
  }

  lemma {:induction false} NoConversion<F>(inputs: seq<AppliedInputProto<F>>, n: nat)
    requires n <= |inputs| && ConvertInputs(inputs[..n]).None?
    ensures ConvertInputs(inputs).None?
    decreases |inputs|
  {
    if n == |inputs| {
      assert inputs[..n] == inputs;
    } else {
      var front := inputs[..|inputs| - 1];
      assert front[..n] == inputs[..n];
      NoConversion(front, n);
    }
  }

  /**
   A replay always starts from a fresh world, so `advance` panics on an artifact whose
   baseline is not at tick 0 as soon as there is a tick to replay; `World::new` panics
   on a zero tick rate.
   */
  method VerifyReplay<F>(ar: Arith<F>, artifact: ReplayArtifact<F>, options: VerifyOptions) returns (verdict: Verdict)
    requires artifact.tickRateHz > 0
    requires artifact.initialBaseline.Some? ==>
      artifact.initialBaseline.value.tick == 0 || artifact.checkpointTick <= artifact.initialBaseline.value.tick
    requires artifact.checkpointTick < 0x1_0000_0000_0000_0000
    requires |artifact.entitySpawnOrder| + 2 < 0x1_0000_0000_0000_0000
    ensures verdict == Verify(ar, artifact, options)
    ensures verdict.Ok? <==> Accepts(ar, artifact, options)
    ensures Deserves(ar, artifact, options, verdict)
  {
    VerdictExact(ar, artifact, options);
    if artifact.buildFingerprint.Some? && options.currentBuild.Some? {
      var recorded, current := artifact.buildFingerprint.value, options.currentBuild.value;
      var mismatch := recorded.binarySha256 != current.binarySha256
        || recorded.targetTriple != current.targetTriple || recorded.profile != current.profile;
      if mismatch && options.strictBuildCheck {
        return Err(BuildMismatch(recorded.binarySha256, current.binarySha256));
      }
    }
    var streamVerdict := ValidateInputStream(artifact);
    if streamVerdict.Err? {
      return streamVerdict;
    }
    verdict := ReplayMatch(ar, artifact, artifact.initialBaseline.value);
  }

  /** Steps 3 to 8, for an artifact whose input stream is sound. */
  method ReplayMatch<F>(ar: Arith<F>, artifact: ReplayArtifact<F>, baselineProto: JoinBaseline<F>) returns (verdict: Verdict)
    requires artifact.tickRateHz > 0
    requires baselineProto.tick == 0 || artifact.checkpointTick <= baselineProto.tick
    requires artifact.checkpointTick < 0x1_0000_0000_0000_0000
    requires |artifact.entitySpawnOrder| + 2 < 0x1_0000_0000_0000_0000
    ensures verdict == VerifyFrom(ar, artifact, baselineProto)
  {
    var world := new World(ar, artifact.seed, artifact.tickRateHz);
    var table := MappingTable(artifact.playerEntityMapping);
    var spawnVerdict := RespawnAll(world, table, artifact.entitySpawnOrder);
    if spawnVerdict.Err? {
      return spawnVerdict;
    }
    var baseline := world.CurrentBaseline();
    if baseline.digest != baselineProto.digest {
      return Err(InitializationAnchorMismatch(baselineProto.digest, baseline.digest));
    }
    var byTick := GroupByTick(artifact.inputs);
    if byTick.None? {
      return Err(InvalidFormat);
    }
    ghost var inputs := ConvertInputs(artifact.inputs).value;
    AdvanceAll(world, byTick.value, inputs, baselineProto.tick, artifact.checkpointTick);
    verdict := CheckWorld(world, artifact);
  }

  method CheckWorld<F>(world: World<F>, artifact: ReplayArtifact<F>) returns (verdict: Verdict)
    ensures verdict == CheckOutcome(world.ar, artifact, world.State())
  {
    if world.tick != artifact.checkpointTick {
      return Err(CheckpointTickMismatch(artifact.checkpointTick, world.tick));
    }
    var actualDigest := world.CurrentDigest();
    if actualDigest != artifact.finalDigest {
      return Err(FinalDigestMismatch(artifact.finalDigest, actualDigest));
    }
    return Ok(());
  }

  method RespawnAll<F>(world: World<F>, table: map<nat, nat>, order: seq<nat>) returns (verdict: Verdict)
    requires world.Valid() && world.nextEntityId + |order| + 1 < 0x1_0000_0000_0000_0000
    modifies world
    ensures world.Valid() && world.tick == old(world.tick)
    ensures
      var rebuilt := Reconstruct(world.ar, old(world.State()), table, order);
      if rebuilt.Ok? then verdict == Ok(()) && world.State() == rebuilt.value else verdict == Err(rebuilt.error)
  {
    var i := 0;
    while i < |order|
      invariant 0 <= i <= |order|
      invariant world.Valid() && world.tick == old(world.tick)
      invariant world.nextEntityId == old(world.nextEntityId) + i
      invariant Reconstruct(world.ar, old(world.State()), table, order) == Reconstruct(world.ar, world.State(), table, order[i..])
    {
      var playerId := order[i] % 256;
      var actual := world.SpawnCharacter(playerId);
      if order[i] in table && actual != table[order[i]] {
        return Err(SpawnReconstructionMismatch(playerId, table[order[i]], actual));
      }
      assert order[i..][1..] == order[i + 1..];
      i := i + 1;
    }
    return Ok(());
  }

  lemma ReplayNext<F>(ar: Arith<F>, w: WorldState<F>, inputs: seq<AppliedInput<F>>, from: nat, tick: nat)
    requires from <= tick
    ensures ReplayTicks(ar, w, inputs, from, from) == w
    ensures ReplayTicks(ar, w, inputs, from, tick + 1)
         == Advance(ar, ReplayTicks(ar, w, inputs, from, tick), SortedStepInputs(AtTick(inputs, tick)))
  {
  }

  method AdvanceAll<F>(world: World<F>, byTick: map<nat, seq<AppliedInput<F>>>, ghost inputs: seq<AppliedInput<F>>, from: nat, until: nat)
    requires world.Valid() && (world.tick == from || until <= from)
    requires until < 0x1_0000_0000_0000_0000
    requires Filed(byTick, inputs)
    modifies world
    ensures world.Valid()
    ensures world.State() == ReplayTicks(world.ar, old(world.State()), inputs, from, until)
  {
    ReplayNext(world.ar, world.State(), inputs, from, from);
    var tick := from;
    while tick < until
      invariant world.Valid() && (world.tick == tick || until <= from)
      invariant from <= tick && (tick <= until || (until <= from && tick == from))
      invariant world.State() == ReplayTicks(world.ar, old(world.State()), inputs, from, tick)
    {
      ReplayNext(world.ar, old(world.State()), inputs, from, tick);
      assert Bucket(byTick, tick) == AtTick(inputs, tick);
      AdvanceOne(world, Bucket(byTick, tick), tick);
      tick := tick + 1;
    }
  }

  method AdvanceOne<F>(world: World<F>, inputs: seq<AppliedInput<F>>, tick: nat)
    requires world.Valid() && world.tick == tick && tick + 1 < 0x1_0000_0000_0000_0000
    modifies world
    ensures world.Valid()
    ensures world.State() == Advance(world.ar, old(world.State()), SortedStepInputs(inputs))
  {
    var stepInputs := Map(StepInputOf, inputs);
    SortBySorts(PlayerKey, stepInputs);
    stepInputs := SortBy(PlayerKey, stepInputs);
    var _ := world.AdvanceTick(tick, stepInputs);
  }
}
