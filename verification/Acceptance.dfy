/**
 What it means that the verifier accepts an artifact, and what each rejection says: in terms
 of the artifact alone, for every artifact.
 */
module Acceptance {
  import opened Wrappers
  import opened Float64
  import opened Simulation
  import opened Replay
  import opened Verdicts
  import opened VerifierFacts

  // The conditions.

  /** In strict mode two recorded builds must agree in hash, target and profile. */
  predicate BuildsAgree(recorded: Option<BuildFingerprint>, options: VerifyOptions) {
    options.strictBuildCheck && recorded.Some? && options.currentBuild.Some? ==>
      var a, b := recorded.value, options.currentBuild.value;
      a.binarySha256 == b.binarySha256 && a.targetTriple == b.targetTriple && a.profile == b.profile
  }

  /** Entry j is the last one of the mapping for player p. */
  ghost predicate LastEntry(mapping: seq<PlayerEntityMapping>, j: nat, p: nat) {
    j < |mapping| && mapping[j].playerId == p && forall k :: j < k < |mapping| ==> mapping[k].playerId != p
  }

  /** Spawn number i gets the entity id i + 1, and the mapping, if it mentions the player, says so. */
  ghost predicate SpawnAgrees<F>(a: ReplayArtifact<F>, i: nat)
    requires i < |a.entitySpawnOrder|
  {
    forall j: nat :: LastEntry(a.playerEntityMapping, j, a.entitySpawnOrder[i]) ==> a.playerEntityMapping[j].entityId == i + 1
  }

  ghost predicate SpawnsAgree<F>(a: ReplayArtifact<F>) {
    forall i: nat :: i < |a.entitySpawnOrder| ==> SpawnAgrees(a, i)
  }

  /** The world the artifact starts from: a character at the origin for every spawn, and nothing moved. */
  function Respawned<F>(ar: Arith<F>, a: ReplayArtifact<F>): WorldState<F> {
    var zero, order := ar.ofInt(0), a.entitySpawnOrder;
    WorldState(0, a.tickRateHz, ar.div(ar.ofInt(1), ar.ofInt(a.tickRateHz)),
      seq(|order|, i requires 0 <= i < |order| => Character(i + 1, order[i] % 256, Vec2(zero, zero), Vec2(zero, zero))),
      |order| + 1, a.seed)
  }

  ghost predicate Convertible<F>(a: ReplayArtifact<F>) {
    forall i :: 0 <= i < |a.inputs| ==> |a.inputs[i].moveDir| == 2
  }

  ghost function Converted<F>(a: ReplayArtifact<F>): seq<AppliedInput<F>>
    requires Convertible(a)
  {
    seq(|a.inputs|, i requires 0 <= i < |a.inputs| =>
      var x := a.inputs[i];
      AppliedInput(x.tick, x.playerId % 256, Vec2(x.moveDir[0], x.moveDir[1]), x.isFallback))
  }

  /** The respawned world after the recorded inputs, tick by tick up to the checkpoint. */
  ghost function Replayed<F>(ar: Arith<F>, a: ReplayArtifact<F>): WorldState<F>
    requires a.initialBaseline.Some? && Convertible(a)
  {
    ReplayTicks(ar, Respawned(ar, a), Converted(a), a.initialBaseline.value.tick, a.checkpointTick)
  }

  /** Everything an accepted artifact has established. */
  ghost predicate Accepts<F>(ar: Arith<F>, a: ReplayArtifact<F>, options: VerifyOptions) {
    && BuildsAgree(a.buildFingerprint, options)
    && StreamSound(a)
    && SpawnsAgree(a)
    && StateDigest(ar, Respawned(ar, a)) == a.initialBaseline.value.digest
    && Convertible(a)
    && Replayed(ar, a).tick == a.checkpointTick
    && StateDigest(ar, Replayed(ar, a)) == a.finalDigest
  }

  // What the rejections say.

  /** The reported defect of the input stream is there. */
  ghost predicate TrueReason<F>(a: ReplayArtifact<F>, reason: StreamError)
    requires a.initialBaseline.Some?
  {
    var from, until, players := a.initialBaseline.value.tick, a.checkpointTick, PlayerIds(a.playerEntityMapping);
    match reason
    case MissingInput(p, t) => p in players && from <= t < until && forall i :: 0 <= i < |a.inputs| ==> !InputFor(a.inputs[i], p, t)
    case DuplicateInput(p, t) =>
      p in players && from <= t < until && exists i, j :: 0 <= i < j < |a.inputs| && InputFor(a.inputs[i], p, t) && InputFor(a.inputs[j], p, t)
    case OutsideRange(p, t, low, high) =>
      low == from && high == until && !(from <= t < until) && exists i :: 0 <= i < |a.inputs| && InputFor(a.inputs[i], p, t)
    case UnknownPlayer(p) => p !in players && exists i :: 0 <= i < |a.inputs| && a.inputs[i].playerId == p
  }

  predicate InputFor<F>(x: AppliedInputProto<F>, p: nat, t: nat) { x.playerId == p && x.tick == t }

  /** The reported spawn is the first one that disagrees with the mapping. */
  ghost predicate TrueMismatch<F>(a: ReplayArtifact<F>, p: PlayerId, expected: nat, actual: nat) {
    exists i: nat, j: nat :: FirstMismatch(a, i, j) && p == a.entitySpawnOrder[i] % 256
      && expected == a.playerEntityMapping[j].entityId && actual == i + 1
  }

  ghost predicate FirstMismatch<F>(a: ReplayArtifact<F>, i: nat, j: nat) {
    && i < |a.entitySpawnOrder| && LastEntry(a.playerEntityMapping, j, a.entitySpawnOrder[i])
    && a.playerEntityMapping[j].entityId != i + 1
    && forall k: nat :: k < i ==> SpawnAgrees(a, k)
  }

  /** The verdict that the artifact deserves: the first thing wrong with it, or acceptance. */
  ghost predicate Deserves<F>(ar: Arith<F>, a: ReplayArtifact<F>, options: VerifyOptions, v: Verdict) {
    if !BuildsAgree(a.buildFingerprint, options) then
      v == Err(BuildMismatch(a.buildFingerprint.value.binarySha256, options.currentBuild.value.binarySha256))
    else if a.initialBaseline.None? then v == Err(MissingBaseline)
    else if !StreamSound(a) then v.Err? && v.error.InputStreamInvalid? && TrueReason(a, v.error.reason)
    else if !SpawnsAgree(a) then
      v.Err? && v.error.SpawnReconstructionMismatch? && TrueMismatch(a, v.error.playerId, v.error.expectedEntity, v.error.actualEntity)
    else if StateDigest(ar, Respawned(ar, a)) != a.initialBaseline.value.digest then
      v == Err(InitializationAnchorMismatch(a.initialBaseline.value.digest, StateDigest(ar, Respawned(ar, a))))
    else if !Convertible(a) then v == Err(InvalidFormat)
    else if Replayed(ar, a).tick != a.checkpointTick then v == Err(CheckpointTickMismatch(a.checkpointTick, Replayed(ar, a).tick))
    else if StateDigest(ar, Replayed(ar, a)) != a.finalDigest then
      v == Err(FinalDigestMismatch(a.finalDigest, StateDigest(ar, Replayed(ar, a))))
    else v == Ok(())
  }

  // The mapping.

  lemma {:induction false} TableHolds(mapping: seq<PlayerEntityMapping>, p: nat)
    ensures p in MappingTable(mapping) <==> exists j: nat :: LastEntry(mapping, j, p)
    ensures forall j: nat :: LastEntry(mapping, j, p) ==> MappingTable(mapping)[p] == mapping[j].entityId
  {
    if mapping == [] {
    } else {
      var n := |mapping| - 1;
      TableHolds(mapping[..n], p);
      if mapping[n].playerId == p {
        assert LastEntry(mapping, n, p);
      } else {
        assert forall j: nat :: LastEntry(mapping, j, p) <==> LastEntry(mapping[..n], j, p);
      }
    }
  }

  // Respawning.

  /** The world with further characters spawned. */
  function Populated<F>(ar: Arith<F>, w: WorldState<F>, order: seq<nat>): WorldState<F> {
    var zero := ar.ofInt(0);
    w.(characters := w.characters + seq(|order|, i requires 0 <= i < |order| =>
         Character(w.nextEntityId + i, order[i] % 256, Vec2(zero, zero), Vec2(zero, zero))),
       nextEntityId := w.nextEntityId + |order|)
  }

  lemma PopulatedStep<F>(ar: Arith<F>, w: WorldState<F>, order: seq<nat>)
    requires order != []
    ensures Populated(ar, Spawn(ar, w, order[0] % 256), order[1..]) == Populated(ar, w, order)
  {
    var all, rest := Populated(ar, w, order), Populated(ar, Spawn(ar, w, order[0] % 256), order[1..]);
    assert all.characters == rest.characters;
  }

  /** The entity that spawn number i of the order gets is the one the table names, if any. */
  predicate Matches(table: map<nat, nat>, order: seq<nat>, first: nat, i: nat)
    requires i < |order|
  {
    order[i] in table ==> table[order[i]] == first + i
  }

  lemma MatchesShift(table: map<nat, nat>, order: seq<nat>, first: nat, i: nat)
    requires i + 1 < |order|
    ensures Matches(table, order[1..], first + 1, i) == Matches(table, order, first, i + 1)
  {
  }

  lemma {:induction false} ReconstructExact<F>(ar: Arith<F>, w: WorldState<F>, table: map<nat, nat>, order: seq<nat>) returns (bad: nat)
    ensures
      var r := Reconstruct(ar, w, table, order);
      && (forall i: nat :: i < bad && i < |order| ==> Matches(table, order, w.nextEntityId, i))
      && (if bad < |order| then
            && !Matches(table, order, w.nextEntityId, bad)
            && r == Err(SpawnReconstructionMismatch(order[bad] % 256, table[order[bad]], w.nextEntityId + bad))
          else r == Ok(Populated(ar, w, order)))
    decreases |order|
  {
    if order == [] {
      bad := 0;
      assert Populated(ar, w, order).characters == w.characters;
    } else if !Matches(table, order, w.nextEntityId, 0) {
      bad := 0;
    } else {
      var next := Spawn(ar, w, order[0] % 256);
      var later := ReconstructExact(ar, next, table, order[1..]);
      bad := later + 1;
      PopulatedStep(ar, w, order);
      forall i: nat | i < bad && i < |order| ensures Matches(table, order, w.nextEntityId, i) {
        if i > 0 { MatchesShift(table, order, w.nextEntityId, i - 1); }
      }
      if bad < |order| { MatchesShift(table, order, w.nextEntityId, later); }
    }
  }

  lemma FreshRespawned<F>(ar: Arith<F>, a: ReplayArtifact<F>)
    ensures Populated(ar, NewWorld(ar, a.seed, a.tickRateHz), a.entitySpawnOrder) == Respawned(ar, a)
  {
    var w := Populated(ar, NewWorld(ar, a.seed, a.tickRateHz), a.entitySpawnOrder);
    assert w.characters == Respawned(ar, a).characters;
  }

  lemma SpawnTable<F>(a: ReplayArtifact<F>, i: nat)
    requires i < |a.entitySpawnOrder|
    ensures Matches(MappingTable(a.playerEntityMapping), a.entitySpawnOrder, 1, i) <==> SpawnAgrees(a, i)
  {
    TableHolds(a.playerEntityMapping, a.entitySpawnOrder[i]);
  }

  /** Steps 3 and 4: either the respawned world, or the first spawn that disagrees. */
  lemma RebuiltExact<F>(ar: Arith<F>, a: ReplayArtifact<F>, r: Result<WorldState<F>, VerifyError>)
    requires r == Reconstruct(ar, NewWorld(ar, a.seed, a.tickRateHz), MappingTable(a.playerEntityMapping), a.entitySpawnOrder)
    ensures SpawnsAgree(a) ==> r == Ok(Respawned(ar, a))
    ensures !SpawnsAgree(a) ==> r.Err? && r.error.SpawnReconstructionMismatch?
    ensures !SpawnsAgree(a) ==> TrueMismatch(a, r.error.playerId, r.error.expectedEntity, r.error.actualEntity)
  {
    var order, table := a.entitySpawnOrder, MappingTable(a.playerEntityMapping);
    var bad := ReconstructExact(ar, NewWorld(ar, a.seed, a.tickRateHz), table, order);
    FreshRespawned(ar, a);
    forall i: nat | i < |order| ensures Matches(table, order, 1, i) <==> SpawnAgrees(a, i) {
      SpawnTable(a, i);
    }
    if bad < |order| {
      TableHolds(a.playerEntityMapping, order[bad]);
      var j: nat :| LastEntry(a.playerEntityMapping, j, order[bad]);
      assert FirstMismatch(a, bad, j);
    }
  }

  // The input stream.

  lemma {:induction false} ConvertExact<F>(inputs: seq<AppliedInputProto<F>>)
    ensures ConvertInputs(inputs).Some? <==> forall i :: 0 <= i < |inputs| ==> |inputs[i].moveDir| == 2
  {
    if inputs == [] {
    } else {
      var n := |inputs| - 1;
      ConvertExact(inputs[..n]);
      assert forall i :: 0 <= i < n ==> inputs[..n][i] == inputs[i];
    }
  }

  lemma ConvertedExact<F>(a: ReplayArtifact<F>)
    ensures ConvertInputs(a.inputs) == if Convertible(a) then Some(Converted(a)) else None
  {
    ConvertExact(a.inputs);
    if Convertible(a) {
      ConvertLength(a.inputs);
      forall i | 0 <= i < |a.inputs| ensures ConvertInputs(a.inputs).value[i] == Converted(a)[i] {
        ConvertedAt(a.inputs, i);
      }
      assert ConvertInputs(a.inputs).value == Converted(a);
    }
  }

  lemma {:induction false} NoOccurrence<F>(inputs: seq<AppliedInputProto<F>>, p: nat, t: nat)
    requires Occurrences(inputs, p, t) == 0
    ensures forall i :: 0 <= i < |inputs| ==> !InputFor(inputs[i], p, t)
  {
    forall i | 0 <= i < |inputs| ensures !InputFor(inputs[i], p, t) {
      OccursOnce(inputs, i);
    }
  }

  lemma {:induction false} TwoOccurrences<F>(inputs: seq<AppliedInputProto<F>>, p: nat, t: nat)
    requires Occurrences(inputs, p, t) > 1
    ensures exists i, j :: 0 <= i < j < |inputs| && InputFor(inputs[i], p, t) && InputFor(inputs[j], p, t)
  {
    var n := |inputs| - 1;
    if InputFor(inputs[n], p, t) {
      Occurs(inputs[..n], p, t);
      var i :| 0 <= i < n && inputs[..n][i].playerId == p && inputs[..n][i].tick == t;
      assert InputFor(inputs[i], p, t) && InputFor(inputs[n], p, t);
    } else {
      TwoOccurrences(inputs[..n], p, t);
      var i, j :| 0 <= i < j < n && InputFor(inputs[..n][i], p, t) && InputFor(inputs[..n][j], p, t);
      assert InputFor(inputs[i], p, t) && InputFor(inputs[j], p, t);
    }
  }

  lemma {:induction false} TicksReason<F>(a: ReplayArtifact<F>, p: nat, from: nat, reason: StreamError)
    requires a.initialBaseline.Some? && a.initialBaseline.value.tick <= from && p in PlayerIds(a.playerEntityMapping)
    requires TicksError(a.inputs, p, from, a.checkpointTick) == Some(reason)
    ensures TrueReason(a, reason)
    decreases a.checkpointTick - from
  {
    if Occurrences(a.inputs, p, from) == 0 {
      NoOccurrence(a.inputs, p, from);
    } else if Occurrences(a.inputs, p, from) > 1 {
      TwoOccurrences(a.inputs, p, from);
    } else {
      TicksReason(a, p, from + 1, reason);
    }
  }

  lemma {:induction false} PlayersReason<F>(a: ReplayArtifact<F>, players: seq<nat>, reason: StreamError)
    requires a.initialBaseline.Some? && forall p :: p in players ==> p in PlayerIds(a.playerEntityMapping)
    requires PlayersError(a.inputs, players, a.initialBaseline.value.tick, a.checkpointTick) == Some(reason)
    ensures TrueReason(a, reason)
  {
    var from := a.initialBaseline.value.tick;
    if TicksError(a.inputs, players[0], from, a.checkpointTick).Some? {
      TicksReason(a, players[0], from, reason);
    } else {
      PlayersReason(a, players[1..], reason);
    }
  }

  lemma {:induction false} StraysReason<F>(a: ReplayArtifact<F>, k: nat, reason: StreamError)
    requires a.initialBaseline.Some? && k <= |a.inputs|
    requires StraysError(a.inputs[k..], PlayerIds(a.playerEntityMapping), a.initialBaseline.value.tick, a.checkpointTick) == Some(reason)
    ensures TrueReason(a, reason)
    decreases |a.inputs| - k
  {
    var x := a.inputs[k];
    assert a.inputs[k..][0] == x && a.inputs[k..][1..] == a.inputs[k + 1..];
    if a.initialBaseline.value.tick <= x.tick < a.checkpointTick && x.playerId in PlayerIds(a.playerEntityMapping) {
      StraysReason(a, k + 1, reason);
    } else {
      assert InputFor(a.inputs[k], x.playerId, x.tick);
    }
  }

  /** Step 2: a stream that is not sound is rejected for a defect it has. */
  lemma StreamVerdict<F>(a: ReplayArtifact<F>)
    requires a.initialBaseline.Some?
    ensures
      var v := ValidateStream(a);
      if StreamSound(a) then v == Ok(()) else v.Err? && v.error.InputStreamInvalid? && TrueReason(a, v.error.reason)
  {
    ValidateExact(a);
    var from, players := a.initialBaseline.value.tick, PlayerIds(a.playerEntityMapping);
    var perPlayer := PlayersError(a.inputs, players, from, a.checkpointTick);
    if perPlayer.Some? {
      PlayersReason(a, players, perPlayer.value);
    } else {
      var strays := StraysError(a.inputs, players, from, a.checkpointTick);
      assert a.inputs[0..] == a.inputs;
      if strays.Some? { StraysReason(a, 0, strays.value); }
    }
  }

  // The theorem.

  lemma FromExact<F>(ar: Arith<F>, a: ReplayArtifact<F>, options: VerifyOptions)
    requires BuildsAgree(a.buildFingerprint, options) && StreamSound(a)
    ensures Deserves(ar, a, options, VerifyFrom(ar, a, a.initialBaseline.value))
  {
    RebuiltExact(ar, a, Reconstruct(ar, NewWorld(ar, a.seed, a.tickRateHz), MappingTable(a.playerEntityMapping), a.entitySpawnOrder));
    ConvertedExact(a);
  }

  lemma BuildExact(recorded: Option<BuildFingerprint>, options: VerifyOptions)
    ensures BuildAccepted(recorded, options) <==> BuildsAgree(recorded, options)
  {
  }

  /**
   The verdict on every artifact: it is accepted exactly if it satisfies `Accepts`, and
   otherwise the error names the first defect it has, with the values that disagree.
   */
  lemma VerdictExact<F>(ar: Arith<F>, a: ReplayArtifact<F>, options: VerifyOptions)
    ensures Verify(ar, a, options).Ok? <==> Accepts(ar, a, options)
    ensures Deserves(ar, a, options, Verify(ar, a, options))
  {
    BuildExact(a.buildFingerprint, options);
    if BuildsAgree(a.buildFingerprint, options) && a.initialBaseline.Some? {
      StreamVerdict(a);
      if StreamSound(a) { FromExact(ar, a, options); }
    }
  }
}
