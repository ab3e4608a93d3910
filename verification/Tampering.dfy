/**
 The artifact of a clean run with one field replaced: exactly when the verifier still
 accepts it, and the error it reports otherwise.
 */
module Tampering {
  import opened Wrappers
  import opened Words
  import opened Sequences
  import opened Float64
  import opened Simulation
  import opened Replay
  import opened Verdicts
  import opened VerifierFacts
  import opened Acceptance
  import opened ServerModel
  import opened ServerRuns
  import opened RecordThenVerify

  /** What a clean run's artifact is known to satisfy. */
  lemma CleanArtifact<F>(ar: Arith<F>, config: ServerConfig, evs: seq<Event<F>>, options: VerifyOptions, a: ReplayArtifact<F>)
    requires Legal(ar, config, evs) && CleanRun(config, evs, options) && a == Finalize(ar, After(ar, config, evs))
    ensures Accepts(ar, a, options) && a.initialBaseline.value.tick == 0 && a.checkpointTick == Steps(evs)
  {
    VerifyExact(ar, config, evs, options);
    VerdictExact(ar, a, options);
    RunKeepsInvariant(ar, config, evs);
    ArtifactOf(ar, config, evs, After(ar, config, evs));
  }

  /** One mapping entry per spawn, in order, with entity ids 1, 2, ... */
  ghost predicate Numbered<F>(a: ReplayArtifact<F>, n: nat) {
    && |a.entitySpawnOrder| == |a.playerEntityMapping| == n
    && forall i :: 0 <= i < n ==> a.playerEntityMapping[i] == PlayerEntityMapping(a.entitySpawnOrder[i], i + 1)
  }

  lemma CleanMapping<F>(ar: Arith<F>, config: ServerConfig, evs: seq<Event<F>>, options: VerifyOptions, a: ReplayArtifact<F>)
    requires Legal(ar, config, evs) && CleanRun(config, evs, options) && a == Finalize(ar, After(ar, config, evs))
    ensures Numbered(a, Joins(evs)) && Distinct(a.entitySpawnOrder)
  {
    var s := After(ar, config, evs);
    RunKeepsInvariant(ar, config, evs);
    ArtifactOf(ar, config, evs, s);
    RosterMapping(config, Roster(config, Joins(evs)), Steps(evs), s.recorder.inputs, a);
  }

  lemma RosterMapping<F>(config: ServerConfig, roster: seq<PlayerId>, ticks: nat, inputs: seq<AppliedInput<F>>, a: ReplayArtifact<F>)
    requires RecordOf(config, roster, ticks, inputs, a) && Distinct(roster)
    ensures Numbered(a, |roster|) && Distinct(a.entitySpawnOrder)
  {
    MappingIds(roster);
  }

  /** With another final digest the artifact is rejected, and the verifier names both digests. */
  lemma OtherFinalDigest<F>(ar: Arith<F>, config: ServerConfig, evs: seq<Event<F>>, options: VerifyOptions, a: ReplayArtifact<F>, d: U64)
    requires Legal(ar, config, evs) && CleanRun(config, evs, options) && a == Finalize(ar, After(ar, config, evs))
    ensures Verify(ar, a.(finalDigest := d), options) == if d == a.finalDigest then Ok(()) else Err(FinalDigestMismatch(d, a.finalDigest))
  {
    CleanArtifact(ar, config, evs, options, a);
    var b := a.(finalDigest := d);
    VerdictExact(ar, b, options);
    FinalDigestReplaced(ar, options, a, b, Verify(ar, b, options));
  }

  lemma FinalDigestReplaced<F>(ar: Arith<F>, options: VerifyOptions, a: ReplayArtifact<F>, b: ReplayArtifact<F>, v: Verdict)
    requires Accepts(ar, a, options) && b == a.(finalDigest := b.finalDigest) && Deserves(ar, b, options, v)
    ensures v == if b.finalDigest == a.finalDigest then Ok(()) else Err(FinalDigestMismatch(b.finalDigest, a.finalDigest))
  {
    SameSpawns(a, b);
    assert StreamSound(b) && Respawned(ar, b) == Respawned(ar, a);
    assert Convertible(b) && Converted(b) == Converted(a);
    assert Replayed(ar, b) == Replayed(ar, a);
  }

  lemma SameSpawns<F>(a: ReplayArtifact<F>, b: ReplayArtifact<F>)
    requires a.entitySpawnOrder == b.entitySpawnOrder && a.playerEntityMapping == b.playerEntityMapping
    ensures SpawnsAgree(a) <==> SpawnsAgree(b)
  {
    assert forall i: nat :: i < |a.entitySpawnOrder| ==> (SpawnAgrees(a, i) <==> SpawnAgrees(b, i));
  }

  /** Likewise for the digest of the initial baseline. */
  lemma OtherAnchor<F>(ar: Arith<F>, config: ServerConfig, evs: seq<Event<F>>, options: VerifyOptions, a: ReplayArtifact<F>, d: U64)
    requires Legal(ar, config, evs) && CleanRun(config, evs, options) && a == Finalize(ar, After(ar, config, evs))
    ensures
      a.initialBaseline.Some? &&
      var was := a.initialBaseline.value;
      Verify(ar, a.(initialBaseline := Some(was.(digest := d))), options)
      == if d == was.digest then Ok(()) else Err(InitializationAnchorMismatch(d, was.digest))
  {
    CleanArtifact(ar, config, evs, options, a);
    var b := a.(initialBaseline := Some(a.initialBaseline.value.(digest := d)));
    VerdictExact(ar, b, options);
    assert StreamSound(b);
    SameSpawns(a, b);
    assert Respawned(ar, b) == Respawned(ar, a) && Replayed(ar, b) == Replayed(ar, a);
  }

  lemma {:induction false} ReplayedTick<F>(ar: Arith<F>, w: WorldState<F>, inputs: seq<AppliedInput<F>>, from: nat, until: nat)
    requires from <= until
    ensures ReplayTicks(ar, w, inputs, from, until).tick == w.tick + until - from
    decreases until
  {
    if until > from { ReplayedTick(ar, w, inputs, from, until - 1); }
  }

  /**
   With other inputs: a stream that is sound and well formed is accepted exactly if replaying
   it leads to the recorded digest; any other stream is rejected for what is wrong with it.
   */
  lemma OtherInputs<F>(
    ar: Arith<F>, config: ServerConfig, evs: seq<Event<F>>, options: VerifyOptions, a: ReplayArtifact<F>, b: ReplayArtifact<F>)
    requires Legal(ar, config, evs) && CleanRun(config, evs, options) && a == Finalize(ar, After(ar, config, evs))
    requires b == a.(inputs := b.inputs)
    ensures
      var v := Verify(ar, b, options);
      a.initialBaseline.Some? &&
      if !StreamSound(b) then v.Err? && v.error.InputStreamInvalid? && TrueReason(b, v.error.reason)
      else if !Convertible(b) then v == Err(InvalidFormat)
      else
        var reached := StateDigest(ar, Replayed(ar, b));
        v == if reached == a.finalDigest then Ok(()) else Err(FinalDigestMismatch(a.finalDigest, reached))
  {
    CleanArtifact(ar, config, evs, options, a);
    VerdictExact(ar, b, options);
    SameSpawns(a, b);
    assert Respawned(ar, b) == Respawned(ar, a);
    if Convertible(b) { ReplayedTick(ar, Respawned(ar, b), Converted(b), 0, b.checkpointTick); }
  }

  /** With another checkpoint tick: if anybody played, some input is then missing or out of range. */
  lemma OtherCheckpoint<F>(ar: Arith<F>, config: ServerConfig, evs: seq<Event<F>>, options: VerifyOptions, a: ReplayArtifact<F>, t: nat)
    requires Legal(ar, config, evs) && CleanRun(config, evs, options) && a == Finalize(ar, After(ar, config, evs))
    requires Joins(evs) >= 1
    ensures
      var v := Verify(ar, a.(checkpointTick := t), options);
      if t == Steps(evs) then v == Ok(()) else v.Err? && v.error.InputStreamInvalid?
  {
    CleanArtifact(ar, config, evs, options, a);
    CleanMapping(ar, config, evs, options, a);
    var b := a.(checkpointTick := t);
    VerdictExact(ar, b, options);
    var players := PlayerIds(a.playerEntityMapping);
    assert players[0] in players && OnceEach(a.inputs, players[0], 0, Steps(evs));
    if t == Steps(evs) {
      assert b == a;
    } else if t < Steps(evs) {
      Occurs(a.inputs, players[0], t);
      assert !NoStrays(b.inputs, players, 0, t);
    } else if StreamSound(b) {
      assert OnceEach(b.inputs, players[0], 0, t);
      Occurs(b.inputs, players[0], Steps(evs));
      assert false;
    }
  }

  /** With another entity in one entry of the mapping: rejected at that player's spawn. */
  lemma OtherEntity<F>(
    ar: Arith<F>, config: ServerConfig, evs: seq<Event<F>>, options: VerifyOptions, a: ReplayArtifact<F>, k: nat, e: nat)
    requires Legal(ar, config, evs) && CleanRun(config, evs, options) && a == Finalize(ar, After(ar, config, evs))
    requires k < Joins(evs)
    ensures
      k < |a.playerEntityMapping| && k < |a.entitySpawnOrder| &&
      var m := a.playerEntityMapping;
      var v := Verify(ar, a.(playerEntityMapping := m[k := m[k].(entityId := e)]), options);
      v == if e == k + 1 then Ok(()) else Err(SpawnReconstructionMismatch(a.entitySpawnOrder[k] % 256, e, k + 1))
  {
    CleanArtifact(ar, config, evs, options, a);
    CleanMapping(ar, config, evs, options, a);
    var m := a.playerEntityMapping;
    var b := a.(playerEntityMapping := m[k := m[k].(entityId := e)]);
    VerdictExact(ar, b, options);
    if e == k + 1 {
      assert b.playerEntityMapping == m;
    } else {
      EntityReplaced(ar, options, a, b, k, Verify(ar, b, options));
    }
  }

  lemma EntityReplaced<F>(ar: Arith<F>, options: VerifyOptions, a: ReplayArtifact<F>, b: ReplayArtifact<F>, k: nat, v: Verdict)
    requires Accepts(ar, a, options) && Numbered(a, |a.entitySpawnOrder|) && Distinct(a.entitySpawnOrder) && k < |a.entitySpawnOrder|
    requires |b.playerEntityMapping| == |a.playerEntityMapping| && b.playerEntityMapping[k].entityId != k + 1
    requires b == a.(playerEntityMapping := a.playerEntityMapping[k := a.playerEntityMapping[k].(entityId := b.playerEntityMapping[k].entityId)])
    requires Deserves(ar, b, options, v)
    ensures v == Err(SpawnReconstructionMismatch(a.entitySpawnOrder[k] % 256, b.playerEntityMapping[k].entityId, k + 1))
  {
    EntryReplaced(a, b, k, b.playerEntityMapping[k].entityId);
    FirstSpawnError(ar, options, b, v);
  }

  lemma FirstSpawnError<F>(ar: Arith<F>, options: VerifyOptions, b: ReplayArtifact<F>, v: Verdict)
    requires Deserves(ar, b, options, v) && BuildsAgree(b.buildFingerprint, options) && StreamSound(b) && !SpawnsAgree(b)
    ensures v.Err? && v.error.SpawnReconstructionMismatch?
    ensures TrueMismatch(b, v.error.playerId, v.error.expectedEntity, v.error.actualEntity)
  {
  }

  lemma EntryReplaced<F>(a: ReplayArtifact<F>, b: ReplayArtifact<F>, k: nat, e: nat)
    requires StreamSound(a) && Numbered(a, |a.entitySpawnOrder|) && Distinct(a.entitySpawnOrder) && k < |a.entitySpawnOrder|
    requires b == a.(playerEntityMapping := a.playerEntityMapping[k := a.playerEntityMapping[k].(entityId := e)]) && e != k + 1
    ensures StreamSound(b) && !SpawnsAgree(b)
    ensures forall p, expected, actual :: TrueMismatch(b, p, expected, actual) ==>
      p == b.entitySpawnOrder[k] % 256 && expected == e && actual == k + 1
  {
    assert PlayerIds(b.playerEntityMapping) == PlayerIds(a.playerEntityMapping);
    forall i: nat | i < |b.entitySpawnOrder| ensures forall j: nat :: LastEntry(b.playerEntityMapping, j, b.entitySpawnOrder[i]) <==> j == i {
      OnlyEntry(a, b, i);
    }
    MismatchAt(b, k, e);
  }

  /** With distinct players, entry i is the only one, hence the last one, of spawn i. */
  lemma OnlyEntry<F>(a: ReplayArtifact<F>, b: ReplayArtifact<F>, i: nat)
    requires b == a.(playerEntityMapping := b.playerEntityMapping) && PlayerIds(b.playerEntityMapping) == PlayerIds(a.playerEntityMapping)
    requires Distinct(a.entitySpawnOrder) && i < |a.entitySpawnOrder| == |a.playerEntityMapping|
    requires forall j :: 0 <= j < |a.entitySpawnOrder| ==> a.playerEntityMapping[j].playerId == a.entitySpawnOrder[j]
    ensures |b.playerEntityMapping| == |a.playerEntityMapping|
    ensures forall j: nat :: LastEntry(b.playerEntityMapping, j, b.entitySpawnOrder[i]) <==> j == i
  {
    assert forall j :: 0 <= j < |b.playerEntityMapping| ==>
      PlayerIds(b.playerEntityMapping)[j] == b.playerEntityMapping[j].playerId
      && PlayerIds(a.playerEntityMapping)[j] == a.playerEntityMapping[j].playerId;
  }

  lemma MismatchAt<F>(b: ReplayArtifact<F>, k: nat, e: nat)
    requires k < |b.entitySpawnOrder| == |b.playerEntityMapping| && b.playerEntityMapping[k].entityId == e != k + 1
    requires forall i: nat, j: nat :: i < |b.entitySpawnOrder| ==> (LastEntry(b.playerEntityMapping, j, b.entitySpawnOrder[i]) <==> j == i)
    requires forall i: nat :: i < |b.entitySpawnOrder| && i != k ==> SpawnAgrees(b, i)
    ensures !SpawnsAgree(b)
    ensures forall p, expected, actual :: TrueMismatch(b, p, expected, actual) ==>
      p == b.entitySpawnOrder[k] % 256 && expected == e && actual == k + 1
  {
    assert LastEntry(b.playerEntityMapping, k, b.entitySpawnOrder[k]);
    assert !SpawnAgrees(b, k);
    forall i: nat, j: nat | FirstMismatch(b, i, j) ensures i == k && j == k {
      assert !SpawnAgrees(b, i);
    }
  }
}
