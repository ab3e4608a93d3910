/**
 What a match records, its own verifier accepts: exactly when.

 The main result, `VerifyExact`, covers every run of the server: the artifact is accepted
 if and only if at least one step was taken, nobody joined after the first step, no two
 sessions shared a player id, and the builds agree (or need not).
 */
module RecordThenVerify {
  import opened Wrappers
  import opened Sequences
  import opened Float64
  import opened Simulation
  import opened Replay
  import opened Verdicts
  import opened VerifierFacts
  import opened ServerModel
  import opened ServerRuns

  function SpawnAll<F>(ar: Arith<F>, w: WorldState<F>, players: seq<PlayerId>): WorldState<F> {
    if players == [] then w else Spawn(ar, SpawnAll(ar, w, players[..|players| - 1]), players[|players| - 1])
  }

  /** The world as the starters find it. */
  function InitialWorld<F>(ar: Arith<F>, config: ServerConfig, players: seq<PlayerId>): WorldState<F> {
    SpawnAll(ar, NewWorld(ar, config.seed, config.tickRateHz), players)
  }

  function CountIn(players: seq<PlayerId>, p: nat): nat {
    if players == [] then 0
    else CountIn(players[..|players| - 1], p) + if players[|players| - 1] == p then 1 else 0
  }

  function Protos<F>(inputs: seq<AppliedInput<F>>): seq<AppliedInputProto<F>> { Map(InputProto, inputs) }

  // Counting and selecting in a growing recording.

  lemma {:induction false} CountDistinct(players: seq<PlayerId>, p: nat)
    ensures CountIn(players, p) >= 1 <==> p in players
    ensures Distinct(players) ==> CountIn(players, p) <= 1
  {
    if players == [] {
    } else {
      var front := players[..|players| - 1];
      CountDistinct(front, p);
      assert players == front + [players[|players| - 1]];
      if Distinct(players) { DistinctFront(front, players[|players| - 1]); }
    }
  }

  lemma {:induction false} OccurrencesConcat<F>(xs: seq<AppliedInputProto<F>>, ys: seq<AppliedInputProto<F>>, p: nat, t: nat)
    ensures Occurrences(xs + ys, p, t) == Occurrences(xs, p, t) + Occurrences(ys, p, t)
  {
    if ys == [] {
      assert xs + ys == xs;
    } else {
      var n := |ys| - 1;
      OccurrencesConcat(xs, ys[..n], p, t);
      assert (xs + ys)[..|xs| + n] == xs + ys[..n];
    }
  }

  /** One tick's inputs: one for each player of the roster, in its order. */
  ghost predicate Block<F>(block: seq<AppliedInput<F>>, tick: nat, roster: seq<PlayerId>) {
    |block| == |roster| && forall i :: 0 <= i < |block| ==> block[i].tick == tick && block[i].playerId == roster[i]
  }

  lemma {:induction false} BlockOccurrences<F>(block: seq<AppliedInput<F>>, tick: nat, roster: seq<PlayerId>, p: nat, t: nat)
    requires Block(block, tick, roster)
    ensures Occurrences(Protos(block), p, t) == if t == tick then CountIn(roster, p) else 0
  {
    if block == [] {
    } else {
      var n := |block| - 1;
      BlockOccurrences(block[..n], tick, roster[..n], p, t);
      assert Protos(block)[..n] == Protos(block[..n]);
    }
  }

  lemma {:induction false} AtTickConcat<F>(xs: seq<AppliedInput<F>>, ys: seq<AppliedInput<F>>, t: nat)
    ensures AtTick(xs + ys, t) == AtTick(xs, t) + AtTick(ys, t)
  {
    if ys == [] {
      assert xs + ys == xs;
    } else {
      var n := |ys| - 1;
      AtTickConcat(xs, ys[..n], t);
      assert (xs + ys)[..|xs| + n] == xs + ys[..n];
    }
  }

  lemma {:induction false} AtTickAll<F>(xs: seq<AppliedInput<F>>, t: nat)
    requires forall i :: 0 <= i < |xs| ==> xs[i].tick == t
    ensures AtTick(xs, t) == xs
  {
    if xs == [] {
    } else {
      AtTickAll(xs[..|xs| - 1], t);
    }
  }

  lemma {:induction false} AtTickNone<F>(xs: seq<AppliedInput<F>>, t: nat)
    requires forall i :: 0 <= i < |xs| ==> xs[i].tick != t
    ensures AtTick(xs, t) == []
  {
    if xs == [] {
    } else {
      AtTickNone(xs[..|xs| - 1], t);
    }
  }

  /** Inputs for later ticks do not change the replay of earlier ones. */
  lemma {:induction false} ReplayIgnoresLater<F>(
    ar: Arith<F>, w: WorldState<F>, xs: seq<AppliedInput<F>>, ys: seq<AppliedInput<F>>, until: nat)
    requires forall i :: 0 <= i < |ys| ==> ys[i].tick >= until
    ensures ReplayTicks(ar, w, xs + ys, 0, until) == ReplayTicks(ar, w, xs, 0, until)
    decreases until
  {
    if until == 0 {
    } else {
      ReplayIgnoresLater(ar, w, xs, ys, until - 1);
      AtTickConcat(xs, ys, until - 1);
      AtTickNone(ys, until - 1);
      assert AtTick(xs + ys, until - 1) == AtTick(xs, until - 1);
    }
  }

  /** Recording one more tick extends the replay by that tick. */
  lemma ReplayBlock<F>(ar: Arith<F>, w: WorldState<F>, xs: seq<AppliedInput<F>>, block: seq<AppliedInput<F>>, t: nat)
    requires forall i :: 0 <= i < |xs| ==> xs[i].tick < t
    requires forall i :: 0 <= i < |block| ==> block[i].tick == t
    ensures ReplayTicks(ar, w, xs + block, 0, t + 1) == Advance(ar, ReplayTicks(ar, w, xs, 0, t), SortedStepInputs(block))
  {
    ReplayIgnoresLater(ar, w, xs, block, t);
    AtTickConcat(xs, block, t);
    AtTickNone(xs, t);
    AtTickAll(block, t);
    assert AtTick(xs + block, t) == block;
  }

  // The recording of a run.

  ghost predicate TicksBelow<F>(inputs: seq<AppliedInput<F>>, n: nat) {
    forall i :: 0 <= i < |inputs| ==> inputs[i].tick < n
  }

  ghost predicate FirstTickPlayers<F>(inputs: seq<AppliedInput<F>>, starters: seq<PlayerId>) {
    forall i :: 0 <= i < |inputs| && inputs[i].tick == 0 ==> inputs[i].playerId in starters
  }

  ghost predicate Complete<F>(inputs: seq<AppliedInput<F>>, roster: seq<PlayerId>, ticks: nat) {
    forall p, t :: 0 <= t < ticks ==> Occurrences(Protos(inputs), p, t) == CountIn(roster, p)
  }

  /** The match so far is the replay of its recording, and the recording is complete. */
  ghost predicate Reproducible<F>(
    ar: Arith<F>, initial: WorldState<F>, roster: seq<PlayerId>, ticks: nat, r: RecorderState<F>, w: WorldState<F>)
  {
    && (ticks > 0 ==> r.initialBaseline == Some(BaselineOf(ar, initial)))
    && w == ReplayTicks(ar, initial, r.inputs, 0, ticks)
    && Complete(r.inputs, roster, ticks)
  }

  /** Unless somebody joined late, the match so far is reproducible. */
  ghost predicate ReplayInv<F>(
    ar: Arith<F>, config: ServerConfig, roster: seq<PlayerId>, late: bool, ticks: nat, r: RecorderState<F>, w: WorldState<F>)
  {
    late || Reproducible(ar, InitialWorld(ar, config, roster), roster, ticks, r, w)
  }

  lemma StepBlock<F>(ar: Arith<F>, s: ServerState<F>)
    ensures Block(StepApplied(ar, s), s.world.tick, s.registry.entitySpawnOrder)
  {
    CollectYields(ar, s.entries, s.lastKnownIntent, s.world.tick, s.registry.entitySpawnOrder);
  }

  lemma CompleteBlock<F>(xs: seq<AppliedInput<F>>, block: seq<AppliedInput<F>>, roster: seq<PlayerId>, t: nat)
    requires Complete(xs, roster, t) && TicksBelow(xs, t) && Block(block, t, roster)
    ensures Complete(xs + block, roster, t + 1)
  {
    forall p, u | 0 <= u < t + 1 ensures Occurrences(Protos(xs + block), p, u) == CountIn(roster, p) {
      assert Protos(xs + block) == Protos(xs) + Protos(block);
      OccurrencesConcat(Protos(xs), Protos(block), p, u);
      BlockOccurrences(block, t, roster, p, u);
      if u == t { NoneAbove(xs, t, p); }
    }
  }

  lemma {:induction false} NoneAbove<F>(xs: seq<AppliedInput<F>>, t: nat, p: nat)
    requires forall i :: 0 <= i < |xs| ==> xs[i].tick < t
    ensures Occurrences(Protos(xs), p, t) == 0
  {
    if xs == [] {
    } else {
      var n := |xs| - 1;
      assert Protos(xs)[..n] == Protos(xs[..n]);
      NoneAbove(xs[..n], t, p);
    }
  }

  lemma BlockTicks<F>(xs: seq<AppliedInput<F>>, block: seq<AppliedInput<F>>, t: nat, roster: seq<PlayerId>, starters: seq<PlayerId>)
    requires TicksBelow(xs, t) && FirstTickPlayers(xs, starters) && Block(block, t, roster) && (t == 0 ==> starters == roster)
    ensures TicksBelow(xs + block, t + 1) && FirstTickPlayers(xs + block, starters)
  {
  }

  lemma StepReproducible<F>(
    ar: Arith<F>, initial: WorldState<F>, roster: seq<PlayerId>, t: nat, r: RecorderState<F>, w: WorldState<F>, block: seq<AppliedInput<F>>)
    requires Reproducible(ar, initial, roster, t, r, w) && TicksBelow(r.inputs, t) && Block(block, t, roster)
    ensures Reproducible(ar, initial, roster, t + 1, Recording(ar, r, t > 0, w, block), Advance(ar, w, SortedStepInputs(block)))
  {
    CompleteBlock(r.inputs, block, roster, t);
    ReplayBlock(ar, initial, r.inputs, block, t);
  }

  /** A step's recorder and world in terms of the number of steps before it. */
  lemma StepParts<F>(ar: Arith<F>, s: ServerState<F>, ticks: nat)
    requires s.baselineRecorded == (ticks > 0)
    ensures StepServer(ar, s).recorder == Recording(ar, s.recorder, ticks > 0, s.world, StepApplied(ar, s))
    ensures StepServer(ar, s).world == Advance(ar, s.world, SortedStepInputs(StepApplied(ar, s)))
  {
  }

  /** What the cases need to know of a reachable state. */
  lemma BeforeEvent<F>(ar: Arith<F>, config: ServerConfig, evs: seq<Event<F>>, s: ServerState<F>)
    requires Legal(ar, config, evs) && s == After(ar, config, evs)
    ensures Enrollable(config, Joins(evs)) && s.registry.nextPlayerId == Joins(evs)
    ensures s.registry.entitySpawnOrder == Roster(config, Joins(evs))
    ensures s.world.tick == Steps(evs) && s.baselineRecorded == (Steps(evs) > 0)
  {
    RunKeepsInvariant(ar, config, evs);
  }

  // Ticks and first-tick players.

  lemma StepTicks<F>(ar: Arith<F>, s: ServerState<F>, starters: seq<PlayerId>, ticks: nat)
    requires TicksBelow(s.recorder.inputs, ticks) && FirstTickPlayers(s.recorder.inputs, starters) && s.world.tick == ticks
    requires ticks == 0 ==> starters == s.registry.entitySpawnOrder
    ensures TicksBelow(StepServer(ar, s).recorder.inputs, ticks + 1) && FirstTickPlayers(StepServer(ar, s).recorder.inputs, starters)
  {
    StepRecords(ar, s);
    StepBlock(ar, s);
    BlockTicks(s.recorder.inputs, StepApplied(ar, s), ticks, s.registry.entitySpawnOrder, starters);
  }

  lemma NoInputsYet<F>(inputs: seq<AppliedInput<F>>)
    requires TicksBelow(inputs, 0)
    ensures inputs == []
  {
    assert |inputs| > 0 ==> inputs[0].tick < 0;
  }

  lemma EventTicks<F>(ar: Arith<F>, s: ServerState<F>, e: Event<F>, starters: seq<PlayerId>, ticks: nat)
    requires s.config.tickRateHz > 0 && Enabled(s, e)
    requires TicksBelow(s.recorder.inputs, ticks) && FirstTickPlayers(s.recorder.inputs, starters) && s.world.tick == ticks
    requires ticks == 0 ==> starters == s.registry.entitySpawnOrder
    ensures TicksBelow(Apply(ar, s, e).recorder.inputs, if e.Step? then ticks + 1 else ticks)
    ensures FirstTickPlayers(Apply(ar, s, e).recorder.inputs, starters)
    ensures ticks == 0 && !e.Step? ==> Apply(ar, s, e).recorder.inputs == []
  {
    if e.Step? {
      StepTicks(ar, s, starters, ticks);
    } else {
      QuietInputs(ar, s, e);
      if ticks == 0 { NoInputsYet(s.recorder.inputs); }
    }
  }

  /** All recorded ticks are past, and tick 0 was applied to the starters only. */
  lemma {:induction false} RunTicks<F>(ar: Arith<F>, config: ServerConfig, evs: seq<Event<F>>)
    requires Legal(ar, config, evs)
    ensures Enrollable(config, Joins(evs))
    ensures TicksBelow(After(ar, config, evs).recorder.inputs, Steps(evs))
    ensures FirstTickPlayers(After(ar, config, evs).recorder.inputs, Roster(config, Starters(evs)))
  {
    BeforeEvent(ar, config, evs, After(ar, config, evs));
    if evs == [] {
    } else {
      var before := Front(evs);
      var s := After(ar, config, before);
      RunLast(ar, config, evs);
      RunTicks(ar, config, before);
      BeforeEvent(ar, config, before, s);
      EventTicks(ar, s, Last(evs), Roster(config, Starters(before)), Steps(before));
      assert Starters(evs) == Starters(before) || (Steps(before) == 0 && !Last(evs).Step?);
    }
  }

  // The replay.

  lemma StepReplay<F>(ar: Arith<F>, config: ServerConfig, s: ServerState<F>, late: bool, ticks: nat)
    requires ReplayInv(ar, config, s.registry.entitySpawnOrder, late, ticks, s.recorder, s.world) && TicksBelow(s.recorder.inputs, ticks)
    requires s.world.tick == ticks && s.baselineRecorded == (ticks > 0)
    ensures ReplayInv(ar, config, s.registry.entitySpawnOrder, late, ticks + 1, StepServer(ar, s).recorder, StepServer(ar, s).world)
  {
    StepParts(ar, s, ticks);
    StepBlock(ar, s);
    if !late {
      var roster := s.registry.entitySpawnOrder;
      StepReproducible(ar, InitialWorld(ar, config, roster), roster, ticks, s.recorder, s.world, StepApplied(ar, s));
    }
  }

  /** Before the first step a newcomer joins the initial world. */
  lemma AcceptReplay<F>(ar: Arith<F>, config: ServerConfig, roster: seq<PlayerId>, p: PlayerId, r: RecorderState<F>, w: WorldState<F>)
    requires ReplayInv(ar, config, roster, false, 0, r, w) && r.inputs == []
    ensures ReplayInv(ar, config, roster + [p], false, 0, RecordSpawn(r, p, w.nextEntityId), Spawn(ar, w, p))
  {
    assert (roster + [p])[..|roster|] == roster;
  }

  /** Events other than joining and stepping leave the world and the recorded inputs alone. */
  lemma QuietEvent<F>(ar: Arith<F>, s: ServerState<F>, e: Event<F>)
    requires s.config.tickRateHz > 0 && Enabled(s, e) && !e.Accept? && !e.Step?
    ensures
      var t := Apply(ar, s, e);
      t.world == s.world && t.recorder.inputs == s.recorder.inputs && t.recorder.initialBaseline == s.recorder.initialBaseline
    ensures Apply(ar, s, e).registry.entitySpawnOrder == s.registry.entitySpawnOrder
  {
  }

  lemma QuietReplay<F>(ar: Arith<F>, config: ServerConfig, s: ServerState<F>, e: Event<F>, roster: seq<PlayerId>, late: bool, ticks: nat)
    requires s.config.tickRateHz > 0 && Enabled(s, e) && !e.Accept? && !e.Step?
    requires ReplayInv(ar, config, roster, late, ticks, s.recorder, s.world)
    ensures ReplayInv(ar, config, roster, late, ticks, Apply(ar, s, e).recorder, Apply(ar, s, e).world)
  {
    QuietEvent(ar, s, e);
  }

  ghost predicate Late<F>(evs: seq<Event<F>>) { Starters(evs) < Joins(evs) }

  /** One event, as far as the replay is concerned. */
  lemma EventReplay<F>(ar: Arith<F>, config: ServerConfig, s: ServerState<F>, e: Event<F>, late: bool, ticks: nat)
    requires s.config.tickRateHz > 0 && Enabled(s, e)
    requires ReplayInv(ar, config, s.registry.entitySpawnOrder, late, ticks, s.recorder, s.world) && TicksBelow(s.recorder.inputs, ticks)
    requires s.world.tick == ticks && s.baselineRecorded == (ticks > 0)
    ensures
      var t := Apply(ar, s, e);
      ReplayInv(ar, config, t.registry.entitySpawnOrder, late || (e.Accept? && ticks > 0),
        if e.Step? then ticks + 1 else ticks, t.recorder, t.world)
  {
    match e {
      case Step => StepReplay(ar, config, s, late, ticks);
      case Accept =>
        if !late && ticks == 0 {
          NoInputsYet(s.recorder.inputs);
          AcceptReplay(ar, config, s.registry.entitySpawnOrder, AssignedId(s.config, s.registry.nextPlayerId), s.recorder, s.world);
        }
      case _ =>
        QuietReplay(ar, config, s, e, s.registry.entitySpawnOrder, late, ticks);
        QuietEvent(ar, s, e);
    }
  }

  /**
   In every reachable state, unless somebody joined late, the world is the replay of the
   recording, and the recording has each player exactly as often per tick as it joined.
   */
  lemma {:induction false} RunRecording<F>(ar: Arith<F>, config: ServerConfig, evs: seq<Event<F>>)
    requires Legal(ar, config, evs)
    ensures
      var s := After(ar, config, evs);
      ReplayInv(ar, config, s.registry.entitySpawnOrder, Late(evs), Steps(evs), s.recorder, s.world)
  {
    if evs == [] {
    } else {
      var before, e := Front(evs), Last(evs);
      var s := After(ar, config, before);
      RunLast(ar, config, evs);
      RunRecording(ar, config, before);
      RunTicks(ar, config, before);
      BeforeEvent(ar, config, before, s);
      EventReplay(ar, config, s, e, Late(before), Steps(before));
    }
  }

  // Reconstruction of the initial world from an artifact.

  function MappingOf(roster: seq<PlayerId>): seq<PlayerEntityMapping> {
    if roster == [] then []
    else MappingOf(roster[..|roster| - 1]) + [PlayerEntityMapping(roster[|roster| - 1], |roster|)]
  }

  lemma {:induction false} MappingIds(roster: seq<PlayerId>)
    ensures |MappingOf(roster)| == |roster|
    ensures forall i :: 0 <= i < |roster| ==> MappingOf(roster)[i] == PlayerEntityMapping(roster[i], i + 1)
  {
    if roster == [] {
    } else {
      MappingIds(roster[..|roster| - 1]);
    }
  }

  /** The table holds the entity of each id's last session. */
  lemma {:induction false} TableLastWins(roster: seq<PlayerId>, i: nat)
    requires i < |roster|
    ensures roster[i] in MappingTable(MappingOf(roster))
    ensures (forall j :: i < j < |roster| ==> roster[j] != roster[i]) ==> MappingTable(MappingOf(roster))[roster[i]] == i + 1
  {
    var n := |roster| - 1;
    var front := roster[..n];
    assert MappingOf(roster)[..|MappingOf(roster)| - 1] == MappingOf(front);
    if i == n {
    } else {
      TableLastWins(front, i);
    }
  }

  lemma {:induction false} SpawnAllIds<F>(ar: Arith<F>, w: WorldState<F>, players: seq<PlayerId>)
    ensures SpawnAll(ar, w, players).nextEntityId == w.nextEntityId + |players|
    ensures SpawnAll(ar, w, players).tick == w.tick
  {
    if players == [] {
    } else {
      SpawnAllIds(ar, w, players[..|players| - 1]);
    }
  }

  /** With distinct ids every entity comes out as recorded. */
  lemma {:induction false} ReconstructDistinct<F>(ar: Arith<F>, w: WorldState<F>, roster: seq<PlayerId>, k: nat)
    requires w.nextEntityId == 1 && Distinct(roster) && k <= |roster|
    ensures Reconstruct(ar, SpawnAll(ar, w, roster[..k]), MappingTable(MappingOf(roster)), Map(Widen, roster)[k..])
         == Ok(SpawnAll(ar, w, roster))
    decreases |roster| - k
  {
    var order := Map(Widen, roster);
    if k == |roster| {
      assert roster[..k] == roster && order[k..] == [];
    } else {
      TableLastWins(roster, k);
      SpawnNext(ar, w, roster, k);
      ReconstructDistinct(ar, w, roster, k + 1);
      ReconstructHead(ar, SpawnAll(ar, w, roster[..k]), MappingTable(MappingOf(roster)), order[k..]);
      assert order[k..][1..] == order[k + 1..] && order[k..][0] == roster[k];
    }
  }

  lemma SpawnNext<F>(ar: Arith<F>, w: WorldState<F>, roster: seq<PlayerId>, k: nat)
    requires k < |roster|
    ensures SpawnAll(ar, w, roster[..k + 1]) == Spawn(ar, SpawnAll(ar, w, roster[..k]), roster[k])
    ensures SpawnAll(ar, w, roster[..k]).nextEntityId == w.nextEntityId + k
  {
    SpawnAllIds(ar, w, roster[..k]);
    assert roster[..k + 1][..k] == roster[..k];
  }

  lemma ReconstructHead<F>(ar: Arith<F>, w: WorldState<F>, table: map<nat, nat>, order: seq<nat>)
    requires order != [] && order[0] in table && table[order[0]] == w.nextEntityId && order[0] < 256
    ensures Reconstruct(ar, w, table, order) == Reconstruct(ar, Spawn(ar, w, order[0]), table, order[1..])
  {
  }

  /** A successful reconstruction matched every table entry on the way. */
  lemma {:induction false} ReconstructMatches<F>(ar: Arith<F>, w: WorldState<F>, table: map<nat, nat>, order: seq<nat>, i: nat)
    requires Reconstruct(ar, w, table, order).Ok? && i < |order| && order[i] in table
    ensures table[order[i]] == w.nextEntityId + i
    decreases |order|
  {
    if i == 0 {
    } else {
      ReconstructMatches(ar, Spawn(ar, w, order[0] % 256), table, order[1..], i - 1);
    }
  }

  lemma ReconstructNeedsDistinct<F>(ar: Arith<F>, w: WorldState<F>, roster: seq<PlayerId>)
    requires w.nextEntityId == 1
    requires Reconstruct(ar, w, MappingTable(MappingOf(roster)), Map(Widen, roster)).Ok?
    ensures Distinct(roster)
  {
    forall i, j | 0 <= i < j < |roster| ensures roster[i] != roster[j] {
      if roster[i] == roster[j] {
        TableLastWins(roster, i);
        ReconstructMatches(ar, w, MappingTable(MappingOf(roster)), Map(Widen, roster), i);
        ReconstructMatches(ar, w, MappingTable(MappingOf(roster)), Map(Widen, roster), j);
        assert false;
      }
    }
  }

  lemma {:induction false} ConvertProtos<F>(inputs: seq<AppliedInput<F>>)
    ensures ConvertInputs(Protos(inputs)) == Some(inputs)
  {
    if inputs == [] {
    } else {
      var n := |inputs| - 1;
      ConvertProtos(inputs[..n]);
      assert Protos(inputs)[..n] == Protos(inputs[..n]);
      AppliedInputRoundTrip(inputs[n]);
      assert inputs == inputs[..n] + [inputs[n]];
    }
  }

  // Artifacts and what they record.

  /** The artifact names this roster and holds these inputs, up to this tick. */
  ghost predicate RecordOf<F>(config: ServerConfig, roster: seq<PlayerId>, ticks: nat, inputs: seq<AppliedInput<F>>, a: ReplayArtifact<F>) {
    && a.seed == config.seed && a.tickRateHz == config.tickRateHz
    && a.entitySpawnOrder == Map(Widen, roster)
    && a.playerEntityMapping == MappingOf(roster) && PlayerIds(a.playerEntityMapping) == Map(Widen, roster)
    && a.inputs == Protos(inputs)
    && a.checkpointTick == ticks
    && (a.initialBaseline.Some? <==> ticks > 0)
    && (a.initialBaseline.Some? ==> a.initialBaseline.value.tick == 0)
  }

  lemma CleanStream<F>(config: ServerConfig, roster: seq<PlayerId>, ticks: nat, inputs: seq<AppliedInput<F>>, a: ReplayArtifact<F>)
    requires RecordOf(config, roster, ticks, inputs, a) && ticks >= 1 && Distinct(roster)
    requires TicksBelow(inputs, ticks) && Complete(inputs, roster, ticks)
    ensures StreamSound(a)
  {
    forall p | p in PlayerIds(a.playerEntityMapping) ensures OnceEach(a.inputs, p, 0, ticks) {
      CountDistinct(roster, p);
      assert p in roster;
    }
    forall i | 0 <= i < |a.inputs| ensures 0 <= a.inputs[i].tick < ticks && a.inputs[i].playerId in Map(Widen, roster) {
      var p := inputs[i].playerId;
      assert a.inputs[i] == inputs[i].ToProto();
      OccursOnce(a.inputs, i);
      CountDistinct(roster, p);
      var j :| 0 <= j < |roster| && roster[j] == p;
      assert Map(Widen, roster)[j] == p;
    }
  }

  /** A reproducible, complete recording with distinct ids verifies. */
  lemma CleanVerifies<F>(
    ar: Arith<F>, config: ServerConfig, roster: seq<PlayerId>, ticks: nat, r: RecorderState<F>, w: WorldState<F>, a: ReplayArtifact<F>)
    requires RecordOf(config, roster, ticks, r.inputs, a) && ticks >= 1 && Distinct(roster)
    requires TicksBelow(r.inputs, ticks) && Reproducible(ar, InitialWorld(ar, config, roster), roster, ticks, r, w)
    requires a.initialBaseline.value.digest == r.initialBaseline.value.digest
    requires w.tick == ticks && a.finalDigest == StateDigest(ar, w)
    ensures ValidateStream(a).Ok? && VerifyFrom(ar, a, a.initialBaseline.value) == Ok(())
  {
    CleanStream(config, roster, ticks, r.inputs, a);
    ValidateExact(a);
    ReconstructDistinct(ar, NewWorld(ar, config.seed, config.tickRateHz), roster, 0);
    assert Map(Widen, roster)[0..] == Map(Widen, roster);
    ConvertProtos(r.inputs);
  }

  /** What the verifier has established when it accepts. */
  lemma AcceptedIsClean<F>(
    ar: Arith<F>, config: ServerConfig, roster: seq<PlayerId>, ticks: nat, inputs: seq<AppliedInput<F>>, a: ReplayArtifact<F>, options: VerifyOptions)
    requires RecordOf(config, roster, ticks, inputs, a) && Verify(ar, a, options).Ok?
    ensures ticks >= 1 && Distinct(roster) && StreamSound(a) && BuildAccepted(a.buildFingerprint, options)
  {
    ValidateExact(a);
    ReconstructNeedsDistinct(ar, NewWorld(ar, config.seed, config.tickRateHz), roster);
  }

  /** If the first tick's inputs come from the first k players only, the last player has none there. */
  lemma LatecomerMissing<F>(
    config: ServerConfig, roster: seq<PlayerId>, k: nat, ticks: nat, inputs: seq<AppliedInput<F>>, a: ReplayArtifact<F>)
    requires RecordOf(config, roster, ticks, inputs, a) && ticks >= 1 && Distinct(roster) && k < |roster|
    requires FirstTickPlayers(inputs, roster[..k])
    ensures !StreamSound(a)
  {
    var n := |roster| - 1;
    var p := roster[n];
    assert Map(Widen, roster)[n] == p;
    NoFirstTick(inputs, roster[..k], p);
    assert StreamSound(a) ==> OnceEach(a.inputs, p, 0, ticks);
  }

  lemma {:induction false} NoFirstTick<F>(inputs: seq<AppliedInput<F>>, starters: seq<PlayerId>, p: PlayerId)
    requires FirstTickPlayers(inputs, starters) && p !in starters
    ensures Occurrences(Protos(inputs), p, 0) == 0
  {
    if inputs == [] {
    } else {
      var n := |inputs| - 1;
      NoFirstTick(inputs[..n], starters, p);
      assert Protos(inputs)[..n] == Protos(inputs[..n]);
      assert inputs[n].tick == 0 ==> inputs[n].playerId in starters;
    }
  }

  // The artifact of a run.

  lemma {:induction false} RosterPrefix(config: ServerConfig, k: nat, n: nat)
    requires Enrollable(config, n) && k <= n
    ensures Roster(config, k) == Roster(config, n)[..k]
  {
  }

  lemma SpawnRecord(roster: seq<PlayerId>, mapping: seq<(PlayerId, nat)>)
    requires |mapping| == |roster| && forall i :: 0 <= i < |roster| ==> mapping[i] == (roster[i], i + 1)
    ensures Map(MappingProto, mapping) == MappingOf(roster)
    ensures PlayerIds(MappingOf(roster)) == Map(Widen, roster)
  {
    MappingIds(roster);
  }

  lemma ArtifactOf<F>(ar: Arith<F>, config: ServerConfig, evs: seq<Event<F>>, s: ServerState<F>)
    requires RosterInv(config, evs, s) && ClockInv(ar, config, evs, s)
    ensures
      var a := Finalize(ar, s);
      && RecordOf(config, Roster(config, Joins(evs)), Steps(evs), s.recorder.inputs, a)
      && a.buildFingerprint == LastFingerprint(evs)
      && (a.initialBaseline.Some? ==> a.initialBaseline.value.digest == s.recorder.initialBaseline.value.digest)
      && a.finalDigest == StateDigest(ar, s.world) && s.world.tick == Steps(evs)
  {
    SpawnRecord(Roster(config, Joins(evs)), s.recorder.playerEntityMapping);
  }

  // The theorem.

  /** No accept comes after a step. */
  ghost predicate NobodyJoinedLate<F>(evs: seq<Event<F>>) {
    forall i, j :: 0 <= i < j < |evs| && evs[i].Step? ==> !evs[j].Accept?
  }

  /** No two sessions were assigned one player id. */
  ghost predicate DistinctPlayers<F>(config: ServerConfig, evs: seq<Event<F>>) {
    Enrollable(config, Joins(evs)) && Distinct(Roster(config, Joins(evs)))
  }

  /** The conditions of verifiability, all of them known before the artifact is read. */
  ghost predicate CleanRun<F>(config: ServerConfig, evs: seq<Event<F>>, options: VerifyOptions) {
    && BuildAccepted(LastFingerprint(evs), options)
    && Steps(evs) >= 1
    && NobodyJoinedLate(evs)
    && DistinctPlayers(config, evs)
  }

  lemma {:induction false} NoStepExact<F>(evs: seq<Event<F>>)
    ensures Steps(evs) == 0 <==> forall i :: 0 <= i < |evs| ==> !evs[i].Step?
  {
    if evs == [] {
    } else {
      NoStepExact(Front(evs));
      assert evs == Front(evs) + [Last(evs)];
    }
  }

  lemma {:induction false} LateExact<F>(evs: seq<Event<F>>)
    ensures Starters(evs) == Joins(evs) <==> NobodyJoinedLate(evs)
  {
    if evs == [] {
    } else {
      var front, n := Front(evs), |evs| - 1;
      LateExact(front);
      NoStepExact(front);
      assert forall i :: 0 <= i < n ==> evs[i] == front[i];
      if NobodyJoinedLate(front) && !(Last(evs).Accept? && Steps(front) > 0) {
        forall i, j | 0 <= i < j < |evs| && evs[i].Step? ensures !evs[j].Accept? {
          if j == n { assert front[i].Step?; }
        }
      }
    }
  }

  /** Sufficiency: a clean run verifies. */
  lemma CleanRunVerifies<F>(ar: Arith<F>, config: ServerConfig, evs: seq<Event<F>>, options: VerifyOptions)
    requires Legal(ar, config, evs) && Steps(evs) >= 1 && NobodyJoinedLate(evs)
    requires DistinctPlayers(config, evs) && BuildAccepted(LastFingerprint(evs), options)
    ensures Verify(ar, Finalize(ar, After(ar, config, evs)), options) == Ok(())
  {
    var s := After(ar, config, evs);
    RunKeepsInvariant(ar, config, evs);
    RunRecording(ar, config, evs);
    RunTicks(ar, config, evs);
    LateExact(evs);
    ArtifactOf(ar, config, evs, s);
    CleanVerifies(ar, config, Roster(config, Joins(evs)), Steps(evs), s.recorder, s.world, Finalize(ar, s));
  }

  /** The latecomer's missing input makes the stream unsound. */
  lemma LateStream<F>(ar: Arith<F>, config: ServerConfig, evs: seq<Event<F>>)
    requires Legal(ar, config, evs) && Steps(evs) >= 1 && !NobodyJoinedLate(evs) && DistinctPlayers(config, evs)
    ensures !StreamSound(Finalize(ar, After(ar, config, evs)))
  {
    var s := After(ar, config, evs);
    RunKeepsInvariant(ar, config, evs);
    RunTicks(ar, config, evs);
    LateExact(evs);
    ArtifactOf(ar, config, evs, s);
    RosterPrefix(config, Starters(evs), Joins(evs));
    LatecomerMissing(config, Roster(config, Joins(evs)), Starters(evs), Steps(evs), s.recorder.inputs, Finalize(ar, s));
  }

  /** Necessity: what an accepted run must have been. */
  lemma AcceptedRunIsClean<F>(ar: Arith<F>, config: ServerConfig, evs: seq<Event<F>>, options: VerifyOptions)
    requires Legal(ar, config, evs) && Verify(ar, Finalize(ar, After(ar, config, evs)), options).Ok?
    ensures Steps(evs) >= 1 && NobodyJoinedLate(evs)
    ensures DistinctPlayers(config, evs) && BuildAccepted(LastFingerprint(evs), options)
  {
    var s := After(ar, config, evs);
    RunKeepsInvariant(ar, config, evs);
    ArtifactOf(ar, config, evs, s);
    AcceptedIsClean(ar, config, Roster(config, Joins(evs)), Steps(evs), s.recorder.inputs, Finalize(ar, s), options);
    if !NobodyJoinedLate(evs) {
      LateStream(ar, config, evs);
    }
  }

  /**
   Replay verifiability, exactly. For every run of the server, verifying the artifact it
   records succeeds if and only if the builds are acceptable, at least one step was
   taken, nobody joined after the first step, and no two sessions shared a player id.
   Inputs, ties, rate-limited drops, fallbacks and disconnects play no part.
   */
  lemma VerifyExact<F>(ar: Arith<F>, config: ServerConfig, evs: seq<Event<F>>, options: VerifyOptions)
    requires Legal(ar, config, evs)
    ensures Verify(ar, Finalize(ar, After(ar, config, evs)), options).Ok? <==> CleanRun(config, evs, options)
  {
    if Verify(ar, Finalize(ar, After(ar, config, evs)), options).Ok? {
      AcceptedRunIsClean(ar, config, evs, options);
    } else if CleanRun(config, evs, options) {
      CleanRunVerifies(ar, config, evs, options);
    }
  }

  /** A late join shows up as an invalid input stream. */
  lemma LateJoinRejected<F>(ar: Arith<F>, config: ServerConfig, evs: seq<Event<F>>, options: VerifyOptions)
    requires Legal(ar, config, evs) && Steps(evs) >= 1 && !NobodyJoinedLate(evs)
    requires DistinctPlayers(config, evs) && BuildAccepted(LastFingerprint(evs), options)
    ensures
      var verdict := Verify(ar, Finalize(ar, After(ar, config, evs)), options);
      verdict.Err? && verdict.error.InputStreamInvalid?
  {
    var s := After(ar, config, evs);
    RunKeepsInvariant(ar, config, evs);
    ArtifactOf(ar, config, evs, s);
    LateStream(ar, config, evs);
    UnsoundRejected(ar, Finalize(ar, s), options);
  }

  lemma UnsoundRejected<F>(ar: Arith<F>, a: ReplayArtifact<F>, options: VerifyOptions)
    requires BuildAccepted(a.buildFingerprint, options) && a.initialBaseline.Some? && !StreamSound(a)
    ensures Verify(ar, a, options).Err? && Verify(ar, a, options).error.InputStreamInvalid?
  {
    ValidateExact(a);
  }

  // A run whose artifact is not accepted.

  function JoinedLate<F>(): seq<Event<F>> { [Event.Accept] + [Event.Step] + [Event.Accept] }

  lemma OneJoined<F>(ar: Arith<F>, evs: seq<Event<F>>)
    requires evs == [Event.Accept]
    ensures Run(ar, DEFAULTS, evs) == Some(AcceptSession(ar, NewServer(ar, DEFAULTS)))
  {
    assert Front(evs) == [] && Run(ar, DEFAULTS, []) == Some(NewServer(ar, DEFAULTS));
    assert CanAccept(NewServer(ar, DEFAULTS));
  }

  /** After one accept and one step there is room for another session. */
  lemma SecondFits<F>(ar: Arith<F>, s: ServerState<F>)
    requires s == AcceptSession(ar, NewServer(ar, DEFAULTS))
    ensures CanAccept(StepServer(ar, s))
  {
    assert |map[1 := Session(1, 0, 1)]| == 1;
  }

  lemma ThenLate<F>(ar: Arith<F>, e1: seq<Event<F>>, s1: ServerState<F>)
    requires Run(ar, DEFAULTS, e1) == Some(s1) && CanAccept(StepServer(ar, s1))
    ensures Legal(ar, DEFAULTS, e1 + [Event.Step] + [Event.Accept])
  {
    RunExtends(ar, DEFAULTS, e1, Event.Step);
    RunExtends(ar, DEFAULTS, e1 + [Event.Step], Event.Accept);
  }

  lemma JoinedLateLegal<F>(ar: Arith<F>)
    ensures Legal(ar, DEFAULTS, JoinedLate())
  {
    OneJoined(ar, [Event.Accept]);
    SecondFits(ar, AcceptSession(ar, NewServer(ar, DEFAULTS)));
    ThenLate(ar, [Event.Accept], AcceptSession(ar, NewServer(ar, DEFAULTS)));
  }

  lemma JoinedLateCounts<F>()
    ensures Joins(JoinedLate<F>()) == 2 && Steps(JoinedLate<F>()) == 1 && LastFingerprint(JoinedLate<F>()).None?
  {
    var e1 := [Event<F>.Accept];
    assert Front(e1) == [];
    LastOf(e1, Event<F>.Step);
    LastOf(e1 + [Event.Step], Event<F>.Accept);
  }

  /** Somebody joins a match that has begun: with default settings its artifact is rejected. */
  lemma LateJoinRun<F>(ar: Arith<F>, options: VerifyOptions)
    ensures Legal(ar, DEFAULTS, JoinedLate())
    ensures
      var verdict := Verify(ar, Finalize(ar, After(ar, DEFAULTS, JoinedLate())), options);
      verdict.Err? && verdict.error.InputStreamInvalid?
  {
    JoinedLateLegal(ar);
    JoinedLateCounts<F>();
    RunKeepsInvariant(ar, DEFAULTS, JoinedLate());
    DefaultIdsDistinct(DEFAULTS, 2);
    assert JoinedLate<F>()[1].Step? && JoinedLate<F>()[2].Accept?;
    LateJoinRejected(ar, DEFAULTS, JoinedLate(), options);
  }
}
