/**
 Where every character is, as a function of the event history.

 `CharacterAt` follows one session's character through a run: it appears at the origin
 when the session joins and moves once per step by that player's applied input.
 `TrajectoryRefinement` proves that the server's world holds exactly these characters.
 */
module Trajectories {
  import opened Sequences
  import opened Float64
  import opened Simulation
  import opened Replay
  import opened Verdicts
  import opened ServerModel
  import opened ServerRuns
  import opened RecordThenVerify
  import opened InputTrace

  function TickLength<F>(ar: Arith<F>, config: ServerConfig): F { NewWorld(ar, config.seed, config.tickRateHz).dt }

  /** The character of the session that joined as number `i`, counting from 0. */
  function CharacterAt<F>(ar: Arith<F>, config: ServerConfig, evs: seq<Event<F>>, i: nat): Character<F>
    requires config.tickRateHz > 0 && i < Joins(evs)
  {
    var front := Front(evs);
    match Last(evs)
    case Accept =>
      if i == Joins(front) then NewCharacter(ar, i + 1, IdAt(config, i)) else CharacterAt(ar, config, front, i)
    case Step =>
      Move(ar, TickLength(ar, config), CharacterAt(ar, config, front, i), AppliedAt(ar, config, front, IdAt(config, i)).moveDir)
    case _ => CharacterAt(ar, config, front, i)
  }

  // One tick moves every character once, by its own input.

  ghost predicate DistinctOwners<F>(cs: seq<Character<F>>) {
    forall i, j :: 0 <= i < j < |cs| ==> cs[i].playerId != cs[j].playerId
  }

  lemma {:induction false} Untouched<F>(ar: Arith<F>, dt: F, cs: seq<Character<F>>, inputs: seq<StepInput<F>>, i: nat)
    requires i < |cs| && forall k :: 0 <= k < |inputs| ==> inputs[k].playerId != cs[i].playerId
    ensures ApplyMovements(ar, dt, cs, inputs)[i] == cs[i]
  {
    if inputs == [] {
    } else {
      Untouched(ar, dt, cs, inputs[..|inputs| - 1], i);
    }
  }

  lemma {:induction false} MovedOnce<F>(ar: Arith<F>, dt: F, cs: seq<Character<F>>, inputs: seq<StepInput<F>>, i: nat, k: nat)
    requires i < |cs| && k < |inputs| && inputs[k].playerId == cs[i].playerId
    requires DistinctOwners(cs) && DistinctBy(PlayerKey, inputs)
    ensures ApplyMovements(ar, dt, cs, inputs)[i] == Move(ar, dt, cs[i], inputs[k].moveDir)
  {
    var n := |inputs| - 1;
    var before := ApplyMovements(ar, dt, cs, inputs[..n]);
    MovementsKeepIdentity(ar, dt, cs, inputs[..n]);
    var j := IndexOfPlayer(before, inputs[n].playerId);
    assert PlayerKey(inputs[k]) != PlayerKey(inputs[n]) || k == n;
    if k == n {
      assert forall m :: 0 <= m < n ==> PlayerKey(inputs[m]) != PlayerKey(inputs[n]);
      Untouched(ar, dt, cs, inputs[..n], i);
      assert before[i].playerId == inputs[n].playerId;
      assert j == i;
    } else {
      MovedOnce(ar, dt, cs, inputs[..n], i, k);
    }
  }

  lemma SortKeepsDistinct<F>(inputs: seq<StepInput<F>>)
    requires DistinctBy(PlayerKey, inputs)
    ensures DistinctBy(PlayerKey, SortBy(PlayerKey, inputs))
    ensures forall x :: x in SortBy(PlayerKey, inputs) <==> x in inputs
  {
    SortBySorts(PlayerKey, inputs);
    DistinctByPermutes(PlayerKey, inputs, SortBy(PlayerKey, inputs));
  }

  /** A tick's inputs, one per player: each character moves by its own. */
  lemma AdvanceEach<F>(ar: Arith<F>, dt: F, cs: seq<Character<F>>, applied: seq<AppliedInput<F>>, i: nat)
    requires |applied| == |cs| && i < |cs| && DistinctOwners(cs)
    requires forall k :: 0 <= k < |cs| ==> applied[k].playerId == cs[k].playerId
    ensures ApplyMovements(ar, dt, cs, SortedStepInputs(applied))[i] == Move(ar, dt, cs[i], applied[i].moveDir)
  {
    var inputs := Map(StepInputOf, applied);
    assert forall k :: 0 <= k < |cs| ==> PlayerKey(inputs[k]) == cs[k].playerId;
    SortKeepsDistinct(inputs);
    var sorted := SortBy(PlayerKey, inputs);
    assert inputs[i] in sorted;
    var k :| 0 <= k < |sorted| && sorted[k] == inputs[i];
    MovedOnce(ar, dt, cs, sorted, i, k);
  }

  // Runs.

  ghost predicate CharactersInv<F>(ar: Arith<F>, config: ServerConfig, evs: seq<Event<F>>, cs: seq<Character<F>>)
    requires config.tickRateHz > 0
  {
    |cs| == Joins(evs) && forall i :: 0 <= i < |cs| ==> cs[i] == CharacterAt(ar, config, evs, i)
  }

  /** The step moves character i by what the history says player i does. */
  lemma StepMoves<F>(ar: Arith<F>, config: ServerConfig, evs: seq<Event<F>>, s: ServerState<F>, i: nat)
    requires config.tickRateHz > 0 && s.world.tick == Steps(evs)
    requires EntriesInv(ar, config, evs, s.entries) && IntentsInv(ar, config, evs, s.lastKnownIntent)
    requires Distinct(s.registry.entitySpawnOrder) && IntentInv(s) && Owned(s.registry.entitySpawnOrder, s.world.characters)
    requires i < |s.world.characters|
    ensures StepServer(ar, s).world.characters[i]
         == Move(ar, s.world.dt, s.world.characters[i], AppliedAt(ar, config, evs, s.registry.entitySpawnOrder[i]).moveDir)
  {
    var players := s.registry.entitySpawnOrder;
    StepBlock(ar, s);
    CollectDistinct(ar, s.entries, s.lastKnownIntent, s.world.tick, players);
    AdvanceEach(ar, s.world.dt, s.world.characters, StepApplied(ar, s), i);
    AppliedMeetsSpec(ar, config, evs, s, players[i]);
  }

  ghost predicate Owned<F>(players: seq<PlayerId>, cs: seq<Character<F>>) {
    |cs| == |players| && forall i :: 0 <= i < |cs| ==> cs[i].playerId == players[i]
  }

  lemma StepCharacters<F>(ar: Arith<F>, config: ServerConfig, evs: seq<Event<F>>, s: ServerState<F>)
    requires config.tickRateHz > 0 && s.config == config && Distinct(s.registry.entitySpawnOrder)
    requires RosterInv(config, evs, s) && s.world.tick == Steps(evs) && s.world.dt == TickLength(ar, config) && IntentInv(s)
    requires EntriesInv(ar, config, evs, s.entries) && IntentsInv(ar, config, evs, s.lastKnownIntent)
    requires CharactersInv(ar, config, evs, s.world.characters)
    ensures CharactersInv(ar, config, evs + [Event.Step], StepServer(ar, s).world.characters)
  {
    var roster, cs, after := s.registry.entitySpawnOrder, s.world.characters, StepServer(ar, s).world.characters;
    RosterIds(config, Joins(evs));
    forall i | 0 <= i < |cs|
      ensures after[i] == Move(ar, TickLength(ar, config), cs[i], AppliedAt(ar, config, evs, IdAt(config, i)).moveDir)
    {
      StepMoves(ar, config, evs, s, i);
    }
    MovedCharacters(ar, config, evs, cs, after);
  }

  /** Characters that each moved by their own input follow the history one step further. */
  lemma MovedCharacters<F>(ar: Arith<F>, config: ServerConfig, evs: seq<Event<F>>, cs: seq<Character<F>>, after: seq<Character<F>>)
    requires config.tickRateHz > 0 && CharactersInv(ar, config, evs, cs) && |after| == |cs|
    requires forall i :: 0 <= i < |cs| ==>
      after[i] == Move(ar, TickLength(ar, config), cs[i], AppliedAt(ar, config, evs, IdAt(config, i)).moveDir)
    ensures CharactersInv(ar, config, evs + [Event.Step], after)
  {
    LastOf(evs, Event<F>.Step);
  }

  lemma QuietCharacters<F>(ar: Arith<F>, config: ServerConfig, evs: seq<Event<F>>, s: ServerState<F>, e: Event<F>)
    requires config.tickRateHz > 0 && s.config == config && Enabled(s, e) && !e.Step?
    requires RosterInv(config, evs, s) && CharactersInv(ar, config, evs, s.world.characters)
    ensures CharactersInv(ar, config, evs + [e], Apply(ar, s, e).world.characters)
  {
    LastOf(evs, e);
    if !e.Accept? { QuietEvent(ar, s, e); }
  }

  lemma EventCharacters<F>(ar: Arith<F>, config: ServerConfig, evs: seq<Event<F>>, s: ServerState<F>, e: Event<F>)
    requires config.tickRateHz > 0 && s.config == config && Enabled(s, e)
    requires RosterInv(config, evs, s) && s.world.tick == Steps(evs) && s.world.dt == TickLength(ar, config) && IntentInv(s)
    requires EntriesInv(ar, config, evs, s.entries) && IntentsInv(ar, config, evs, s.lastKnownIntent)
    requires Distinct(s.registry.entitySpawnOrder) && CharactersInv(ar, config, evs, s.world.characters)
    ensures CharactersInv(ar, config, evs + [e], Apply(ar, s, e).world.characters)
  {
    if e.Step? {
      StepCharacters(ar, config, evs, s);
    } else {
      QuietCharacters(ar, config, evs, s, e);
    }
  }

  /**
   Every character of the world is where its own player's inputs took it: character i
   started at the origin and moved once per step by what was applied for its player.
   */
  lemma {:induction false} TrajectoryRefinement<F>(ar: Arith<F>, config: ServerConfig, evs: seq<Event<F>>)
    requires Legal(ar, config, evs) && DistinctPlayers(config, evs)
    ensures
      var cs := After(ar, config, evs).world.characters;
      |cs| == Joins(evs) && forall i :: 0 <= i < |cs| ==> cs[i] == CharacterAt(ar, config, evs, i)
  {
    if evs == [] {
    } else {
      var before := Front(evs);
      RunLast(ar, config, evs);
      DistinctEarlier(config, evs);
      TrajectoryRefinement(ar, config, before);
      RunKeepsInvariant(ar, config, before);
      RunTrace(ar, config, before);
      EventCharacters(ar, config, before, After(ar, config, before), Last(evs));
    }
  }

  // The whole trajectory.

  /** The character of join `i` after every step since it appeared. */
  function PathOf<F>(ar: Arith<F>, config: ServerConfig, evs: seq<Event<F>>, i: nat): seq<Character<F>>
    requires config.tickRateHz > 0
  {
    if evs == [] then []
    else
      var before := PathOf(ar, config, Front(evs), i);
      if Last(evs).Step? && i < Joins(evs) then before + [CharacterAt(ar, config, evs, i)] else before
  }

  /** The same, as the server's world shows it step by step. */
  ghost function WorldPath<F>(ar: Arith<F>, config: ServerConfig, evs: seq<Event<F>>, i: nat): seq<Character<F>>
    requires Legal(ar, config, evs)
  {
    if evs == [] then []
    else
      RunLast(ar, config, evs);
      var before, cs := WorldPath(ar, config, Front(evs), i), After(ar, config, evs).world.characters;
      if Last(evs).Step? && i < |cs| then before + [cs[i]] else before
  }

  lemma {:induction false} PathRefinement<F>(ar: Arith<F>, config: ServerConfig, evs: seq<Event<F>>, i: nat)
    requires Legal(ar, config, evs) && DistinctPlayers(config, evs)
    ensures WorldPath(ar, config, evs, i) == PathOf(ar, config, evs, i)
  {
    if evs == [] {
    } else {
      RunLast(ar, config, evs);
      DistinctEarlier(config, evs);
      PathRefinement(ar, config, Front(evs), i);
      TrajectoryRefinement(ar, config, evs);
    }
  }
}
