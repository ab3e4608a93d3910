/**
 When a recording is in the order its specification asks for: tick ascending, and player
 ids ascending within a tick; and the entity mapping by ascending player id.

 The recorder writes both in spawn order, so the answer depends on the ids that were
 handed out, and for the inputs only on those handed out before the last step.
 */
module RecordingOrder {
  import opened Wrappers
  import opened Float64
  import opened Simulation
  import opened Replay
  import opened ServerModel
  import opened ServerRuns
  import opened RecordThenVerify

  ghost predicate InOrder<F>(x: AppliedInput<F>, y: AppliedInput<F>) {
    x.tick < y.tick || (x.tick == y.tick && x.playerId <= y.playerId)
  }

  ghost predicate Canonical<F>(inputs: seq<AppliedInput<F>>) {
    forall i, j :: 0 <= i < j < |inputs| ==> InOrder(inputs[i], inputs[j])
  }

  ghost predicate Ascending(ids: seq<PlayerId>) {
    forall i, j :: 0 <= i < j < |ids| ==> ids[i] <= ids[j]
  }

  ghost predicate MappingAscending(mapping: seq<PlayerEntityMapping>) {
    forall i, j :: 0 <= i < j < |mapping| ==> mapping[i].playerId <= mapping[j].playerId
  }

  /** Those who joined before the last step. */
  function JoinsAtLastStep<F>(evs: seq<Event<F>>): (n: nat)
    ensures n <= Joins(evs)
  {
    if evs == [] then 0
    else if Last(evs).Step? then Joins(Front(evs))
    else JoinsAtLastStep(Front(evs))
  }

  // One tick after another.

  /** Appending a later tick keeps the order exactly when the tick itself is in order. */
  lemma AppendTick<F>(xs: seq<AppliedInput<F>>, block: seq<AppliedInput<F>>, tick: nat, roster: seq<PlayerId>)
    requires TicksBelow(xs, tick) && Block(block, tick, roster)
    ensures Canonical(xs + block) <==> Canonical(xs) && Ascending(roster)
  {
    var all := xs + block;
    if Canonical(all) {
      CanonicalParts(xs, block);
      forall i, j | 0 <= i < j < |roster| ensures roster[i] <= roster[j] {
        assert InOrder(block[i], block[j]);
      }
    }
    if Canonical(xs) && Ascending(roster) {
      forall i, j | 0 <= i < j < |all| ensures InOrder(all[i], all[j]) {
        if j < |xs| {
          assert InOrder(xs[i], xs[j]);
        } else if i >= |xs| {
          assert all[i] == block[i - |xs|] && all[j] == block[j - |xs|];
        }
      }
    }
  }

  lemma CanonicalParts<F>(xs: seq<AppliedInput<F>>, ys: seq<AppliedInput<F>>)
    requires Canonical(xs + ys)
    ensures Canonical(xs) && Canonical(ys)
  {
    var all := xs + ys;
    forall i, j | 0 <= i < j < |xs| ensures InOrder(xs[i], xs[j]) {
      assert InOrder(all[i], all[j]);
    }
    forall i, j | 0 <= i < j < |ys| ensures InOrder(ys[i], ys[j]) {
      assert InOrder(all[|xs| + i], all[|xs| + j]);
    }
  }

  lemma AscendingPrefix(config: ServerConfig, k: nat, n: nat)
    requires Enrollable(config, n) && k <= n && Ascending(Roster(config, n))
    ensures Ascending(Roster(config, k))
  {
    RosterPrefix(config, k, n);
  }

  lemma StepInputs<F>(ar: Arith<F>, s: ServerState<F>)
    ensures StepServer(ar, s).recorder.inputs == s.recorder.inputs + StepApplied(ar, s)
    ensures Block(StepApplied(ar, s), s.world.tick, s.registry.entitySpawnOrder)
  {
    StepRecords(ar, s);
    StepBlock(ar, s);
  }

  lemma StepOrder<F>(ar: Arith<F>, config: ServerConfig, evs: seq<Event<F>>, s: ServerState<F>)
    requires RosterInv(config, evs, s) && s.world.tick == Steps(evs) && TicksBelow(s.recorder.inputs, Steps(evs))
    requires Canonical(s.recorder.inputs) <==> Ascending(Roster(config, JoinsAtLastStep(evs)))
    ensures Canonical(StepServer(ar, s).recorder.inputs) <==> Ascending(Roster(config, Joins(evs)))
  {
    var roster := Roster(config, Joins(evs));
    StepInputs(ar, s);
    AppendTick(s.recorder.inputs, StepApplied(ar, s), s.world.tick, roster);
    if Ascending(roster) { AscendingPrefix(config, JoinsAtLastStep(evs), Joins(evs)); }
  }

  lemma TicksOfRun<F>(ar: Arith<F>, config: ServerConfig, evs: seq<Event<F>>)
    requires Legal(ar, config, evs)
    ensures Enrollable(config, Joins(evs))
    ensures
      var s := After(ar, config, evs);
      RosterInv(config, evs, s) && s.world.tick == Steps(evs) && TicksBelow(s.recorder.inputs, Steps(evs))
  {
    RunKeepsInvariant(ar, config, evs);
    RunTicks(ar, config, evs);
  }

  /**
   The recorded inputs are in canonical order exactly when the ids handed out before the
   last step were handed out in ascending order.
   */
  lemma {:induction false} CanonicalExact<F>(ar: Arith<F>, config: ServerConfig, evs: seq<Event<F>>)
    requires Legal(ar, config, evs)
    ensures Enrollable(config, Joins(evs))
    ensures Canonical(After(ar, config, evs).recorder.inputs) <==> Ascending(Roster(config, JoinsAtLastStep(evs)))
  {
    TicksOfRun(ar, config, evs);
    if evs == [] {
    } else {
      var front, e := Front(evs), Last(evs);
      RunLast(ar, config, evs);
      CanonicalExact(ar, config, front);
      TicksOfRun(ar, config, front);
      if e.Step? {
        StepOrder(ar, config, front, After(ar, config, front));
      } else {
        QuietInputs(ar, After(ar, config, front), e);
      }
    }
  }

  /** The artifact's entity mapping is sorted exactly when all ids were handed out in ascending order. */
  lemma MappingOrderExact<F>(ar: Arith<F>, config: ServerConfig, evs: seq<Event<F>>)
    requires Legal(ar, config, evs)
    ensures Enrollable(config, Joins(evs))
    ensures MappingAscending(Finalize(ar, After(ar, config, evs)).playerEntityMapping) <==> Ascending(Roster(config, Joins(evs)))
  {
    RunKeepsInvariant(ar, config, evs);
    var roster, mapping := Roster(config, Joins(evs)), Finalize(ar, After(ar, config, evs)).playerEntityMapping;
    assert |mapping| == |roster| && forall i :: 0 <= i < |roster| ==> mapping[i].playerId == roster[i];
    SameOrder(mapping, roster);
  }

  lemma SameOrder(mapping: seq<PlayerEntityMapping>, roster: seq<PlayerId>)
    requires |mapping| == |roster| && forall i :: 0 <= i < |roster| ==> mapping[i].playerId == roster[i]
    ensures MappingAscending(mapping) <==> Ascending(roster)
  {
    if MappingAscending(mapping) {
      forall i, j | 0 <= i < j < |roster| ensures roster[i] <= roster[j] {
        assert mapping[i].playerId <= mapping[j].playerId;
      }
    }
  }

  /** Without configured test ids both are always in order. */
  lemma DefaultIdsCanonical<F>(ar: Arith<F>, config: ServerConfig, evs: seq<Event<F>>)
    requires Legal(ar, config, evs) && config.testPlayerIds.None?
    ensures Canonical(After(ar, config, evs).recorder.inputs)
    ensures MappingAscending(Finalize(ar, After(ar, config, evs)).playerEntityMapping)
  {
    CanonicalExact(ar, config, evs);
    MappingOrderExact(ar, config, evs);
  }

  // A run whose recording is not in canonical order.

  const TEST_IDS: ServerConfig := ServerConfig(0, 60, 120, 1, 120, 60, 2, true, Some([99, 17]))

  function BothJoined<F>(): seq<Event<F>> { [Accept, Accept] }

  lemma FirstJoins<F>(ar: Arith<F>)
    ensures Legal(ar, TEST_IDS, [Event.Accept])
    ensures CanAccept(After(ar, TEST_IDS, [Event.Accept]))
  {
    var s0 := NewServer(ar, TEST_IDS);
    assert Front([Event<F>.Accept]) == [] && Run(ar, TEST_IDS, []) == Some(s0);
    assert CanAccept(s0);
    assert |map[1 := Session(1, 99, 1)]| == 1;
  }

  lemma BothJoin<F>(ar: Arith<F>)
    ensures Legal(ar, TEST_IDS, BothJoined()) && Joins(BothJoined<F>()) == 2 && Steps(BothJoined<F>()) == 0
  {
    FirstJoins(ar);
    assert BothJoined<F>() == [Event.Accept] + [Event.Accept];
    RunExtends(ar, TEST_IDS, [Event.Accept], Event.Accept);
    LastOf([Event<F>.Accept], Event<F>.Accept);
    assert Front([Event<F>.Accept]) == [];
  }

  lemma BothRecorded<F>(ar: Arith<F>, s: ServerState<F>)
    requires Legal(ar, TEST_IDS, BothJoined()) && s == After(ar, TEST_IDS, BothJoined())
    requires Joins(BothJoined<F>()) == 2 && Steps(BothJoined<F>()) == 0
    ensures |s.registry.entitySpawnOrder| == 2 && s.registry.entitySpawnOrder[0] == 99 && s.registry.entitySpawnOrder[1] == 17
    ensures s.recorder.inputs == []
  {
    TicksOfRun(ar, TEST_IDS, BothJoined());
    assert |s.recorder.inputs| > 0 ==> s.recorder.inputs[0].tick < 0;
  }

  /** Test ids 99 and 17, both joined before the one step: recorded and mapped as 99, 17. */
  lemma NotCanonical<F>(ar: Arith<F>)
    ensures Legal(ar, TEST_IDS, BothJoined() + [Event.Step])
    ensures
      var inputs := After(ar, TEST_IDS, BothJoined() + [Event.Step]).recorder.inputs;
      && |inputs| == 2 && inputs[0].tick == inputs[1].tick && inputs[0].playerId == 99 && inputs[1].playerId == 17
      && !Canonical(inputs)
    ensures !MappingAscending(Finalize(ar, After(ar, TEST_IDS, BothJoined() + [Event.Step])).playerEntityMapping)
  {
    BothJoin(ar);
    var s := After(ar, TEST_IDS, BothJoined());
    BothRecorded(ar, s);
    RunExtends(ar, TEST_IDS, BothJoined(), Event.Step);
    StepInputs(ar, s);
    var inputs := StepServer(ar, s).recorder.inputs;
    assert inputs == StepApplied(ar, s);
    assert !InOrder(inputs[0], inputs[1]);
    LastOf(BothJoined<F>(), Event<F>.Step);
    MappingOrderExact(ar, TEST_IDS, BothJoined() + [Event.Step]);
    assert Roster(TEST_IDS, 2)[0] == 99 && Roster(TEST_IDS, 2)[1] == 17;
  }
}
