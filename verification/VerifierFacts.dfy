/** What the verifier's stream check decides, and that it does not mind how inputs are stored. */
module VerifierFacts {
  import opened Wrappers
  import opened Words
  import opened Sequences
  import opened Float64
  import opened Simulation
  import opened Replay
  import opened Verdicts

  // The stream check, declaratively.

  ghost predicate OnceEach<F>(inputs: seq<AppliedInputProto<F>>, p: nat, from: nat, until: nat) {
    forall t :: from <= t < until ==> Occurrences(inputs, p, t) == 1
  }

  ghost predicate EveryTickOnce<F>(inputs: seq<AppliedInputProto<F>>, players: seq<nat>, from: nat, until: nat) {
    forall p :: p in players ==> OnceEach(inputs, p, from, until)
  }

  ghost predicate NoStrays<F>(inputs: seq<AppliedInputProto<F>>, players: seq<nat>, from: nat, until: nat) {
    forall i :: 0 <= i < |inputs| ==> from <= inputs[i].tick < until && inputs[i].playerId in players
  }

  /** Each mapped player has exactly one input per tick of the half-open range, and nothing else is present. */
  ghost predicate StreamSound<F>(a: ReplayArtifact<F>) {
    a.initialBaseline.Some? &&
    var from, until, players := a.initialBaseline.value.tick, a.checkpointTick, PlayerIds(a.playerEntityMapping);
    EveryTickOnce(a.inputs, players, from, until) && NoStrays(a.inputs, players, from, until)
  }

  lemma {:induction false} TicksErrorExact<F>(inputs: seq<AppliedInputProto<F>>, p: nat, from: nat, until: nat)
    ensures TicksError(inputs, p, from, until).None? <==> OnceEach(inputs, p, from, until)
    decreases until - from
  {
    if until <= from {
    } else {
      TicksErrorExact(inputs, p, from + 1, until);
      assert OnceEach(inputs, p, from, until) ==> Occurrences(inputs, p, from) == 1 && OnceEach(inputs, p, from + 1, until);
      if Occurrences(inputs, p, from) == 1 && OnceEach(inputs, p, from + 1, until) {
        forall t | from <= t < until ensures Occurrences(inputs, p, t) == 1 {
          assert t == from || from + 1 <= t;
        }
      }
    }
  }

  lemma {:induction false} PlayersErrorExact<F>(inputs: seq<AppliedInputProto<F>>, players: seq<nat>, from: nat, until: nat)
    ensures PlayersError(inputs, players, from, until).None? <==> EveryTickOnce(inputs, players, from, until)
  {
    if players == [] {
    } else {
      var rest := players[1..];
      TicksErrorExact(inputs, players[0], from, until);
      PlayersErrorExact(inputs, rest, from, until);
      assert forall p :: p in players <==> p == players[0] || p in rest;
    }
  }

  lemma {:induction false} StraysErrorExact<F>(inputs: seq<AppliedInputProto<F>>, players: seq<nat>, from: nat, until: nat)
    ensures StraysError(inputs, players, from, until).None? <==> NoStrays(inputs, players, from, until)
  {
    if inputs == [] {
    } else {
      StraysErrorExact(inputs[1..], players, from, until);
      var rest := inputs[1..];
      assert forall i :: 1 <= i < |inputs| ==> inputs[i] == rest[i - 1];
      assert forall i :: 0 <= i < |rest| ==> rest[i] == inputs[i + 1];
    }
  }

  lemma ValidateExact<F>(a: ReplayArtifact<F>)
    ensures ValidateStream(a).Ok? <==> StreamSound(a)
  {
    if a.initialBaseline.Some? {
      var from, until, players := a.initialBaseline.value.tick, a.checkpointTick, PlayerIds(a.playerEntityMapping);
      PlayersErrorExact(a.inputs, players, from, until);
      StraysErrorExact(a.inputs, players, from, until);
    }
  }

  // A sound stream has one input per distinct player and tick.

  lemma {:induction false} OccursOnce<F>(inputs: seq<AppliedInputProto<F>>, i: nat)
    requires i < |inputs|
    ensures Occurrences(inputs, inputs[i].playerId, inputs[i].tick) >= 1
  {
    var n := |inputs| - 1;
    if i == n {
    } else {
      OccursOnce(inputs[..n], i);
    }
  }

  lemma {:induction false} OccursTwice<F>(inputs: seq<AppliedInputProto<F>>, i: nat, j: nat)
    requires i < j < |inputs| && inputs[i].playerId == inputs[j].playerId && inputs[i].tick == inputs[j].tick
    ensures Occurrences(inputs, inputs[i].playerId, inputs[i].tick) >= 2
  {
    var n := |inputs| - 1;
    if j < n {
      OccursTwice(inputs[..n], i, j);
    } else {
      OccursOnce(inputs[..n], i);
    }
  }

  lemma {:induction false} Occurs<F>(inputs: seq<AppliedInputProto<F>>, p: nat, t: nat)
    requires Occurrences(inputs, p, t) >= 1
    ensures exists i :: 0 <= i < |inputs| && inputs[i].playerId == p && inputs[i].tick == t
  {
    var n := |inputs| - 1;
    if inputs[n].playerId == p && inputs[n].tick == t {
    } else {
      Occurs(inputs[..n], p, t);
      var i :| 0 <= i < n && inputs[..n][i].playerId == p && inputs[..n][i].tick == t;
      assert inputs[i].playerId == p && inputs[i].tick == t;
    }
  }

  function KeyOf<F>(i: AppliedInputProto<F>): (nat, nat) { (i.playerId, i.tick) }

  function Grid(players: set<nat>, from: nat, until: nat): set<(nat, nat)> {
    set p, t | p in players && from <= t < until :: (p, t)
  }

  lemma {:induction false} RowSize(p: nat, from: nat, n: nat)
    ensures |Grid({p}, from, from + n)| == n
  {
    if n == 0 {
      assert Grid({p}, from, from) == {};
    } else {
      RowSize(p, from, n - 1);
      assert Grid({p}, from, from + n) == Grid({p}, from, from + n - 1) + {(p, from + n - 1)};
    }
  }

  lemma {:induction false} GridSize(players: set<nat>, from: nat, n: nat)
    ensures |Grid(players, from, from + n)| == |players| * n
  {
    if players == {} {
      assert Grid({}, from, from + n) == {};
    } else {
      var p :| p in players;
      var rest := players - {p};
      GridSize(rest, from, n);
      RowSize(p, from, n);
      var row := Grid({p}, from, from + n);
      assert Grid(players, from, from + n) == Grid(rest, from, from + n) + row;
      assert Grid(rest, from, from + n) !! row;
      assert |players| == |rest| + 1;
      OneMore(|rest|, n);
    }
  }

  function IdSet(players: seq<nat>): set<nat> { set p | p in players }

  lemma {:induction false} DistinctKeysCount(keys: seq<(nat, nat)>)
    requires Distinct(keys)
    ensures |set k | k in keys| == |keys|
  {
    if keys == [] {
    } else {
      var n := |keys| - 1;
      DistinctKeysCount(keys[..n]);
      assert (set k | k in keys) == (set k | k in keys[..n]) + {keys[n]};
    }
  }

  /** A stream that passes holds distinct players times ticks inputs. */
  lemma SoundStreamSize<F>(a: ReplayArtifact<F>)
    requires StreamSound(a) && a.initialBaseline.value.tick <= a.checkpointTick
    ensures |a.inputs| == |IdSet(PlayerIds(a.playerEntityMapping))| * (a.checkpointTick - a.initialBaseline.value.tick)
  {
    var from, until, ids := a.initialBaseline.value.tick, a.checkpointTick, PlayerIds(a.playerEntityMapping);
    var players := IdSet(ids);
    var keys := Map(KeyOf, a.inputs);
    forall i, j | 0 <= i < j < |keys| ensures keys[i] != keys[j] {
      if keys[i] == keys[j] { OccursTwice(a.inputs, i, j); }
    }
    DistinctKeysCount(keys);
    forall k | k in Grid(players, from, until) ensures k in keys {
      Occurs(a.inputs, k.0, k.1);
      var i :| 0 <= i < |a.inputs| && a.inputs[i].playerId == k.0 && a.inputs[i].tick == k.1;
      assert keys[i] == k;
    }
    assert (set k | k in keys) == Grid(players, from, until);
    GridSize(players, from, until - from);
  }

  // Stored order does not matter.

  lemma {:induction false} OccurrencesFilter<F>(f: AppliedInputProto<F> -> bool, inputs: seq<AppliedInputProto<F>>, p: nat, t: nat)
    requires forall i :: f(i) <==> i.playerId == p && i.tick == t
    ensures Occurrences(inputs, p, t) == |Filter(f, inputs)|
  {
    if inputs == [] {
    } else {
      OccurrencesFilter(f, inputs[..|inputs| - 1], p, t);
    }
  }

  lemma OccurrencesPermute<F>(xs: seq<AppliedInputProto<F>>, ys: seq<AppliedInputProto<F>>, p: nat, t: nat)
    requires multiset(xs) == multiset(ys)
    ensures Occurrences(xs, p, t) == Occurrences(ys, p, t)
  {
    var f := (i: AppliedInputProto<F>) => i.playerId == p && i.tick == t;
    OccurrencesFilter(f, xs, p, t);
    OccurrencesFilter(f, ys, p, t);
    FilterPermutes(f, xs, ys);
  }

  lemma {:induction false} AtTickFilter<F>(f: AppliedInput<F> -> bool, inputs: seq<AppliedInput<F>>, t: nat)
    requires forall i :: f(i) <==> i.tick == t
    ensures AtTick(inputs, t) == Filter(f, inputs)
  {
    if inputs == [] {
    } else {
      AtTickFilter(f, inputs[..|inputs| - 1], t);
    }
  }

  lemma AtTickPermutes<F>(xs: seq<AppliedInput<F>>, ys: seq<AppliedInput<F>>, t: nat)
    requires multiset(xs) == multiset(ys)
    ensures multiset(AtTick(xs, t)) == multiset(AtTick(ys, t))
  {
    var f := (i: AppliedInput<F>) => i.tick == t;
    AtTickFilter(f, xs, t);
    AtTickFilter(f, ys, t);
    FilterPermutes(f, xs, ys);
  }

  lemma {:induction false} ConvertConcat<F>(xs: seq<AppliedInputProto<F>>, ys: seq<AppliedInputProto<F>>)
    ensures ConvertInputs(xs + ys) ==
      if ConvertInputs(xs).None? || ConvertInputs(ys).None? then None
      else Some(ConvertInputs(xs).value + ConvertInputs(ys).value)
  {
    if ys == [] {
      assert xs + ys == xs;
      if ConvertInputs(xs).Some? { assert ConvertInputs(xs).value + [] == ConvertInputs(xs).value; }
    } else {
      var n := |ys| - 1;
      ConvertConcat(xs, ys[..n]);
      assert (xs + ys)[..|xs| + n] == xs + ys[..n] && (xs + ys)[|xs| + n] == ys[n];
      if ConvertInputs(xs).Some? && ConvertInputs(ys[..n]).Some? && ys[n].ToApplied().Some? {
        var a, b, c := ConvertInputs(xs).value, ConvertInputs(ys[..n]).value, [ys[n].ToApplied().value];
        assert (a + b) + c == a + (b + c);
      }
    }
  }

  lemma ConvertOne<F>(x: AppliedInputProto<F>)
    ensures ConvertInputs([x]) == if x.ToApplied().None? then None else Some([x.ToApplied().value])
  {
    var xs := [x];
    assert xs[..|xs| - 1] == [] && ConvertInputs(xs[..|xs| - 1]) == Some([]);
    if x.ToApplied().Some? { assert [] + [x.ToApplied().value] == [x.ToApplied().value]; }
  }

  /** Both lists convert, to the same inputs in some order, or neither does. */
  ghost predicate SameConversion<F>(xs: seq<AppliedInputProto<F>>, ys: seq<AppliedInputProto<F>>) {
    && (ConvertInputs(xs).Some? <==> ConvertInputs(ys).Some?)
    && (ConvertInputs(xs).Some? ==> multiset(ConvertInputs(xs).value) == multiset(ConvertInputs(ys).value))
  }

  lemma {:induction false} ConvertPermutes<F>(xs: seq<AppliedInputProto<F>>, ys: seq<AppliedInputProto<F>>)
    requires multiset(xs) == multiset(ys)
    ensures SameConversion(xs, ys)
  {
    if xs == [] {
      assert |ys| == |multiset(ys)| == 0;
    } else {
      var n := |xs| - 1;
      var j := CrossOut(xs, ys);
      ConvertPermutes(xs[..n], ys[..j] + ys[j + 1..]);
      ConvertInto(xs[..n], xs[n], ys[..j], ys[j + 1..]);
      assert xs == xs[..n] + [xs[n]];
    }
  }

  lemma ConvertInto<F>(front: seq<AppliedInputProto<F>>, x: AppliedInputProto<F>, a: seq<AppliedInputProto<F>>, b: seq<AppliedInputProto<F>>)
    requires SameConversion(front, a + b)
    ensures SameConversion(front + [x], a + [x] + b)
  {
    ConvertOne(x);
    ConvertConcat(front, [x]);
    ConvertAround(a, x, b);
  }

  lemma ConvertAround<F>(a: seq<AppliedInputProto<F>>, x: AppliedInputProto<F>, b: seq<AppliedInputProto<F>>)
    ensures
      var all, rest := ConvertInputs(a + [x] + b), ConvertInputs(a + b);
      && (all.Some? <==> rest.Some? && x.ToApplied().Some?)
      && (all.Some? ==> multiset(all.value) == multiset(rest.value) + multiset{x.ToApplied().value})
  {
    ConvertOne(x);
    ConvertConcat(a, [x]);
    ConvertConcat(a + [x], b);
    ConvertConcat(a, b);
  }

  /** The player ids below 256 are unchanged by the conversion to `u8`. */
  ghost predicate SmallIds(players: seq<nat>) {
    forall p :: p in players ==> p < 256
  }

  lemma {:induction false} ConvertLength<F>(inputs: seq<AppliedInputProto<F>>)
    requires ConvertInputs(inputs).Some?
    ensures |ConvertInputs(inputs).value| == |inputs|
  {
    if inputs == [] {
    } else {
      ConvertLength(inputs[..|inputs| - 1]);
    }
  }

  lemma {:induction false} ConvertedAt<F>(inputs: seq<AppliedInputProto<F>>, i: nat)
    requires ConvertInputs(inputs).Some? && i < |inputs| == |ConvertInputs(inputs).value|
    ensures inputs[i].ToApplied() == Some(ConvertInputs(inputs).value[i])
  {
    var n := |inputs| - 1;
    ConvertLength(inputs[..n]);
    if i == n {
    } else {
      ConvertedAt(inputs[..n], i);
    }
  }

  /** One tick of a sound stream names each player at most once. */
  lemma TickKeysDistinct<F>(inputs: seq<AppliedInputProto<F>>, players: seq<nat>, from: nat, until: nat, t: nat)
    requires ConvertInputs(inputs).Some? && SmallIds(players) && from <= t < until
    requires EveryTickOnce(inputs, players, from, until) && NoStrays(inputs, players, from, until)
    ensures DistinctBy(PlayerKey, Map(StepInputOf, AtTick(ConvertInputs(inputs).value, t)))
  {
    ConvertLength(inputs);
    var converted := ConvertInputs(inputs).value;
    var now := AtTick(converted, t);
    var steps := Map(StepInputOf, now);
    forall i, j | 0 <= i < j < |steps| ensures PlayerKey(steps[i]) != PlayerKey(steps[j]) {
      var a, b := AtTickPositions(converted, t, i, j);
      ConvertedAt(inputs, a);
      ConvertedAt(inputs, b);
      if now[i].playerId == now[j].playerId {
        OccursTwice(inputs, a, b);
      }
    }
  }

  lemma {:induction false} AtTickPosition<F>(inputs: seq<AppliedInput<F>>, t: nat, j: nat) returns (b: nat)
    requires j < |AtTick(inputs, t)|
    ensures b < |inputs| && inputs[b] == AtTick(inputs, t)[j] && inputs[b].tick == t
  {
    var n := |inputs| - 1;
    if j < |AtTick(inputs[..n], t)| {
      b := AtTickPosition(inputs[..n], t, j);
    } else {
      b := n;
    }
  }

  lemma {:induction false} AtTickPositions<F>(inputs: seq<AppliedInput<F>>, t: nat, i: nat, j: nat) returns (a: nat, b: nat)
    requires i < j < |AtTick(inputs, t)|
    ensures a < b < |inputs| && inputs[a] == AtTick(inputs, t)[i] && inputs[b] == AtTick(inputs, t)[j]
    ensures inputs[a].tick == t && inputs[b].tick == t
  {
    var n := |inputs| - 1;
    if j < |AtTick(inputs[..n], t)| {
      a, b := AtTickPositions(inputs[..n], t, i, j);
    } else {
      b := n;
      a := AtTickPosition(inputs[..n], t, i);
    }
  }

  /** One tick's inputs name each player at most once. */
  ghost predicate TickDistinct<F>(inputs: seq<AppliedInput<F>>, t: nat) {
    DistinctBy(PlayerKey, Map(StepInputOf, AtTick(inputs, t)))
  }

  /** Two recordings feed the world the same inputs on tick t. */
  ghost predicate SameTick<F>(xs: seq<AppliedInput<F>>, ys: seq<AppliedInput<F>>, t: nat) {
    SortedStepInputs(AtTick(xs, t)) == SortedStepInputs(AtTick(ys, t))
  }

  lemma {:induction false} ReplaySame<F>(
    ar: Arith<F>, w: WorldState<F>, xs: seq<AppliedInput<F>>, ys: seq<AppliedInput<F>>, from: nat, until: nat)
    requires forall t :: from <= t < until ==> SameTick(xs, ys, t)
    ensures ReplayTicks(ar, w, xs, from, until) == ReplayTicks(ar, w, ys, from, until)
    decreases until
  {
    if until <= from {
    } else {
      ReplaySame(ar, w, xs, ys, from, until - 1);
      assert SameTick(xs, ys, until - 1);
      var before, inputs := ReplayTicks(ar, w, ys, from, until - 1), SortedStepInputs(AtTick(ys, until - 1));
      assert ReplayTicks(ar, w, xs, from, until) == Advance(ar, before, inputs);
    }
  }

  lemma ReplayPermutes<F>(
    ar: Arith<F>, w: WorldState<F>, xs: seq<AppliedInput<F>>, ys: seq<AppliedInput<F>>, from: nat, until: nat)
    requires multiset(xs) == multiset(ys)
    requires forall t :: from <= t < until ==> TickDistinct(xs, t)
    ensures ReplayTicks(ar, w, xs, from, until) == ReplayTicks(ar, w, ys, from, until)
  {
    forall t | from <= t < until ensures SameTick(xs, ys, t) {
      assert TickDistinct(xs, t);
      TickPermutes(xs, ys, t);
    }
    ReplaySame(ar, w, xs, ys, from, until);
  }

  lemma TickPermutes<F>(xs: seq<AppliedInput<F>>, ys: seq<AppliedInput<F>>, t: nat)
    requires multiset(xs) == multiset(ys) && TickDistinct(xs, t)
    ensures SameTick(xs, ys, t)
  {
    AtTickPermutes(xs, ys, t);
    MapPermutes(StepInputOf, AtTick(xs, t), AtTick(ys, t));
    SortByPermutation(PlayerKey, Map(StepInputOf, AtTick(xs, t)), Map(StepInputOf, AtTick(ys, t)));
  }

  lemma StreamSoundPermutes<F>(a: ReplayArtifact<F>, b: ReplayArtifact<F>)
    requires b == a.(inputs := b.inputs) && multiset(a.inputs) == multiset(b.inputs)
    ensures StreamSound(a) ==> StreamSound(b)
  {
    if StreamSound(a) {
      var from, until, players := a.initialBaseline.value.tick, a.checkpointTick, PlayerIds(a.playerEntityMapping);
      forall p | p in players ensures OnceEach(b.inputs, p, from, until) {
        assert OnceEach(a.inputs, p, from, until);
        forall t | from <= t < until ensures Occurrences(b.inputs, p, t) == 1 {
          OccurrencesPermute(a.inputs, b.inputs, p, t);
        }
      }
      forall i | 0 <= i < |b.inputs| ensures from <= b.inputs[i].tick < until && b.inputs[i].playerId in players {
        assert b.inputs[i] in multiset(a.inputs);
      }
    }
  }

  /**
   Order robustness: an artifact whose mapped ids fit a `u8` is accepted or rejected
   together with every artifact that stores the same inputs in another order.
   */
  lemma VerifyIgnoresInputOrder<F>(ar: Arith<F>, a: ReplayArtifact<F>, b: ReplayArtifact<F>, options: VerifyOptions)
    requires b == a.(inputs := b.inputs) && multiset(a.inputs) == multiset(b.inputs)
    requires SmallIds(PlayerIds(a.playerEntityMapping))
    ensures Verify(ar, a, options).Ok? <==> Verify(ar, b, options).Ok?
  {
    ValidateExact(a);
    ValidateExact(b);
    StreamSoundPermutes(a, b);
    assert a == b.(inputs := a.inputs);
    StreamSoundPermutes(b, a);
    if StreamSound(a) {
      VerifyFromIgnoresInputOrder(ar, a, b);
    }
  }

  /** A sound stream replays alike in every order. */
  lemma SoundReplay<F>(ar: Arith<F>, w: WorldState<F>, a: ReplayArtifact<F>, xs: seq<AppliedInput<F>>, ys: seq<AppliedInput<F>>)
    requires SmallIds(PlayerIds(a.playerEntityMapping)) && StreamSound(a)
    requires ConvertInputs(a.inputs) == Some(xs) && multiset(xs) == multiset(ys)
    ensures ReplayTicks(ar, w, xs, a.initialBaseline.value.tick, a.checkpointTick)
         == ReplayTicks(ar, w, ys, a.initialBaseline.value.tick, a.checkpointTick)
  {
    var from := a.initialBaseline.value.tick;
    forall t | from <= t < a.checkpointTick ensures TickDistinct(xs, t) {
      TickKeysDistinct(a.inputs, PlayerIds(a.playerEntityMapping), from, a.checkpointTick, t);
    }
    ReplayPermutes(ar, w, xs, ys, from, a.checkpointTick);
  }

  lemma VerifyFromIgnoresInputOrder<F>(ar: Arith<F>, a: ReplayArtifact<F>, b: ReplayArtifact<F>)
    requires b == a.(inputs := b.inputs) && multiset(a.inputs) == multiset(b.inputs)
    requires SmallIds(PlayerIds(a.playerEntityMapping)) && StreamSound(a)
    ensures VerifyFrom(ar, a, a.initialBaseline.value) == VerifyFrom(ar, b, a.initialBaseline.value)
  {
    ConvertPermutes(a.inputs, b.inputs);
    var rebuilt := Reconstruct(ar, NewWorld(ar, a.seed, a.tickRateHz), MappingTable(a.playerEntityMapping), a.entitySpawnOrder);
    if ConvertInputs(a.inputs).Some? && rebuilt.Ok? {
      SoundReplay(ar, rebuilt.value, a, ConvertInputs(a.inputs).value, ConvertInputs(b.inputs).value);
    }
  }
}
