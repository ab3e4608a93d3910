/**
 How characters move: over the reals a step's velocity is 5 times the player's applied
 input, shortened to length one if longer, and the position follows it; in every run.
 */
module Motion {
  import opened Float64
  import opened Plane
  import opened Simulation
  import opened Replay
  import opened ServerModel
  import opened ServerRuns
  import opened RecordThenVerify
  import opened InputTrace
  import opened Trajectories

  /** v is five times the unit vector in the intent's direction; r is the intent's length. */
  ghost predicate FiveAlong(v: Vec2<real>, intent: Vec2<real>, r: real) {
    r > 0.0 && r * r == NormSq(intent) && v.x == 5.0 * (intent.x / r) && v.y == 5.0 * (intent.y / r)
  }

  /** Five times the intent, or five times the unit vector in its direction if it is longer than one. */
  ghost predicate FiveTimes(v: Vec2<real>, intent: Vec2<real>) {
    if NormSq(intent) <= 1.0 then v.x == 5.0 * intent.x && v.y == 5.0 * intent.y
    else exists r: real :: FiveAlong(v, intent, r)
  }

  lemma TimesFive(ar: Arith<real>, a: real, scale: real, r: real)
    requires Exact(ar) && r > 0.0 && scale == ar.div(ar.ofInt(1), r)
    ensures ar.mul(ar.mul(a, scale), ar.ofInt(5)) == 5.0 * (a / r)
  {
    assert scale == 1.0 / r;
    assert a * (1.0 / r) == a / r;
  }

  lemma LongVelocity(ar: Arith<real>, intent: Vec2<real>, v: Vec2<real>, lengthSq: real)
    requires Exact(ar) && lengthSq == NormSq(intent) > 1.0
    requires
      var scale := ar.div(ar.ofInt(1), ar.sqrt(lengthSq));
      v.x == ar.mul(ar.mul(intent.x, scale), ar.ofInt(5)) && v.y == ar.mul(ar.mul(intent.y, scale), ar.ofInt(5))
    ensures FiveTimes(v, intent)
  {
    var r := ar.sqrt(lengthSq);
    TimesFive(ar, intent.x, ar.div(ar.ofInt(1), r), r);
    TimesFive(ar, intent.y, ar.div(ar.ofInt(1), r), r);
    assert FiveAlong(v, intent, r);
  }

  lemma ShortVelocity(ar: Arith<real>, intent: Vec2<real>, v: Vec2<real>)
    requires Exact(ar) && NormSq(intent) <= 1.0
    requires v.x == ar.mul(intent.x, ar.ofInt(5)) && v.y == ar.mul(intent.y, ar.ofInt(5))
    ensures FiveTimes(v, intent)
  {
  }

  lemma OneTick(ar: Arith<real>, from: real, speed: real, dt: real)
    requires Exact(ar)
    ensures ar.add(from, ar.mul(speed, dt)) == from + speed * dt
  {
  }

  lemma LengthSquared(ar: Arith<real>, v: Vec2<real>)
    requires Exact(ar)
    ensures ar.add(ar.mul(v.x, v.x), ar.mul(v.y, v.y)) == NormSq(v)
    ensures ar.le(ar.add(ar.mul(v.x, v.x), ar.mul(v.y, v.y)), ar.mul(ar.ofInt(1), ar.ofInt(1))) <==> NormSq(v) <= 1.0
  {
  }

  /** One tick of length dt over the reals: five times the intent, and that velocity's way in dt. */
  ghost predicate MovesOverReals(dt: real, c: Character<real>, intent: Vec2<real>, d: Character<real>) {
    && FiveTimes(d.velocity, intent)
    && d.position.x == c.position.x + d.velocity.x * dt && d.position.y == c.position.y + d.velocity.y * dt
  }

  /** One move over the reals. */
  lemma VelocityOverReals(ar: Arith<real>, dt: real, c: Character<real>, intent: Vec2<real>, d: Character<real>)
    requires Exact(ar) && MovesBy(ar, dt, c, intent, d)
    ensures MovesOverReals(dt, c, intent, d)
  {
    LengthSquared(ar, intent);
    OneTick(ar, c.position.x, d.velocity.x, dt);
    OneTick(ar, c.position.y, d.velocity.y, dt);
    if NormSq(intent) <= 1.0 {
      ShortVelocity(ar, intent, d.velocity);
    } else {
      LongVelocity(ar, intent, d.velocity, NormSq(intent));
    }
  }

  /** The speed is at most 5. */
  lemma SpeedLimit(v: Vec2<real>, intent: Vec2<real>)
    requires FiveTimes(v, intent)
    ensures Within(v, 5.0)
  {
    if NormSq(intent) <= 1.0 {
      FiveWithin(v, intent);
    } else {
      var r :| FiveAlong(v, intent, r);
      UnitScale(intent, r);
      Reciprocal(intent.x, r);
      Reciprocal(intent.y, r);
      FiveWithin(v, Vec2(intent.x * (1.0 / r), intent.y * (1.0 / r)));
    }
  }

  lemma FiveWithin(v: Vec2<real>, unit: Vec2<real>)
    requires Within(unit, 1.0) && v.x == 5.0 * unit.x && v.y == 5.0 * unit.y
    ensures Within(v, 5.0)
  {
    Scaled(unit, 1.0, 5.0);
    assert v == Vec2(unit.x * 5.0, unit.y * 5.0);
  }

  lemma Reciprocal(a: real, r: real)
    requires r > 0.0
    ensures a * (1.0 / r) == a / r
  {
  }

  // Runs.

  /** Between steps no character that is already there changes. */
  lemma {:induction false} QuietRun<F>(ar: Arith<F>, config: ServerConfig, evs: seq<Event<F>>, quiet: seq<Event<F>>, i: nat)
    requires Legal(ar, config, evs + quiet) && forall e :: e in quiet ==> !e.Step?
    ensures Legal(ar, config, evs)
    ensures i < |After(ar, config, evs).world.characters| ==>
      var cs := After(ar, config, evs + quiet).world.characters;
      i < |cs| && cs[i] == After(ar, config, evs).world.characters[i]
  {
    if quiet == [] {
      assert evs + quiet == evs;
    } else {
      RunLast(ar, config, evs + quiet);
      assert Front(evs + quiet) == evs + Front(quiet);
      QuietRun(ar, config, evs, Front(quiet), i);
      if i < |After(ar, config, evs).world.characters| { QuietStep(ar, After(ar, config, evs + Front(quiet)), Last(quiet), i); }
    }
  }

  lemma QuietStep<F>(ar: Arith<F>, s: ServerState<F>, e: Event<F>, i: nat)
    requires s.config.tickRateHz > 0 && Enabled(s, e) && !e.Step? && i < |s.world.characters|
    ensures i < |Apply(ar, s, e).world.characters| && Apply(ar, s, e).world.characters[i] == s.world.characters[i]
  {
  }

  /** The inputs that a step applies are those of the players in join order. */
  lemma StepAppliedOf<F>(ar: Arith<F>, config: ServerConfig, evs: seq<Event<F>>, i: nat)
    requires Legal(ar, config, evs) && DistinctPlayers(config, evs) && i < Joins(evs)
    ensures
      var applied := StepApplied(ar, After(ar, config, evs));
      |applied| == Joins(evs) && applied[i] == AppliedAt(ar, config, evs, IdAt(config, i))
  {
    RunTrace(ar, config, evs);
    RunKeepsInvariant(ar, config, evs);
    StepApplies(ar, config, evs, After(ar, config, evs));
    TickEach(ar, config, evs, Roster(config, Joins(evs)), i);
    RosterIds(config, Joins(evs));
  }

  lemma {:induction false} TickSize<F>(ar: Arith<F>, config: ServerConfig, evs: seq<Event<F>>, players: seq<PlayerId>)
    requires config.tickRateHz > 0
    ensures |TickOf(ar, config, evs, players)| == |players|
  {
    if players == [] {
    } else {
      TickSize(ar, config, evs, players[..|players| - 1]);
    }
  }

  lemma {:induction false} TickEach<F>(ar: Arith<F>, config: ServerConfig, evs: seq<Event<F>>, players: seq<PlayerId>, i: nat)
    requires config.tickRateHz > 0 && i < |players|
    ensures |TickOf(ar, config, evs, players)| == |players| && TickOf(ar, config, evs, players)[i] == AppliedAt(ar, config, evs, players[i])
  {
    var n := |players| - 1;
    TickSize(ar, config, evs, players[..n]);
    if i < n { TickEach(ar, config, evs, players[..n], i); }
  }

  /** The step appends them to the recording. */
  lemma StepInputOfPlayer<F>(ar: Arith<F>, config: ServerConfig, evs: seq<Event<F>>, i: nat)
    requires Legal(ar, config, evs + [Event.Step]) && Legal(ar, config, evs) && DistinctPlayers(config, evs) && i < Joins(evs)
    ensures
      var was, inputs := After(ar, config, evs).recorder.inputs, After(ar, config, evs + [Event.Step]).recorder.inputs;
      |inputs| == |was| + Joins(evs) && inputs[|was| + i] == AppliedAt(ar, config, evs, IdAt(config, i))
  {
    StepAppliedOf(ar, config, evs, i);
    RunExtends(ar, config, evs, Event<F>.Step);
    StepRecords(ar, After(ar, config, evs));
  }

  /** What a run makes of character i at a step: the character before it, the input recorded for its player, and the character since. */
  ghost predicate StepOf<F>(
    ar: Arith<F>, config: ServerConfig, evs: seq<Event<F>>, quiet: seq<Event<F>>, i: nat,
    c: Character<F>, x: AppliedInput<F>, d: Character<F>)
    requires Legal(ar, config, evs) && Legal(ar, config, evs + [Event.Step]) && Legal(ar, config, evs + [Event.Step] + quiet)
  {
    var before, stepped := After(ar, config, evs), After(ar, config, evs + [Event.Step]);
    var k, now := |before.recorder.inputs| + i, After(ar, config, evs + [Event.Step] + quiet).world.characters;
    && i < |before.world.characters| && i < |now| && k < |stepped.recorder.inputs|
    && c == before.world.characters[i] && x == stepped.recorder.inputs[k] && d == now[i]
    && x.tick == Steps(evs) && d.playerId == x.playerId && d.entityId == i + 1
  }

  /**
   In every run, after a step and until the next one, character i is where the input
   recorded for its player on that tick takes it, for any arithmetic.
   */
  lemma StepMovesCharacter<F>(ar: Arith<F>, config: ServerConfig, evs: seq<Event<F>>, quiet: seq<Event<F>>, i: nat)
    returns (c: Character<F>, x: AppliedInput<F>, d: Character<F>)
    requires Legal(ar, config, evs + [Event.Step] + quiet) && (forall e :: e in quiet ==> !e.Step?)
    requires DistinctPlayers(config, evs) && i < Joins(evs)
    ensures Legal(ar, config, evs) && Legal(ar, config, evs + [Event.Step])
    ensures StepOf(ar, config, evs, quiet, i, c, x, d)
    ensures MovesBy(ar, ar.div(ar.ofInt(1), ar.ofInt(config.tickRateHz)), c, x.moveDir, d)
  {
    QuietRun(ar, config, evs + [Event.Step], quiet, i);
    LastOf(evs, Event<F>.Step);
    RunLast(ar, config, evs + [Event.Step]);
    StepInputOfPlayer(ar, config, evs, i);
    SteppedCharacter(ar, config, evs, i);
    c := After(ar, config, evs).world.characters[i];
    x := After(ar, config, evs + [Event.Step]).recorder.inputs[|After(ar, config, evs).recorder.inputs| + i];
    d := After(ar, config, evs + [Event.Step] + quiet).world.characters[i];
  }

  lemma SteppedCharacter<F>(ar: Arith<F>, config: ServerConfig, evs: seq<Event<F>>, i: nat)
    requires Legal(ar, config, evs) && DistinctPlayers(config, evs) && i < Joins(evs)
    ensures
      var s := After(ar, config, evs);
      var cs, ds := s.world.characters, StepServer(ar, s).world.characters;
      && i < |cs| == |ds| && ds[i].entityId == i + 1 && ds[i].playerId == IdAt(config, i)
      && MovesBy(ar, ar.div(ar.ofInt(1), ar.ofInt(config.tickRateHz)), cs[i], AppliedAt(ar, config, evs, IdAt(config, i)).moveDir, ds[i])
  {
    var s := After(ar, config, evs);
    RunKeepsInvariant(ar, config, evs);
    RunTrace(ar, config, evs);
    RosterIds(config, Joins(evs));
    StepMoves(ar, config, evs, s, i);
    MoveByAxes(ar, s.world.dt, s.world.characters[i], AppliedAt(ar, config, evs, IdAt(config, i)).moveDir);
  }

  lemma TickOverReals(ar: Arith<real>, hz: nat)
    requires Exact(ar) && hz > 0
    ensures ar.div(ar.ofInt(1), ar.ofInt(hz)) == 1.0 / hz as real
  {
  }

  /**
   Over the reals, the velocity after a step is 5 times the recorded input, axis by axis and
   shortened to length one if longer, and the position is the old one plus one tick's way.
   */
  lemma VelocityInRun(ar: Arith<real>, config: ServerConfig, evs: seq<Event<real>>, quiet: seq<Event<real>>, i: nat, dt: real)
    returns (c: Character<real>, x: AppliedInput<real>, d: Character<real>)
    requires Exact(ar) && Legal(ar, config, evs + [Event.Step] + quiet) && (forall e :: e in quiet ==> !e.Step?)
    requires DistinctPlayers(config, evs) && i < Joins(evs) && dt == 1.0 / config.tickRateHz as real
    ensures Legal(ar, config, evs) && Legal(ar, config, evs + [Event.Step])
    ensures StepOf(ar, config, evs, quiet, i, c, x, d) && MovesOverReals(dt, c, x.moveDir, d)
  {
    c, x, d := StepMovesCharacter(ar, config, evs, quiet, i);
    SteppedOverReals(ar, config.tickRateHz, dt, c, x.moveDir, d);
  }

  lemma SteppedOverReals(ar: Arith<real>, hz: nat, dt: real, c: Character<real>, intent: Vec2<real>, d: Character<real>)
    requires Exact(ar) && hz > 0 && dt == 1.0 / hz as real && MovesBy(ar, ar.div(ar.ofInt(1), ar.ofInt(hz)), c, intent, d)
    ensures MovesOverReals(dt, c, intent, d)
  {
    TickOverReals(ar, hz);
    VelocityOverReals(ar, ar.div(ar.ofInt(1), ar.ofInt(hz)), c, intent, d);
  }
}
