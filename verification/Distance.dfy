/**
 How far a character can get: over the reals, `k` steps of `1 / hz` seconds at speed 5
 never take it further than `k * 5 / hz` from where it appeared.
 */
module Distance {
  import opened Float64
  import opened Plane
  import opened Simulation
  import opened ServerModel
  import opened ServerRuns
  import opened RecordThenVerify
  import opened InputTrace
  import opened Trajectories
  import opened Interference

  // One move.

  lemma MoveDistance(ar: Arith<real>, dt: real, c: Character<real>, intent: Vec2<real>, r: real)
    requires Exact(ar) && dt >= 0.0 && Within(c.position, r)
    ensures Within(Move(ar, dt, c, intent).position, r + 5.0 * dt)
  {
    ClampedUnit(ar, intent);
    MoveOverReals(ar, dt, c, intent);
    StepDistance(c.position, ClampMagnitude(ar, intent, ar.One()), dt, r, Move(ar, dt, c, intent).position);
  }

  lemma StepVector(dir: Vec2<real>, dt: real)
    requires dt >= 0.0 && Within(dir, 1.0)
    ensures Within(Vec2(dir.x * 5.0 * dt, dir.y * 5.0 * dt), 5.0 * dt)
  {
    Scaled(dir, 1.0, 5.0);
    Scaled(Vec2(dir.x * 5.0, dir.y * 5.0), 5.0, dt);
  }

  lemma StepDistance(from: Vec2<real>, dir: Vec2<real>, dt: real, r: real, target: Vec2<real>)
    requires dt >= 0.0 && Within(from, r) && Within(dir, 1.0)
    requires target.x == from.x + dir.x * 5.0 * dt && target.y == from.y + dir.y * 5.0 * dt
    ensures Within(target, r + 5.0 * dt)
  {
    StepVector(dir, dt);
    Shifted(from, Vec2(dir.x * 5.0 * dt, dir.y * 5.0 * dt), r, 5.0 * dt, target);
  }

  lemma Shifted(from: Vec2<real>, offset: Vec2<real>, r: real, q: real, target: Vec2<real>)
    requires Within(from, r) && Within(offset, q) && target.x == from.x + offset.x && target.y == from.y + offset.y
    ensures Within(target, r + q)
  {
    Triangle(from, offset, r, q);
    assert target == Vec2(from.x + offset.x, from.y + offset.y);
  }

  // Runs.

  /** The steps taken since the session numbered `i` from 0 joined. */
  function StepsSince<F>(evs: seq<Event<F>>, i: nat): nat {
    if evs == [] then 0
    else StepsSince(Front(evs), i) + if Last(evs).Step? && i < Joins(Front(evs)) then 1 else 0
  }

  /** The distance covered in k ticks at full speed. */
  function Reach(dt: real, k: nat): (r: real)
    requires dt >= 0.0
    ensures r >= 0.0
  {
    if k == 0 then 0.0 else Reach(dt, k - 1) + 5.0 * dt
  }

  lemma {:induction false} ReachIs(hz: nat, k: nat)
    requires hz > 0
    ensures Reach(1.0 / hz as real, k) == k as real * 5.0 / hz as real
  {
    if k == 0 {
    } else {
      ReachIs(hz, k - 1);
      AddOne((k - 1) as real, hz as real);
    }
  }

  lemma AddOne(k: real, hz: real)
    requires hz > 0.0
    ensures k * 5.0 / hz + 5.0 * (1.0 / hz) == (k + 1.0) * 5.0 / hz
  {
  }

  lemma TickOverReals(ar: Arith<real>, config: ServerConfig)
    requires Exact(ar) && config.tickRateHz > 0
    ensures TickLength(ar, config) == 1.0 / config.tickRateHz as real >= 0.0
  {
  }

  lemma {:induction false} CharacterDistance(ar: Arith<real>, config: ServerConfig, evs: seq<Event<real>>, i: nat, dt: real)
    requires Exact(ar) && config.tickRateHz > 0 && i < Joins(evs) && dt == TickLength(ar, config) >= 0.0
    ensures Within(CharacterAt(ar, config, evs, i).position, Reach(dt, StepsSince(evs, i)))
  {
    var front := Front(evs);
    if i == Joins(front) {
      NotYet(front, i);
    } else {
      CharacterDistance(ar, config, front, i, dt);
      if Last(evs).Step? {
        MoveDistance(ar, dt, CharacterAt(ar, config, front, i),
          AppliedAt(ar, config, front, IdAt(config, i)).moveDir, Reach(dt, StepsSince(front, i)));
      }
    }
  }

  lemma {:induction false} NotYet<F>(evs: seq<Event<F>>, i: nat)
    requires Joins(evs) <= i
    ensures StepsSince(evs, i) == 0
  {
    if evs == [] {
    } else {
      NotYet(Front(evs), i);
    }
  }

  lemma CharacterReach(ar: Arith<real>, config: ServerConfig, evs: seq<Event<real>>, i: nat)
    requires Exact(ar) && config.tickRateHz > 0 && i < Joins(evs)
    ensures Within(CharacterAt(ar, config, evs, i).position, StepsSince(evs, i) as real * 5.0 / config.tickRateHz as real)
  {
    TickOverReals(ar, config);
    CharacterDistance(ar, config, evs, i, TickLength(ar, config));
    ReachIs(config.tickRateHz, StepsSince(evs, i));
  }

  /**
   Speed limit. Over exact arithmetic, k steps after it appeared at the origin every
   character of the server's world is within k * 5 / tick_rate_hz of it, whatever was sent.
   */
  lemma DistanceBound(ar: Arith<real>, config: ServerConfig, evs: seq<Event<real>>, i: nat)
    requires Exact(ar) && Legal(ar, config, evs) && DistinctPlayers(config, evs) && i < Joins(evs)
    ensures i < |After(ar, config, evs).world.characters|
    ensures Within(After(ar, config, evs).world.characters[i].position, StepsSince(evs, i) as real * 5.0 / config.tickRateHz as real)
  {
    PlayerFacts(ar, config, evs, i + 1);
    CharacterReach(ar, config, evs, i);
  }
}
