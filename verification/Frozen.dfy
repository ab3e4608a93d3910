/**
 When a departed player's character freezes in place, as `disconnect_session` promises:
 exactly when the player left no command behind that would move it.
 */
module Frozen {
  import opened Wrappers
  import opened Float64
  import opened Plane
  import opened Simulation
  import opened InputBuffering
  import opened ServerModel
  import opened ServerRuns
  import opened RecordThenVerify
  import opened InputTrace
  import opened Trajectories
  import opened Interference
  import opened Freeze

  // What keeps a character where it is.

  /** The intent leaves the character at its place. */
  ghost predicate Keeps<F>(ar: Arith<F>, dt: F, c: Character<F>, intent: Vec2<F>) {
    Move(ar, dt, c, intent).position == c.position
  }

  /** No buffered command of the player would displace the character: each is tied or keeps it. */
  ghost predicate Harmless<F>(ar: Arith<F>, dt: F, c: Character<F>, entries: Entries<F>, p: PlayerId) {
    forall k :: k in entries && k.0 == p ==>
      var taken := Selection(Some(entries[k]));
      taken.Some? ==> Keeps(ar, dt, c, Direction(ar, taken.value))
  }

  /** Adding what no motion amounts to leaves the coordinate as it is. For f64, only minus zero is not settled. */
  ghost predicate Settled<F>(ar: Arith<F>, dt: F, x: F) { ar.add(x, ar.mul(ar.Zero(), dt)) == x }

  ghost predicate SettledAt<F>(ar: Arith<F>, dt: F, place: Vec2<F>) { Settled(ar, dt, place.x) && Settled(ar, dt, place.y) }

  /** Zero is not too long, and at speed it is zero. */
  ghost predicate ZeroSpeed<F>(ar: Arith<F>) {
    && ar.le(ar.MagnitudeSquared(ar.Origin()), ar.mul(ar.One(), ar.One()))
    && ar.mul(ar.Zero(), ar.ofInt(MOVE_SPEED)) == ar.Zero()
  }

  /** Sums that start from a settled coordinate are settled. */
  ghost predicate ZeroLaws<F(!new)>(ar: Arith<F>, dt: F) {
    && ZeroSpeed(ar) && Settled(ar, dt, ar.Zero())
    && forall x, y :: Settled(ar, dt, x) ==> Settled(ar, dt, ar.add(x, y))
  }

  lemma RealsHaveZeroLaws(ar: Arith<real>, dt: real)
    requires Exact(ar)
    ensures ZeroLaws(ar, dt)
    ensures forall place :: SettledAt(ar, dt, place)
  {
    assert ar.mul(ar.Zero(), dt) == 0.0;
    forall place: Vec2<real> ensures SettledAt(ar, dt, place) {
      assert ar.add(place.x, 0.0) == place.x && ar.add(place.y, 0.0) == place.y;
    }
  }

  lemma RestingMove<F>(ar: Arith<F>, dt: F, c: Character<F>)
    requires ZeroSpeed(ar) && SettledAt(ar, dt, c.position)
    ensures Move(ar, dt, c, ar.Origin()) == c.(velocity := ar.Origin())
  {
  }

  /** Every character of a run is at a settled place. */
  lemma {:induction false} PlacesSettled<F(!new)>(ar: Arith<F>, config: ServerConfig, evs: seq<Event<F>>, i: nat)
    requires config.tickRateHz > 0 && i < Joins(evs) && ZeroLaws(ar, TickLength(ar, config))
    ensures SettledAt(ar, TickLength(ar, config), CharacterAt(ar, config, evs, i).position)
  {
    if evs == [] {
    } else if Last(evs).Accept? && i == Joins(Front(evs)) {
    } else {
      PlacesSettled(ar, config, Front(evs), i);
    }
  }

  /** Where an intent takes a character depends on its place only. */
  lemma PlaceDecides<F>(ar: Arith<F>, dt: F, c: Character<F>, d: Character<F>, intent: Vec2<F>)
    requires c.position == d.position
    ensures Move(ar, dt, c, intent).position == Move(ar, dt, d, intent).position
  {
  }

  // A departed player whose buffer is harmless.

  /** Player and character are held: the character is in place and the prior intent keeps it there. */
  ghost predicate Held<F>(ar: Arith<F>, config: ServerConfig, now: seq<Event<F>>, sid: SessionId, c: Character<F>)
    requires config.tickRateHz > 0
  {
    && 1 <= sid <= Joins(now) && CharacterAt(ar, config, now, sid - 1).position == c.position
    && Keeps(ar, TickLength(ar, config), c, PriorIntent(ar, config, now, IdAt(config, sid - 1)))
  }

  lemma HoldStep<F>(
    ar: Arith<F>, config: ServerConfig, evs: seq<Event<F>>, now: seq<Event<F>>, sid: SessionId, c: Character<F>, e: Event<F>, entries: Entries<F>)
    requires config.tickRateHz > 0 && Held(ar, config, now, sid, c) && Departed(ar, config, evs, now, sid)
    requires EntriesInv(ar, config, evs, entries) && Harmless(ar, TickLength(ar, config), c, entries, IdAt(config, sid - 1))
    requires Keeps(ar, TickLength(ar, config), c, ar.Origin())
    ensures Held(ar, config, now + [e], sid, c)
  {
    LastOf(now, e);
    if e.Step? {
      var p := IdAt(config, sid - 1);
      DepartedApplies(ar, config, evs, now, sid, entries);
      PlaceDecides(ar, TickLength(ar, config), c, CharacterAt(ar, config, now, sid - 1), AppliedAt(ar, config, now, p).moveDir);
    }
  }

  lemma {:induction false} HarmlessHolds<F>(
    ar: Arith<F>, config: ServerConfig, evs: seq<Event<F>>, sid: SessionId, c: Character<F>, more: seq<Event<F>>, entries: Entries<F>)
    requires config.tickRateHz > 0 && 1 <= sid <= Joins(evs) && Live(evs, sid) && c == CharacterAt(ar, config, evs, sid - 1)
    requires EntriesInv(ar, config, evs, entries) && Harmless(ar, TickLength(ar, config), c, entries, IdAt(config, sid - 1))
    requires Keeps(ar, TickLength(ar, config), c, ar.Origin())
    requires DistinctPlayers(config, evs + [Disconnect(sid)] + more)
    ensures Departed(ar, config, evs, evs + [Disconnect(sid)] + more, sid)
    ensures Held(ar, config, evs + [Disconnect(sid)] + more, sid, c)
  {
    var gone := evs + [Disconnect(sid)];
    if more == [] {
      assert gone + more == gone;
      LastOf(evs, Disconnect(sid));
      LeaveDeparts(ar, config, evs, sid);
    } else {
      var front, e := Front(more), Last(more);
      var now := gone + front;
      assert gone + more == now + [e];
      LastOf(now, e);
      DistinctEarlier(config, gone + more);
      HarmlessHolds(ar, config, evs, sid, c, front, entries);
      StayDeparted(ar, config, evs, now, sid, e, Joins(now));
      HoldStep(ar, config, evs, now, sid, c, e, entries);
    }
  }

  // A silent buffer also stops the character.

  /** The departed character's velocity once a step has been taken. */
  lemma {:induction false} RestingVelocity<F>(
    ar: Arith<F>, config: ServerConfig, evs: seq<Event<F>>, sid: SessionId, more: seq<Event<F>>, entries: Entries<F>)
    requires config.tickRateHz > 0 && 1 <= sid <= Joins(evs) && Live(evs, sid) && ZeroSpeed(ar)
    requires EntriesInv(ar, config, evs, entries) && Silent(ar, entries, IdAt(config, sid - 1))
    requires DistinctPlayers(config, evs + [Disconnect(sid)] + more)
    ensures sid <= Joins(evs + [Disconnect(sid)] + more) && Steps(evs + [Disconnect(sid)] + more) >= Steps(evs)
    ensures Steps(evs + [Disconnect(sid)] + more) > Steps(evs) ==>
      CharacterAt(ar, config, evs + [Disconnect(sid)] + more, sid - 1).velocity == ar.Origin()
  {
    var gone := evs + [Disconnect(sid)];
    if more == [] {
      assert gone + more == gone;
      LastOf(evs, Disconnect(sid));
    } else {
      var front, e := Front(more), Last(more);
      var now := gone + front;
      assert gone + more == now + [e];
      LastOf(now, e);
      DistinctEarlier(config, gone + more);
      SilentRests(ar, config, evs, sid, front, entries);
      RestingVelocity(ar, config, evs, sid, front, entries);
      if e.Step? {
        RestStep(ar, config, evs, gone, now, sid, e, entries);
      }
    }
  }

  lemma SilentHarmless<F>(ar: Arith<F>, dt: F, c: Character<F>, entries: Entries<F>, p: PlayerId)
    requires Silent(ar, entries, p) && Keeps(ar, dt, c, ar.Origin())
    ensures Harmless(ar, dt, c, entries, p)
  {
  }

  /**
   A player who leaves a silent buffer stays where it is for good, and stops at the next
   step, if its own two coordinates are settled.
   */
  lemma FrozenInPlace<F>(ar: Arith<F>, config: ServerConfig, evs: seq<Event<F>>, sid: SessionId, more: seq<Event<F>>)
    requires UnsharedIds(config) && Legal(ar, config, evs) && Live(evs, sid)
    requires Legal(ar, config, evs + [Disconnect(sid)] + more)
    requires 1 <= sid <= |After(ar, config, evs).world.characters| && ZeroSpeed(ar)
    requires SettledAt(ar, TickLength(ar, config), After(ar, config, evs).world.characters[sid - 1].position)
    requires Silent(ar, After(ar, config, evs).entries, IdAt(config, sid - 1))
    ensures
      var was, now := After(ar, config, evs).world, After(ar, config, evs + [Disconnect(sid)] + more).world;
      && sid <= |now.characters|
      && now.characters[sid - 1].position == was.characters[sid - 1].position
      && (now.tick > was.tick ==> now.characters[sid - 1].velocity == ar.Origin())
  {
    LiveJoined(evs, sid);
    RunEntries(ar, config, evs);
    RunPlayersDistinct(ar, config, evs);
    RunPlayersDistinct(ar, config, evs + [Disconnect(sid)] + more);
    PlayerFacts(ar, config, evs, sid);
    var c, entries := CharacterAt(ar, config, evs, sid - 1), After(ar, config, evs).entries;
    RestingMove(ar, TickLength(ar, config), c);
    SilentHarmless(ar, TickLength(ar, config), c, entries, IdAt(config, sid - 1));
    HarmlessHolds(ar, config, evs, sid, c, more, entries);
    RestingVelocity(ar, config, evs, sid, more, entries);
    PlayerFacts(ar, config, evs + [Disconnect(sid)] + more, sid);
  }

  // Exactly when.

  /** Where the character of a session is. */
  function Place<F>(s: ServerState<F>, sid: SessionId): Option<Vec2<F>> {
    if 1 <= sid <= |s.world.characters| then Some(s.world.characters[sid - 1].position) else None
  }

  /** The character is at its place in every continuation of the run. */
  ghost predicate StaysPut<F(!new)>(ar: Arith<F>, config: ServerConfig, gone: seq<Event<F>>, sid: SessionId, place: Option<Vec2<F>>)
    requires config.tickRateHz > 0
  {
    forall more: seq<Event<F>> :: Legal(ar, config, gone + more) ==> Place(After(ar, config, gone + more), sid) == place
  }

  lemma PlaceOf<F>(ar: Arith<F>, config: ServerConfig, evs: seq<Event<F>>, sid: SessionId)
    requires UnsharedIds(config) && Legal(ar, config, evs) && 1 <= sid <= Joins(evs)
    ensures Place(After(ar, config, evs), sid) == Some(CharacterAt(ar, config, evs, sid - 1).position)
  {
    RunPlayersDistinct(ar, config, evs);
    PlayerFacts(ar, config, evs, sid);
  }

  /** Places before and after one step of some continuation that differ cannot both be the same. */
  lemma TwoPlaces<F(!new)>(
    ar: Arith<F>, config: ServerConfig, gone: seq<Event<F>>, sid: SessionId, place: Option<Vec2<F>>, more: seq<Event<F>>, further: seq<Event<F>>)
    requires Legal(ar, config, gone + more) && Legal(ar, config, gone + further)
    requires Place(After(ar, config, gone + more), sid) != place || Place(After(ar, config, gone + further), sid) != place
    ensures !StaysPut(ar, config, gone, sid, place)
  {
  }

  /** A step that displaces the character on the way refutes that it stays put. */
  lemma StepLeaves<F(!new)>(ar: Arith<F>, config: ServerConfig, gone: seq<Event<F>>, sid: SessionId, c: Character<F>, wait: nat)
    requires UnsharedIds(config) && Legal(ar, config, gone) && 1 <= sid <= Joins(gone)
    requires !Keeps(ar, TickLength(ar, config), c, AppliedAt(ar, config, StepOn(gone, wait), IdAt(config, sid - 1)).moveDir)
    ensures !StaysPut(ar, config, gone, sid, Some(c.position))
  {
    var now := StepOn(gone, wait);
    var more := StepOnExtends(gone, wait);
    StepOnLegal(ar, config, gone, wait);
    StepOnCounts(gone, wait);
    var further := Waiting(ar, config, gone, wait);
    LastOf(now, Event<F>.Step);
    PlaceOf(ar, config, gone + more, sid);
    PlaceOf(ar, config, gone + further, sid);
    if CharacterAt(ar, config, now, sid - 1).position == c.position {
      PlaceDecides(ar, TickLength(ar, config), c, CharacterAt(ar, config, now, sid - 1),
        AppliedAt(ar, config, now, IdAt(config, sid - 1)).moveDir);
    }
    TwoPlaces(ar, config, gone, sid, Some(c.position), more, further);
  }

  lemma HarmfulLeaves<F(!new)>(ar: Arith<F>, config: ServerConfig, evs: seq<Event<F>>, gone: seq<Event<F>>, sid: SessionId, c: Character<F>)
    requires UnsharedIds(config) && Legal(ar, config, evs) && Live(evs, sid)
    requires gone == evs + [Disconnect(sid)] && Legal(ar, config, gone)
    requires sid >= 1 && !Harmless(ar, TickLength(ar, config), c, After(ar, config, evs).entries, IdAt(config, sid - 1))
    ensures !StaysPut(ar, config, gone, sid, Some(c.position))
  {
    var entries, dt, p := After(ar, config, evs).entries, TickLength(ar, config), IdAt(config, sid - 1);
    var k :| k in entries && k.0 == p && Selection(Some(entries[k])).Some?
      && !Keeps(ar, dt, c, Direction(ar, Selection(Some(entries[k])).value));
    var wait := Leftover(ar, config, evs, k);
    LeftoverApplied(ar, config, evs, gone, sid, wait, Selection(Some(entries[k])).value);
    StepLeaves(ar, config, gone, sid, c, wait);
  }

  lemma HarmlessStays<F(!new)>(ar: Arith<F>, config: ServerConfig, evs: seq<Event<F>>, sid: SessionId, c: Character<F>)
    requires UnsharedIds(config) && Legal(ar, config, evs) && Live(evs, sid) && 1 <= sid <= Joins(evs)
    requires c == CharacterAt(ar, config, evs, sid - 1) && Keeps(ar, TickLength(ar, config), c, ar.Origin())
    requires Harmless(ar, TickLength(ar, config), c, After(ar, config, evs).entries, IdAt(config, sid - 1))
    ensures StaysPut(ar, config, evs + [Disconnect(sid)], sid, Some(c.position))
  {
    var gone := evs + [Disconnect(sid)];
    RunEntries(ar, config, evs);
    forall more: seq<Event<F>> | Legal(ar, config, gone + more)
      ensures Place(After(ar, config, gone + more), sid) == Some(c.position)
    {
      RunPlayersDistinct(ar, config, gone + more);
      HarmlessHolds(ar, config, evs, sid, c, more, After(ar, config, evs).entries);
      PlaceOf(ar, config, gone + more, sid);
    }
  }

  /**
   A departed player's character freezes in place, exactly, for every arithmetic in which
   zero is what `ZeroLaws` says. It is where it was in every continuation of the run if
   and only if each of the player's buffered commands is tied or, applied at that place,
   displaces nothing.
   */
  lemma StaysPutExact<F(!new)>(ar: Arith<F>, config: ServerConfig, evs: seq<Event<F>>, sid: SessionId)
    requires UnsharedIds(config) && Legal(ar, config, evs) && Live(evs, sid) && ZeroLaws(ar, TickLength(ar, config))
    ensures 1 <= sid <= |After(ar, config, evs).world.characters|
    ensures
      var s := After(ar, config, evs);
      var c := s.world.characters[sid - 1];
      StaysPut(ar, config, evs + [Disconnect(sid)], sid, Some(c.position)) <==>
        Harmless(ar, TickLength(ar, config), c, s.entries, IdAt(config, sid - 1))
  {
    LiveJoined(evs, sid);
    RunPlayersDistinct(ar, config, evs);
    PlayerFacts(ar, config, evs, sid);
    var c := CharacterAt(ar, config, evs, sid - 1);
    PlacesSettled(ar, config, evs, sid - 1);
    RestingMove(ar, TickLength(ar, config), c);
    RunExtends(ar, config, evs, Disconnect(sid));
    if Harmless(ar, TickLength(ar, config), c, After(ar, config, evs).entries, IdAt(config, sid - 1)) {
      HarmlessStays(ar, config, evs, sid, c);
    } else {
      HarmfulLeaves(ar, config, evs, evs + [Disconnect(sid)], sid, c);
    }
  }

  // Over the reals.

  lemma PositiveTick(ar: Arith<real>, config: ServerConfig)
    requires Exact(ar) && config.tickRateHz > 0
    ensures TickLength(ar, config) > 0.0 && ar.Origin() == Vec2(0.0, 0.0)
  {
  }

  /** Over the reals only zero keeps a character in place. */
  lemma OnlyZeroKeeps(ar: Arith<real>, dt: real, c: Character<real>, intent: Vec2<real>)
    requires Exact(ar) && dt > 0.0
    ensures Keeps(ar, dt, c, intent) <==> intent == ar.Origin()
  {
    if intent == ar.Origin() {
      RealsHaveZeroLaws(ar, dt);
      RestingMove(ar, dt, c);
    } else {
      NonzeroMoves(ar, dt, c, intent);
    }
  }

  lemma RealsHarmless(ar: Arith<real>, dt: real, c: Character<real>, entries: Entries<real>, p: PlayerId)
    requires Exact(ar) && dt > 0.0
    ensures Harmless(ar, dt, c, entries, p) <==> Silent(ar, entries, p)
  {
    forall k | k in entries && k.0 == p && Selection(Some(entries[k])).Some?
      ensures Keeps(ar, dt, c, Direction(ar, Selection(Some(entries[k])).value))
        <==> Direction(ar, Selection(Some(entries[k])).value) == ar.Origin()
    {
      OnlyZeroKeeps(ar, dt, c, Direction(ar, Selection(Some(entries[k])).value));
    }
  }

  /**
   Over the reals: it is where it was in every continuation of the run if and only if each
   of the player's buffered commands is tied or asks for no motion.
   */
  lemma FreezeExact(ar: Arith<real>, config: ServerConfig, evs: seq<Event<real>>, sid: SessionId)
    requires Exact(ar) && UnsharedIds(config) && Legal(ar, config, evs) && Live(evs, sid)
    ensures 1 <= sid <= Joins(evs) && Place(After(ar, config, evs), sid).Some?
    ensures StaysPut(ar, config, evs + [Disconnect(sid)], sid, Place(After(ar, config, evs), sid)) <==>
      Silent(ar, After(ar, config, evs).entries, IdAt(config, sid - 1))
  {
    LiveJoined(evs, sid);
    PlaceOf(ar, config, evs, sid);
    PositiveTick(ar, config);
    RealsHaveZeroLaws(ar, TickLength(ar, config));
    StaysPutExact(ar, config, evs, sid);
    RealsHarmless(ar, TickLength(ar, config), After(ar, config, evs).world.characters[sid - 1],
      After(ar, config, evs).entries, IdAt(config, sid - 1));
  }

  // A run whose player does not freeze.

  const LEFT_MOVING: ServerConfig := ServerConfig(0, 60, 120, 1, 120, 60, 2, false, None)

  function Rightward(): InputCmd<real> { InputCmd(1, 1, [1.0, 0.0]) }

  function LeavesEarly(): seq<Event<real>> { [Accept, Welcome(1), Receive(1, Rightward())] }

  lemma LeavesEarlyBuffer(ar: Arith<real>)
    requires Exact(ar) && ar.IsFinite(1.0) && ar.IsFinite(0.0)
    ensures Legal(ar, LEFT_MOVING, LeavesEarly()) && Live(LeavesEarly(), 1)
    ensures After(ar, LEFT_MOVING, LeavesEarly()).entries == map[(0, 1) := BufferEntry(Rightward(), 1, false, 1)]
  {
    var s0 := NewServer(ar, LEFT_MOVING);
    var e1, e2 := [Event<real>.Accept], [Event<real>.Accept, Event.Welcome(1)];
    assert Front(e1) == [] && Front(e2) == e1 && Front(LeavesEarly()) == e2;
    assert Run(ar, LEFT_MOVING, []) == Some(s0);
    assert CanAccept(s0);
    var s1 := AcceptSession(ar, s0);
    assert Run(ar, LEFT_MOVING, e1) == Some(s1);
    var s2 := WelcomeSession(s1, 1);
    assert Run(ar, LEFT_MOVING, e2) == Some(s2);
    assert Heard(ar, s2, 1, Rightward());
    ReceiveOutcome(ar, s2, 1, Rightward());
    assert !NeedsClamp(ar, Rightward().moveDir);
    assert Live(e1, 1) && Live(e2, 1);
  }

  /** Counting the events of that run, and what its player does last. */
  lemma LeavesEarlyCounts(ar: Arith<real>)
    ensures
      var evs := LeavesEarly();
      && Joins(evs) == 1 && Steps(evs) == 0 && Live(evs, 1) && IdAt(LEFT_MOVING, 0) == 0
      && CharacterAt(ar, LEFT_MOVING, evs, 0) == NewCharacter(ar, 1, 0)
  {
    var e1, e2 := [Event<real>.Accept], [Event<real>.Accept, Event.Welcome(1)];
    assert Front(e1) == [] && Front(e2) == e1 && Front(LeavesEarly()) == e2;
    assert Joins(e1) == 1 && Joins(e2) == 1 && Steps(e1) == 0 && Steps(e2) == 0;
    assert Live(e1, 1) && Live(e2, 1);
    assert CharacterAt(ar, LEFT_MOVING, e1, 0) == NewCharacter(ar, 1, 0);
    assert CharacterAt(ar, LEFT_MOVING, e2, 0) == NewCharacter(ar, 1, 0);
  }

  /** The two steps after that run, in terms of what was left in the buffer. */
  lemma TwoStepsOn(ar: Arith<real>, evs: seq<Event<real>>, gone: seq<Event<real>>, entries: Entries<real>)
    requires Exact(ar) && evs == LeavesEarly() && gone == evs + [Disconnect(1)]
    requires entries == map[(0, 1) := BufferEntry(Rightward(), 1, false, 1)]
    requires DistinctPlayers(LEFT_MOVING, gone) && Departed(ar, LEFT_MOVING, evs, gone, 1)
    requires EntriesInv(ar, LEFT_MOVING, evs, entries)
    ensures Joins(gone + [Event.Step] + [Event.Step]) == 1
    ensures CharacterAt(ar, LEFT_MOVING, gone + [Event.Step] + [Event.Step], 0).position == Vec2(1.0 * 5.0 * (1.0 / 60.0), 0.0)
  {
    var first, dt := gone + [Event<real>.Step], TickLength(ar, LEFT_MOVING);
    LeavesEarlyCounts(ar);
    LastOf(evs, Disconnect(1));
    LastOf(gone, Event<real>.Step);
    LastOf(first, Event<real>.Step);
    StayDeparted(ar, LEFT_MOVING, evs, gone, 1, Event.Step, 1);
    DepartedApplies(ar, LEFT_MOVING, evs, gone, 1, entries);
    DepartedApplies(ar, LEFT_MOVING, evs, first, 1, entries);
    RealsHaveZeroLaws(ar, dt);
    RestingMove(ar, dt, CharacterAt(ar, LEFT_MOVING, gone, 0));
    MoveRightward(ar, CharacterAt(ar, LEFT_MOVING, first, 0));
  }

  lemma MoveRightward(ar: Arith<real>, c: Character<real>)
    requires Exact(ar) && c.position == Vec2(0.0, 0.0)
    ensures Move(ar, TickLength(ar, LEFT_MOVING), c, Vec2(1.0, 0.0)).position == Vec2(1.0 * 5.0 * (1.0 / 60.0), 0.0)
  {
    ShortUnclamped(ar, Vec2(1.0, 0.0));
    MoveOverReals(ar, TickLength(ar, LEFT_MOVING), c, Vec2(1.0, 0.0));
  }

  /**
   The source says a departed player's character freezes in place. It need not: one that
   leaves at the origin with a command buffered for tick 1 is at (5/60, 0) two steps later.
   */
  lemma StillMoving(ar: Arith<real>)
    requires Exact(ar) && ar.IsFinite(1.0) && ar.IsFinite(0.0)
    ensures Legal(ar, LEFT_MOVING, LeavesEarly()) && Legal(ar, LEFT_MOVING, LeavesEarly() + [Disconnect(1)] + [Event.Step] + [Event.Step])
    ensures Place(After(ar, LEFT_MOVING, LeavesEarly()), 1) == Some(Vec2(0.0, 0.0))
    ensures Place(After(ar, LEFT_MOVING, LeavesEarly() + [Disconnect(1)] + [Event.Step] + [Event.Step]), 1)
         == Some(Vec2(1.0 * 5.0 * (1.0 / 60.0), 0.0))
  {
    var evs, gone := LeavesEarly(), LeavesEarly() + [Disconnect(1)];
    var final := gone + [Event.Step] + [Event.Step];
    LeavesEarlyBuffer(ar);
    LeavesEarlyCounts(ar);
    RunExtends(ar, LEFT_MOVING, evs, Disconnect(1));
    StepEnabled(ar, LEFT_MOVING, gone, gone + [Event.Step]);
    StepEnabled(ar, LEFT_MOVING, gone + [Event.Step], final);
    LeaveFacts(ar, LEFT_MOVING, evs, gone, 1);
    RunEntries(ar, LEFT_MOVING, evs);
    TwoStepsOn(ar, evs, gone, After(ar, LEFT_MOVING, evs).entries);
    PlaceOf(ar, LEFT_MOVING, evs, 1);
    PlaceOf(ar, LEFT_MOVING, final, 1);
  }
}
