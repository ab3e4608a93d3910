/**
 Who and what can influence a player: non-interference between sessions, and between
 the future and the present.

 `View` is what concerns one session in a run: the joins, the steps, and its own
 welcomes, commands and disconnect. Two runs with one view treat that player alike.
 */
module Interference {
  import opened Sequences
  import opened Float64
  import opened Simulation
  import opened InputBuffering
  import opened Replay
  import opened ServerModel
  import opened ServerRuns
  import opened RecordThenVerify
  import opened InputTrace
  import opened Trajectories

  predicate Concerns<F>(e: Event<F>, sid: SessionId) {
    match e
    case Accept => true
    case Step => true
    case Welcome(other) => other == sid
    case Disconnect(other) => other == sid
    case Receive(other, _) => other == sid
    case SetFingerprint(_) => false
  }

  function View<F>(evs: seq<Event<F>>, sid: SessionId): seq<Event<F>> {
    if evs == [] then []
    else
      var before := View(Front(evs), sid);
      if Concerns(Last(evs), sid) then before + [Last(evs)] else before
  }

  /** The inputs applied for the player of join `i`, tick by tick. */
  function PlayerTrace<F>(ar: Arith<F>, config: ServerConfig, evs: seq<Event<F>>, i: nat): seq<AppliedInput<F>>
    requires config.tickRateHz > 0
  {
    if evs == [] then []
    else
      var front := Front(evs);
      var before := PlayerTrace(ar, config, front, i);
      if Last(evs).Step? && i < Joins(front) then before + [AppliedAt(ar, config, front, IdAt(config, i))] else before
  }

  function InputsOf<F>(inputs: seq<AppliedInput<F>>, p: PlayerId): seq<AppliedInput<F>> {
    Filter((x: AppliedInput<F>) => x.playerId == p, inputs)
  }

  lemma InputsConcat<F>(xs: seq<AppliedInput<F>>, ys: seq<AppliedInput<F>>, p: PlayerId)
    ensures InputsOf(xs + ys, p) == InputsOf(xs, p) + InputsOf(ys, p)
  {
    FilterConcat((x: AppliedInput<F>) => x.playerId == p, xs, ys);
  }

  // The recording, player by player.

  lemma {:induction false} TickOfPlayer<F>(ar: Arith<F>, config: ServerConfig, evs: seq<Event<F>>, players: seq<PlayerId>, p: PlayerId)
    requires config.tickRateHz > 0 && Distinct(players)
    ensures InputsOf(TickOf(ar, config, evs, players), p) == if p in players then [AppliedAt(ar, config, evs, p)] else []
  {
    if players == [] {
    } else {
      var n := |players| - 1;
      var front, last := players[..n], players[n];
      assert players == front + [last];
      DistinctFront(front, last);
      TickOfPlayer(ar, config, evs, front, p);
      var ticks := TickOf(ar, config, evs, front);
      assert (ticks + [AppliedAt(ar, config, evs, last)])[..|ticks|] == ticks;
    }
  }

  lemma RosterMember(config: ServerConfig, k: nat, n: nat, i: nat)
    requires Enrollable(config, n) && Distinct(Roster(config, n)) && k <= n && i < n
    ensures Distinct(Roster(config, k)) && (IdAt(config, i) in Roster(config, k) <==> i < k)
  {
    RosterPrefix(config, k, n);
    RosterIds(config, n);
    assert Roster(config, n)[i] == IdAt(config, i);
    if i < k { assert Roster(config, k)[i] == IdAt(config, i); }
  }

  lemma {:induction false} RecordedOfPlayer<F>(ar: Arith<F>, config: ServerConfig, evs: seq<Event<F>>, i: nat, n: nat)
    requires config.tickRateHz > 0 && Enrollable(config, n) && Distinct(Roster(config, n)) && Joins(evs) <= n && i < n
    ensures InputsOf(Recorded(ar, config, evs), IdAt(config, i)) == PlayerTrace(ar, config, evs, i)
  {
    if evs == [] {
    } else {
      var front := Front(evs);
      RecordedOfPlayer(ar, config, front, i, n);
      if Last(evs).Step? {
        var roster, p := Roster(config, Joins(front)), IdAt(config, i);
        RosterMember(config, Joins(front), n, i);
        TickOfPlayer(ar, config, front, roster, p);
        InputsConcat(Recorded(ar, config, front), TickOf(ar, config, front, roster), p);
      }
    }
  }

  // What the view determines.

  lemma {:induction false} ViewClock<F>(evs: seq<Event<F>>, sid: SessionId)
    ensures Steps(View(evs, sid)) == Steps(evs) && Joins(View(evs, sid)) == Joins(evs)
    ensures Live(View(evs, sid), sid) == Live(evs, sid) && HasFloor(View(evs, sid), sid) == HasFloor(evs, sid)
  {
    if evs == [] {
    } else {
      ViewClock(Front(evs), sid);
      LastOf(View(Front(evs), sid), Last(evs));
    }
  }

  lemma {:induction false} LiveJoined<F>(evs: seq<Event<F>>, sid: SessionId)
    requires Live(evs, sid)
    ensures 1 <= sid <= Joins(evs)
  {
    if !Live(Front(evs), sid) {
    } else {
      LiveJoined(Front(evs), sid);
    }
  }

  /** Nobody but session `sid` plays its player. */
  lemma SolePlayer<F>(config: ServerConfig, evs: seq<Event<F>>, sid: SessionId, n: nat, other: SessionId)
    requires Enrollable(config, n) && Distinct(Roster(config, n)) && Joins(evs) <= n && 1 <= sid <= n
    requires Live(evs, other) && Plays(config, other, IdAt(config, sid - 1))
    ensures other == sid
  {
    LiveJoined(evs, other);
    RosterIds(config, n);
    assert Roster(config, n)[other - 1] == Roster(config, n)[sid - 1];
  }

  lemma {:induction false} ViewOffers<F>(
    ar: Arith<F>, config: ServerConfig, evs: seq<Event<F>>, sid: SessionId, n: nat, t: nat)
    requires Enrollable(config, n) && Distinct(Roster(config, n)) && Joins(evs) <= n && 1 <= sid <= n
    ensures Offered(ar, config, View(evs, sid), IdAt(config, sid - 1), t) == Offered(ar, config, evs, IdAt(config, sid - 1), t)
  {
    if evs == [] {
    } else {
      var front, e, p := Front(evs), Last(evs), IdAt(config, sid - 1);
      ViewOffers(ar, config, front, sid, n, t);
      if Concerns(e, sid) {
        ViewClock(front, sid);
        LastOf(View(front, sid), e);
        assert Offers(ar, config, front, e, p, t) == Offers(ar, config, View(front, sid), e, p, t);
      } else if Offers(ar, config, front, e, p, t) {
        SolePlayer(config, front, sid, n, e.session);
      }
    }
  }

  lemma {:induction false} ViewIntent<F>(ar: Arith<F>, config: ServerConfig, evs: seq<Event<F>>, sid: SessionId, n: nat)
    requires config.tickRateHz > 0
    requires Enrollable(config, n) && Distinct(Roster(config, n)) && Joins(evs) <= n && 1 <= sid <= n
    ensures PriorIntent(ar, config, View(evs, sid), IdAt(config, sid - 1)) == PriorIntent(ar, config, evs, IdAt(config, sid - 1))
    ensures AppliedAt(ar, config, View(evs, sid), IdAt(config, sid - 1)) == AppliedAt(ar, config, evs, IdAt(config, sid - 1))
  {
    var p := IdAt(config, sid - 1);
    ViewClock(evs, sid);
    ViewOffers(ar, config, evs, sid, n, Steps(evs));
    if evs == [] {
    } else {
      var front, e := Front(evs), Last(evs);
      ViewIntent(ar, config, front, sid, n);
      ViewClock(front, sid);
      if Concerns(e, sid) {
        LastOf(View(front, sid), e);
      } else if e.Disconnect? && Live(front, e.session) && Plays(config, e.session, p) {
        SolePlayer(config, front, sid, n, e.session);
      }
    }
  }

  lemma {:induction false} ViewTrace<F>(ar: Arith<F>, config: ServerConfig, evs: seq<Event<F>>, sid: SessionId, n: nat)
    requires config.tickRateHz > 0
    requires Enrollable(config, n) && Distinct(Roster(config, n)) && Joins(evs) <= n && 1 <= sid <= n
    ensures Joins(View(evs, sid)) == Joins(evs)
    ensures PlayerTrace(ar, config, View(evs, sid), sid - 1) == PlayerTrace(ar, config, evs, sid - 1)
    ensures sid <= Joins(evs) ==> CharacterAt(ar, config, View(evs, sid), sid - 1) == CharacterAt(ar, config, evs, sid - 1)
  {
    ViewClock(evs, sid);
    if evs == [] {
    } else {
      var front, e := Front(evs), Last(evs);
      ViewTrace(ar, config, front, sid, n);
      ViewClock(front, sid);
      ViewIntent(ar, config, front, sid, n);
      LastOf(View(front, sid), e);
    }
  }

  lemma {:induction false} ViewPath<F>(ar: Arith<F>, config: ServerConfig, evs: seq<Event<F>>, sid: SessionId, n: nat)
    requires config.tickRateHz > 0
    requires Enrollable(config, n) && Distinct(Roster(config, n)) && Joins(evs) <= n && 1 <= sid <= n
    ensures PathOf(ar, config, View(evs, sid), sid - 1) == PathOf(ar, config, evs, sid - 1)
  {
    if evs == [] {
    } else {
      var front, e := Front(evs), Last(evs);
      ViewPath(ar, config, front, sid, n);
      ViewTrace(ar, config, evs, sid, n);
      LastOf(View(front, sid), e);
    }
  }

  /**
   Non-interference. Two runs in which session `sid` sees the same joins, steps, welcomes
   and disconnect and sends the same commands give its player the same applied input on
   every tick, and its character the same position and velocity after every step,
   whatever anybody else sends or does.
   */
  lemma NonInterference<F>(ar: Arith<F>, config: ServerConfig, evs: seq<Event<F>>, others: seq<Event<F>>, sid: SessionId)
    requires Legal(ar, config, evs) && Legal(ar, config, others) && DistinctPlayers(config, evs)
    requires View(evs, sid) == View(others, sid) && 1 <= sid <= Joins(evs)
    ensures
      var s, t, p := After(ar, config, evs), After(ar, config, others), IdAt(config, sid - 1);
      && s.world.tick == t.world.tick
      && InputsOf(s.recorder.inputs, p) == InputsOf(t.recorder.inputs, p)
      && |s.world.characters| == |t.world.characters| == Joins(evs)
      && s.world.characters[sid - 1].playerId == p
      && s.world.characters[sid - 1] == t.world.characters[sid - 1]
    ensures WorldPath(ar, config, evs, sid - 1) == WorldPath(ar, config, others, sid - 1)
  {
    ViewClock(evs, sid);
    ViewClock(others, sid);
    var n := Joins(evs);
    PlayerFacts(ar, config, evs, sid);
    PlayerFacts(ar, config, others, sid);
    ViewTrace(ar, config, evs, sid, n);
    ViewTrace(ar, config, others, sid, n);
    SamePath(ar, config, evs, others, sid);
  }

  lemma SamePath<F>(ar: Arith<F>, config: ServerConfig, evs: seq<Event<F>>, others: seq<Event<F>>, sid: SessionId)
    requires Legal(ar, config, evs) && Legal(ar, config, others) && DistinctPlayers(config, evs)
    requires View(evs, sid) == View(others, sid) && Joins(evs) == Joins(others) && 1 <= sid <= Joins(evs)
    ensures WorldPath(ar, config, evs, sid - 1) == WorldPath(ar, config, others, sid - 1)
  {
    PathRefinement(ar, config, evs, sid - 1);
    PathRefinement(ar, config, others, sid - 1);
    ViewPath(ar, config, evs, sid, Joins(evs));
    ViewPath(ar, config, others, sid, Joins(evs));
  }

  lemma PlayerFacts<F>(ar: Arith<F>, config: ServerConfig, evs: seq<Event<F>>, sid: SessionId)
    requires Legal(ar, config, evs) && DistinctPlayers(config, evs) && 1 <= sid <= Joins(evs)
    ensures
      var s, p := After(ar, config, evs), IdAt(config, sid - 1);
      && s.world.tick == Steps(evs) && |s.world.characters| == Joins(evs)
      && InputsOf(s.recorder.inputs, p) == PlayerTrace(ar, config, evs, sid - 1)
      && s.world.characters[sid - 1].playerId == p
      && s.world.characters[sid - 1] == CharacterAt(ar, config, evs, sid - 1)
  {
    OwnerOf(ar, config, evs, After(ar, config, evs), sid);
    TraceRefinement(ar, config, evs);
    TrajectoryRefinement(ar, config, evs);
    RecordedOfPlayer(ar, config, evs, sid - 1, Joins(evs));
  }

  lemma OwnerOf<F>(ar: Arith<F>, config: ServerConfig, evs: seq<Event<F>>, s: ServerState<F>, sid: SessionId)
    requires Legal(ar, config, evs) && s == After(ar, config, evs) && 1 <= sid <= Joins(evs)
    ensures s.world.tick == Steps(evs) && |s.world.characters| == Joins(evs)
    ensures s.world.characters[sid - 1].playerId == IdAt(config, sid - 1)
  {
    RunKeepsInvariant(ar, config, evs);
    RosterIds(config, Joins(evs));
  }

  // The future cannot touch the present.

  /** The run without its commands for tick T and later. */
  function DropFuture<F>(evs: seq<Event<F>>, T: nat): seq<Event<F>> {
    if evs == [] then []
    else
      var before := DropFuture(Front(evs), T);
      if Last(evs).Receive? && Last(evs).cmd.tick >= T then before else before + [Last(evs)]
  }

  /** Equal states but for buffered commands of tick T and later. */
  ghost predicate EqualUntil<F>(s: ServerState<F>, t: ServerState<F>, T: nat) {
    && s.config == t.config && s.world == t.world && s.registry == t.registry && s.lastKnownIntent == t.lastKnownIntent
    && s.lastEmittedFloor == t.lastEmittedFloor && s.recorder == t.recorder && s.baselineRecorded == t.baselineRecorded
    && SameBelow(s.entries, t.entries, T)
  }

  ghost predicate SameBelow<F>(es: Entries<F>, fs: Entries<F>, T: nat) {
    forall k: Key :: k.1 < T ==> Lookup(es, k) == Lookup(fs, k)
  }

  lemma {:induction false} CollectAgrees<F>(
    ar: Arith<F>, es: Entries<F>, fs: Entries<F>, intents: map<PlayerId, Vec2<F>>, tick: nat, players: seq<PlayerId>)
    requires forall k: Key :: k.1 <= tick ==> Lookup(es, k) == Lookup(fs, k)
    ensures
      var c, d := Collect(ar, es, intents, tick, players), Collect(ar, fs, intents, tick, players);
      && c.applied == d.applied && c.intents == d.intents
      && forall k: Key :: Lookup(es, k) == Lookup(fs, k) ==> Lookup(c.entries, k) == Lookup(d.entries, k)
  {
    if players == [] {
    } else {
      CollectAgrees(ar, es, fs, intents, tick, players[..|players| - 1]);
    }
  }

  lemma EvictAgrees<F>(es: Entries<F>, fs: Entries<F>, tick: nat, T: nat)
    requires SameBelow(es, fs, T)
    ensures SameBelow(EvictBefore(es, tick), EvictBefore(fs, tick), T)
  {
    forall k: Key | k.1 < T ensures Lookup(EvictBefore(es, tick), k) == Lookup(EvictBefore(fs, tick), k) {
      assert Lookup(es, k) == Lookup(fs, k);
    }
  }

  lemma StepAgrees<F>(ar: Arith<F>, s: ServerState<F>, t: ServerState<F>, T: nat)
    requires EqualUntil(s, t, T) && s.world.tick < T
    ensures EqualUntil(StepServer(ar, s), StepServer(ar, t), T)
  {
    var players := s.registry.entitySpawnOrder;
    var c := Collect(ar, s.entries, s.lastKnownIntent, s.world.tick, players);
    var d := Collect(ar, t.entries, t.lastKnownIntent, t.world.tick, players);
    CollectSameBelow(ar, s.entries, t.entries, s.lastKnownIntent, s.world.tick, players, T);
    StepOutcome(ar, s, c);
    StepOutcome(ar, t, d);
    var s', t' := StepServer(ar, s), StepServer(ar, t);
    SameRecording(ar, s, t, c.applied);
    assert NextFloor(s) == NextFloor(t);
    assert s.registry.sessions.Keys == t.registry.sessions.Keys;
    EvictAgrees(c.entries, d.entries, s'.world.tick, T);
  }

  lemma SameRecording<F>(ar: Arith<F>, s: ServerState<F>, t: ServerState<F>, applied: seq<AppliedInput<F>>)
    requires s.recorder == t.recorder && s.baselineRecorded == t.baselineRecorded && s.world == t.world
    ensures Recording(ar, s.recorder, s.baselineRecorded, s.world, applied)
         == Recording(ar, t.recorder, t.baselineRecorded, t.world, applied)
  {
  }

  lemma CollectSameBelow<F>(
    ar: Arith<F>, es: Entries<F>, fs: Entries<F>, intents: map<PlayerId, Vec2<F>>, tick: nat, players: seq<PlayerId>, T: nat)
    requires SameBelow(es, fs, T) && tick < T
    ensures
      var c, d := Collect(ar, es, intents, tick, players), Collect(ar, fs, intents, tick, players);
      c.applied == d.applied && c.intents == d.intents && SameBelow(c.entries, d.entries, T)
  {
    CollectAgrees(ar, es, fs, intents, tick, players);
    var c, d := Collect(ar, es, intents, tick, players), Collect(ar, fs, intents, tick, players);
    forall k: Key | k.1 < T ensures Lookup(c.entries, k) == Lookup(d.entries, k) {
      assert Lookup(es, k) == Lookup(fs, k);
    }
  }

  lemma ReceiveAgrees<F>(ar: Arith<F>, s: ServerState<F>, t: ServerState<F>, T: nat, sid: SessionId, cmd: InputCmd<F>)
    requires EqualUntil(s, t, T) && s.config.tickRateHz > 0
    ensures cmd.tick >= T ==> EqualUntil(ReceiveFrom(ar, s, sid, cmd), t, T)
    ensures cmd.tick < T ==> EqualUntil(ReceiveFrom(ar, s, sid, cmd), ReceiveFrom(ar, t, sid, cmd), T)
  {
    ReceiveOutcome(ar, s, sid, cmd);
    ReceiveOutcome(ar, t, sid, cmd);
  }

  lemma EventAgrees<F>(ar: Arith<F>, s: ServerState<F>, t: ServerState<F>, T: nat, e: Event<F>)
    requires EqualUntil(s, t, T) && s.config.tickRateHz > 0 && Enabled(s, e)
    requires e.Step? ==> s.world.tick < T
    ensures Enabled(t, e)
    ensures if e.Receive? && e.cmd.tick >= T then EqualUntil(Apply(ar, s, e), t, T)
            else EqualUntil(Apply(ar, s, e), Apply(ar, t, e), T)
  {
    match e {
      case Step => StepAgrees(ar, s, t, T);
      case Receive(sid, cmd) => ReceiveAgrees(ar, s, t, T, sid, cmd);
      case _ =>
    }
  }

  /**
   Commands for tick T and later have no effect up to tick T: without them the run is
   still legal and ends in the same world, recording, registry, floors and intents.
   */
  lemma {:induction false} FutureIsInert<F>(ar: Arith<F>, config: ServerConfig, evs: seq<Event<F>>, T: nat)
    requires Legal(ar, config, evs) && Steps(evs) <= T
    ensures Legal(ar, config, DropFuture(evs, T))
    ensures EqualUntil(After(ar, config, evs), After(ar, config, DropFuture(evs, T)), T)
  {
    if evs == [] {
    } else {
      var front, e := Front(evs), Last(evs);
      RunLast(ar, config, evs);
      FutureIsInert(ar, config, front, T);
      RunKeepsInvariant(ar, config, front);
      EventAgrees(ar, After(ar, config, front), After(ar, config, DropFuture(front, T)), T, e);
      RunExtends(ar, config, DropFuture(front, T), e);
    }
  }

  /** Two runs that differ only in commands for tick T and later are in one world up to tick T. */
  lemma FutureNonInterference<F>(ar: Arith<F>, config: ServerConfig, evs: seq<Event<F>>, others: seq<Event<F>>, T: nat)
    requires Legal(ar, config, evs) && Legal(ar, config, others) && Steps(evs) <= T && Steps(others) <= T
    requires DropFuture(evs, T) == DropFuture(others, T)
    ensures After(ar, config, evs).world == After(ar, config, others).world
    ensures After(ar, config, evs).recorder == After(ar, config, others).recorder
  {
    FutureIsInert(ar, config, evs, T);
    FutureIsInert(ar, config, others, T);
  }
}
