/**
 What the network can change in a whole run by delivering commands in another order,
 twice, or not at all.

 Two runs that are equal but for their commands record the same inputs exactly when, for
 every player and every tick that was stepped, the commands that won point the same way;
 and then their servers are equal in everything but the buffer.
 */
module Deliveries {
  import opened Wrappers
  import opened Sequences
  import opened Float64
  import opened Simulation
  import opened InputBuffering
  import opened ServerModel
  import opened ServerRuns
  import opened RecordThenVerify
  import opened InputTrace
  import opened Interference

  /** The run without its commands. */
  function Skeleton<F>(evs: seq<Event<F>>): seq<Event<F>> {
    if evs == [] then []
    else if Last(evs).Receive? then Skeleton(Front(evs))
    else Skeleton(Front(evs)) + [Last(evs)]
  }

  lemma {:induction false} SkeletonClock<F>(evs: seq<Event<F>>)
    ensures Steps(Skeleton(evs)) == Steps(evs) && Joins(Skeleton(evs)) == Joins(evs)
    ensures forall sid :: Live(Skeleton(evs), sid) == Live(evs, sid) && HasFloor(Skeleton(evs), sid) == HasFloor(evs, sid)
  {
    if evs == [] {
    } else {
      var front, e := Front(evs), Last(evs);
      var kept := Skeleton(front);
      SkeletonClock(front);
      LastOf(kept, e);
      if !e.Receive? {
        assert Skeleton(evs) == kept + [e];
        forall sid ensures Live(kept + [e], sid) == Live(evs, sid) && HasFloor(kept + [e], sid) == HasFloor(evs, sid) {
          assert Live(kept, sid) == Live(front, sid) && HasFloor(kept, sid) == HasFloor(front, sid);
        }
      }
    }
  }

  /** Runs with one skeleton have the same sessions, floors and clock, and offer the same commands. */
  lemma SameClock<F>(evs: seq<Event<F>>, fs: seq<Event<F>>)
    requires Skeleton(evs) == Skeleton(fs)
    ensures Steps(evs) == Steps(fs) && Joins(evs) == Joins(fs)
    ensures forall sid :: Live(evs, sid) == Live(fs, sid) && HasFloor(evs, sid) == HasFloor(fs, sid)
  {
    SkeletonClock(evs);
    SkeletonClock(fs);
  }

  lemma SameOffer<F>(ar: Arith<F>, config: ServerConfig, evs: seq<Event<F>>, fs: seq<Event<F>>, e: Event<F>, p: PlayerId, t: nat)
    requires Skeleton(evs) == Skeleton(fs)
    ensures Offers(ar, config, evs, e, p, t) == Offers(ar, config, fs, e, p, t)
  {
    SameClock(evs, fs);
  }

  // Legality.

  /** What decides whether an event is possible, read off the events. */
  lemma Admission<F>(ar: Arith<F>, config: ServerConfig, evs: seq<Event<F>>)
    requires Legal(ar, config, evs)
    ensures
      var r := After(ar, config, evs).registry;
      r.nextPlayerId == Joins(evs) && forall sid :: sid in r.sessions <==> Live(evs, sid)
  {
    RunKeepsInvariant(ar, config, evs);
  }

  lemma SameSize<T, U>(m: map<T, U>, n: map<T, U>)
    requires forall k :: k in m <==> k in n
    ensures |m| == |n|
  {
    assert m.Keys == n.Keys;
    assert |m| == |m.Keys| == |n.Keys| == |n|;
  }

  lemma SameEnabled<F>(ar: Arith<F>, config: ServerConfig, evs: seq<Event<F>>, fs: seq<Event<F>>, e: Event<F>)
    requires Legal(ar, config, evs) && Legal(ar, config, fs) && Skeleton(evs) == Skeleton(fs)
    ensures Enabled(After(ar, config, evs), e) <==> Enabled(After(ar, config, fs), e)
  {
    Admission(ar, config, evs);
    Admission(ar, config, fs);
    SameClock(evs, fs);
    SameSize(After(ar, config, evs).registry.sessions, After(ar, config, fs).registry.sessions);
  }

  /** Commands never make a run illegal, and never make one legal. */
  lemma {:induction false} LegalTogether<F>(ar: Arith<F>, config: ServerConfig, evs: seq<Event<F>>, fs: seq<Event<F>>)
    requires Legal(ar, config, evs) && Skeleton(evs) == Skeleton(fs)
    ensures Legal(ar, config, fs)
    decreases |evs| + |fs|
  {
    if evs != [] && Last(evs).Receive? {
      RunLast(ar, config, evs);
      LegalTogether(ar, config, Front(evs), fs);
    } else if fs != [] && Last(fs).Receive? {
      LegalTogether(ar, config, evs, Front(fs));
    } else if evs == [] {
    } else {
      var front, next, e := Front(evs), Front(fs), Last(evs);
      SameLast(evs, fs);
      RunLast(ar, config, evs);
      LegalTogether(ar, config, front, next);
      SameEnabled(ar, config, front, next, e);
    }
  }

  /** Two nonempty runs with one skeleton that do not end in a command end in the same event. */
  lemma SameLast<F>(evs: seq<Event<F>>, fs: seq<Event<F>>)
    requires Skeleton(evs) == Skeleton(fs)
    requires evs != [] && !Last(evs).Receive? && (fs == [] || !Last(fs).Receive?)
    ensures fs != [] && Last(evs) == Last(fs) && Skeleton(Front(evs)) == Skeleton(Front(fs))
  {
    LastOf(Skeleton(Front(evs)), Last(evs));
    if fs != [] {
      LastOf(Skeleton(Front(fs)), Last(fs));
    }
  }

  // What won.

  /** Where the winner of a tick points, if there is one. */
  function Heading<F>(ar: Arith<F>, w: Option<InputCmd<F>>): Option<Vec2<F>> {
    if w.Some? then Some(Direction(ar, w.value)) else None
  }

  ghost predicate SameHeading<F>(ar: Arith<F>, config: ServerConfig, evs: seq<Event<F>>, fs: seq<Event<F>>, p: PlayerId, t: nat)
    requires config.tickRateHz > 0
  {
    Heading(ar, WinnerAt(ar, config, evs, p, t)) == Heading(ar, WinnerAt(ar, config, fs, p, t))
  }

  /** On every tick that was stepped, whatever won points the same way. */
  ghost predicate SameHeadings<F>(ar: Arith<F>, config: ServerConfig, evs: seq<Event<F>>, fs: seq<Event<F>>)
    requires config.tickRateHz > 0
  {
    forall p, t: nat :: t < Steps(evs) ==> SameHeading(ar, config, evs, fs, p, t)
  }

  /** The last event does not change what was offered for earlier ticks. */
  lemma FrontOffers<F>(ar: Arith<F>, config: ServerConfig, evs: seq<Event<F>>)
    requires evs != [] && config.tickRateHz > 0
    ensures forall p, t: nat :: t < Steps(evs) ==> WinnerAt(ar, config, evs, p, t) == WinnerAt(ar, config, Front(evs), p, t)
  {
    forall p, t: nat | t < Steps(evs)
      ensures Offered(ar, config, evs, p, t) == Offered(ar, config, Front(evs), p, t)
    {
    }
  }

  lemma SameForFront<F>(ar: Arith<F>, config: ServerConfig, evs: seq<Event<F>>, fs: seq<Event<F>>)
    requires config.tickRateHz > 0 && evs != [] && Last(evs).Receive?
    ensures SameHeadings(ar, config, evs, fs) <==> SameHeadings(ar, config, Front(evs), fs)
  {
    FrontOffers(ar, config, evs);
    forall p, t: nat | t < Steps(evs)
      ensures SameHeading(ar, config, evs, fs, p, t) <==> SameHeading(ar, config, Front(evs), fs, p, t)
    {
    }
  }

  lemma SameForBoth<F>(ar: Arith<F>, config: ServerConfig, evs: seq<Event<F>>, fs: seq<Event<F>>)
    requires config.tickRateHz > 0 && evs != [] && fs != [] && Steps(evs) == Steps(fs)
    requires SameHeadings(ar, config, evs, fs) && Steps(Front(evs)) == Steps(Front(fs))
    ensures SameHeadings(ar, config, Front(evs), Front(fs))
    ensures Last(evs).Step? ==> forall p :: SameHeading(ar, config, Front(evs), Front(fs), p, Steps(Front(evs)))
  {
    FrontOffers(ar, config, evs);
    FrontOffers(ar, config, fs);
    forall p, t: nat | t < Steps(evs)
      ensures SameHeading(ar, config, Front(evs), Front(fs), p, t)
    {
      assert SameHeading(ar, config, evs, fs, p, t);
    }
  }

  // Equal headings make equal servers.

  /** The servers are equal in everything but the buffer. */
  ghost predicate EqualButBuffer<F>(s: ServerState<F>, t: ServerState<F>) { EqualUntil(s, t, 0) }

  /** Equal applied inputs leave equal intents. */
  lemma {:induction false} CollectedAlike<F>(
    ar: Arith<F>, es: Entries<F>, fs: Entries<F>, intents: map<PlayerId, Vec2<F>>, tick: nat, players: seq<PlayerId>)
    requires Collect(ar, es, intents, tick, players).applied == Collect(ar, fs, intents, tick, players).applied
    ensures Collect(ar, es, intents, tick, players).intents == Collect(ar, fs, intents, tick, players).intents
  {
    if players == [] {
    } else {
      var n := |players| - 1;
      var c, d := Collect(ar, es, intents, tick, players), Collect(ar, fs, intents, tick, players);
      var c0, d0 := Collect(ar, es, intents, tick, players[..n]), Collect(ar, fs, intents, tick, players[..n]);
      assert c0.applied == c.applied[..|c.applied| - 1] && d0.applied == d.applied[..|d.applied| - 1];
      CollectedAlike(ar, es, fs, intents, tick, players[..n]);
      assert c.applied[|c.applied| - 1] == d.applied[|d.applied| - 1];
    }
  }

  lemma StepAlike<F>(ar: Arith<F>, s: ServerState<F>, t: ServerState<F>)
    requires EqualButBuffer(s, t) && StepApplied(ar, s) == StepApplied(ar, t)
    ensures EqualButBuffer(StepServer(ar, s), StepServer(ar, t))
  {
    var players := s.registry.entitySpawnOrder;
    var c := Collect(ar, s.entries, s.lastKnownIntent, s.world.tick, players);
    var d := Collect(ar, t.entries, t.lastKnownIntent, t.world.tick, players);
    CollectedAlike(ar, s.entries, t.entries, s.lastKnownIntent, s.world.tick, players);
    StepOutcome(ar, s, c);
    StepOutcome(ar, t, d);
    SameRecording(ar, s, t, c.applied);
    assert NextFloor(s) == NextFloor(t);
    assert s.registry.sessions.Keys == t.registry.sessions.Keys;
  }

  lemma AppliedAlike<F>(
    ar: Arith<F>, config: ServerConfig, evs: seq<Event<F>>, fs: seq<Event<F>>, s: ServerState<F>, t: ServerState<F>, p: PlayerId)
    requires config.tickRateHz > 0 && s.world.tick == Steps(evs) && t.world.tick == Steps(fs)
    requires EntriesInv(ar, config, evs, s.entries) && IntentsInv(ar, config, evs, s.lastKnownIntent)
    requires EntriesInv(ar, config, fs, t.entries) && IntentsInv(ar, config, fs, t.lastKnownIntent)
    requires EqualButBuffer(s, t) && p in s.lastKnownIntent && SameHeading(ar, config, evs, fs, p, Steps(evs))
    ensures AppliedAt(ar, config, evs, p) == AppliedAt(ar, config, fs, p)
  {
    assert PriorIntent(ar, config, evs, p) == PriorIntent(ar, config, fs, p);
  }

  lemma {:induction false} TickAt<F>(ar: Arith<F>, config: ServerConfig, evs: seq<Event<F>>, players: seq<PlayerId>)
    requires config.tickRateHz > 0
    ensures
      var tick := TickOf(ar, config, evs, players);
      |tick| == |players| && forall i :: 0 <= i < |players| ==> tick[i] == AppliedAt(ar, config, evs, players[i])
  {
    if players == [] {
    } else {
      TickAt(ar, config, evs, players[..|players| - 1]);
    }
  }

  /** What a run's state has of the events it came from. */
  lemma TracedState<F>(ar: Arith<F>, config: ServerConfig, evs: seq<Event<F>>)
    requires Legal(ar, config, evs) && DistinctPlayers(config, evs)
    ensures
      var s := After(ar, config, evs);
      && s.world.tick == Steps(evs) && s.registry.entitySpawnOrder == Roster(config, Joins(evs)) && IntentInv(s)
      && EntriesInv(ar, config, evs, s.entries) && IntentsInv(ar, config, evs, s.lastKnownIntent)
  {
    RunKeepsInvariant(ar, config, evs);
    RunTrace(ar, config, evs);
  }

  lemma StepKeepsAlike<F>(ar: Arith<F>, config: ServerConfig, evs: seq<Event<F>>, fs: seq<Event<F>>)
    requires Legal(ar, config, evs) && Legal(ar, config, fs) && DistinctPlayers(config, evs) && DistinctPlayers(config, fs)
    requires EqualButBuffer(After(ar, config, evs), After(ar, config, fs))
    requires forall p :: SameHeading(ar, config, evs, fs, p, Steps(evs))
    ensures EqualButBuffer(StepServer(ar, After(ar, config, evs)), StepServer(ar, After(ar, config, fs)))
  {
    var s, t := After(ar, config, evs), After(ar, config, fs);
    TracedState(ar, config, evs);
    TracedState(ar, config, fs);
    var players := s.registry.entitySpawnOrder;
    forall i | 0 <= i < |players| ensures AppliedAt(ar, config, evs, players[i]) == AppliedAt(ar, config, fs, players[i]) {
      AppliedAlike(ar, config, evs, fs, s, t, players[i]);
    }
    TickAt(ar, config, evs, players);
    TickAt(ar, config, fs, players);
    StepApplies(ar, config, evs, s);
    StepApplies(ar, config, fs, t);
    StepAlike(ar, s, t);
  }

  /** Equal headings make servers that are equal in everything but the buffer. */
  lemma {:induction false} HeadingsSuffice<F>(ar: Arith<F>, config: ServerConfig, evs: seq<Event<F>>, fs: seq<Event<F>>)
    requires Legal(ar, config, evs) && Legal(ar, config, fs) && Skeleton(evs) == Skeleton(fs)
    requires DistinctPlayers(config, evs) && DistinctPlayers(config, fs) && SameHeadings(ar, config, evs, fs)
    ensures EqualButBuffer(After(ar, config, evs), After(ar, config, fs))
    decreases |evs| + |fs|, 1
  {
    SameClock(evs, fs);
    if evs != [] && Last(evs).Receive? {
      DropCommand(ar, config, evs);
      SameForFront(ar, config, evs, fs);
      HeadingsSuffice(ar, config, Front(evs), fs);
    } else if fs != [] && Last(fs).Receive? {
      DropCommand(ar, config, fs);
      SameBackwards(ar, config, evs, fs);
      SameForFront(ar, config, fs, evs);
      SameBackwards(ar, config, Front(fs), evs);
      HeadingsSuffice(ar, config, evs, Front(fs));
    } else if evs == [] {
      if fs != [] { SameLast(fs, evs); }
    } else {
      SameLast(evs, fs);
      BothSuffice(ar, config, evs, fs);
    }
  }

  lemma DropCommand<F>(ar: Arith<F>, config: ServerConfig, evs: seq<Event<F>>)
    requires Legal(ar, config, evs) && DistinctPlayers(config, evs) && evs != [] && Last(evs).Receive?
    ensures Legal(ar, config, Front(evs)) && DistinctPlayers(config, Front(evs)) && Steps(Front(evs)) == Steps(evs)
    ensures EqualButBuffer(After(ar, config, evs), After(ar, config, Front(evs)))
    ensures After(ar, config, evs).recorder == After(ar, config, Front(evs)).recorder
  {
    RunLast(ar, config, evs);
  }

  lemma SameBackwards<F>(ar: Arith<F>, config: ServerConfig, evs: seq<Event<F>>, fs: seq<Event<F>>)
    requires config.tickRateHz > 0 && Steps(evs) == Steps(fs)
    ensures SameHeadings(ar, config, evs, fs) <==> SameHeadings(ar, config, fs, evs)
  {
    forall p, t: nat ensures SameHeading(ar, config, evs, fs, p, t) <==> SameHeading(ar, config, fs, evs, p, t) {
    }
  }

  lemma BothSuffice<F>(ar: Arith<F>, config: ServerConfig, evs: seq<Event<F>>, fs: seq<Event<F>>)
    requires Legal(ar, config, evs) && Legal(ar, config, fs)
    requires DistinctPlayers(config, evs) && DistinctPlayers(config, fs) && SameHeadings(ar, config, evs, fs)
    requires evs != [] && fs != [] && Last(evs) == Last(fs) && !Last(evs).Receive? && Skeleton(Front(evs)) == Skeleton(Front(fs))
    ensures EqualButBuffer(After(ar, config, evs), After(ar, config, fs))
    decreases |evs| + |fs|, 0
  {
    var front, next, e := Front(evs), Front(fs), Last(evs);
    RunLast(ar, config, evs);
    RunLast(ar, config, fs);
    DistinctEarlier(config, evs);
    DistinctEarlier(config, fs);
    SameClock(front, next);
    SameForBoth(ar, config, evs, fs);
    HeadingsSuffice(ar, config, front, next);
    if e.Step? {
      StepKeepsAlike(ar, config, front, next);
    } else {
      EventAgrees(ar, After(ar, config, front), After(ar, config, next), 0, e);
    }
  }

  // Equal recordings come from equal headings.

  lemma LiveEnrolled<F>(config: ServerConfig, evs: seq<Event<F>>, sid: SessionId, n: nat)
    requires Enrollable(config, n) && Joins(evs) <= n && Live(evs, sid)
    ensures sid >= 1 && IdAt(config, sid - 1) in Roster(config, n)
  {
    LiveJoined(evs, sid);
    RosterIds(config, n);
    assert Roster(config, n)[sid - 1] == IdAt(config, sid - 1);
  }

  /** Nothing is offered for a player who has not joined. */
  lemma {:induction false} NothingOffered<F>(ar: Arith<F>, config: ServerConfig, evs: seq<Event<F>>, p: PlayerId, t: nat, n: nat)
    requires Enrollable(config, n) && Joins(evs) <= n && p !in Roster(config, n)
    ensures Offered(ar, config, evs, p, t) == []
  {
    if evs == [] {
    } else {
      var front, e := Front(evs), Last(evs);
      NothingOffered(ar, config, front, p, t, n);
      if e.Receive? && Live(front, e.session) {
        LiveEnrolled(config, front, e.session, n);
      }
    }
  }

  lemma AppliedHeading<F>(ar: Arith<F>, config: ServerConfig, evs: seq<Event<F>>, fs: seq<Event<F>>, p: PlayerId)
    requires config.tickRateHz > 0 && Steps(evs) == Steps(fs) && AppliedAt(ar, config, evs, p) == AppliedAt(ar, config, fs, p)
    ensures SameHeading(ar, config, evs, fs, p, Steps(evs))
  {
  }

  lemma BlockHeadings<F>(ar: Arith<F>, config: ServerConfig, evs: seq<Event<F>>, fs: seq<Event<F>>, roster: seq<PlayerId>)
    requires config.tickRateHz > 0 && Steps(evs) == Steps(fs) && Joins(evs) == Joins(fs)
    requires Enrollable(config, Joins(evs)) && roster == Roster(config, Joins(evs))
    requires TickOf(ar, config, evs, roster) == TickOf(ar, config, fs, roster)
    ensures forall p :: SameHeading(ar, config, evs, fs, p, Steps(evs))
  {
    TickAt(ar, config, evs, roster);
    TickAt(ar, config, fs, roster);
    forall p ensures SameHeading(ar, config, evs, fs, p, Steps(evs)) {
      if p in roster {
        var i :| 0 <= i < |roster| && roster[i] == p;
        AppliedHeading(ar, config, evs, fs, p);
      } else {
        NothingOffered(ar, config, evs, p, Steps(evs), Joins(evs));
        NothingOffered(ar, config, fs, p, Steps(evs), Joins(evs));
      }
    }
  }

  lemma SameParts<T>(xs: seq<T>, x: seq<T>, ys: seq<T>, y: seq<T>)
    requires xs + x == ys + y && |x| == |y|
    ensures xs == ys && x == y
  {
    assert |xs| == |ys|;
    assert xs == (xs + x)[..|xs|] && ys == (ys + y)[..|ys|];
    assert x == (xs + x)[|xs|..] && y == (ys + y)[|ys|..];
  }

  lemma StepPartOf<F>(ar: Arith<F>, config: ServerConfig, evs: seq<Event<F>>, s: ServerState<F>, roster: seq<PlayerId>)
    requires config.tickRateHz > 0 && s.world.tick == Steps(evs) && Distinct(roster) && s.registry.entitySpawnOrder == roster
    requires IntentInv(s) && EntriesInv(ar, config, evs, s.entries) && IntentsInv(ar, config, evs, s.lastKnownIntent)
    ensures StepServer(ar, s).recorder.inputs == s.recorder.inputs + TickOf(ar, config, evs, roster)
    ensures |TickOf(ar, config, evs, roster)| == |roster|
  {
    StepRecords(ar, s);
    StepApplies(ar, config, evs, s);
    TickAt(ar, config, evs, roster);
  }

  /** A step's inputs are the last of the recording. */
  lemma StepPart<F>(ar: Arith<F>, config: ServerConfig, front: seq<Event<F>>, t: ServerState<F>, roster: seq<PlayerId>)
    requires Legal(ar, config, front) && DistinctPlayers(config, front) && t == StepServer(ar, After(ar, config, front))
    requires roster == Roster(config, Joins(front))
    ensures t.recorder.inputs == After(ar, config, front).recorder.inputs + TickOf(ar, config, front, roster)
    ensures |TickOf(ar, config, front, roster)| == |roster|
  {
    TracedState(ar, config, front);
    StepPartOf(ar, config, front, After(ar, config, front), roster);
  }

  lemma ExtendHeadings<F>(ar: Arith<F>, config: ServerConfig, evs: seq<Event<F>>, fs: seq<Event<F>>)
    requires config.tickRateHz > 0 && evs != [] && fs != [] && Last(evs) == Last(fs)
    requires Steps(Front(evs)) == Steps(Front(fs)) && SameHeadings(ar, config, Front(evs), Front(fs))
    requires Last(evs).Step? ==> forall p :: SameHeading(ar, config, Front(evs), Front(fs), p, Steps(Front(evs)))
    ensures SameHeadings(ar, config, evs, fs)
  {
    var front, next := Front(evs), Front(fs);
    FrontOffers(ar, config, evs);
    FrontOffers(ar, config, fs);
    forall p, t: nat | t < Steps(evs) ensures SameHeading(ar, config, evs, fs, p, t) {
      assert SameHeading(ar, config, front, next, p, t);
    }
  }

  lemma {:induction false} HeadingsNeeded<F>(ar: Arith<F>, config: ServerConfig, evs: seq<Event<F>>, fs: seq<Event<F>>)
    requires Legal(ar, config, evs) && Legal(ar, config, fs) && Skeleton(evs) == Skeleton(fs)
    requires DistinctPlayers(config, evs) && DistinctPlayers(config, fs)
    requires After(ar, config, evs).recorder.inputs == After(ar, config, fs).recorder.inputs
    ensures SameHeadings(ar, config, evs, fs)
    decreases |evs| + |fs|, 1
  {
    SameClock(evs, fs);
    if evs != [] && Last(evs).Receive? {
      DropCommand(ar, config, evs);
      HeadingsNeeded(ar, config, Front(evs), fs);
      SameForFront(ar, config, evs, fs);
    } else if fs != [] && Last(fs).Receive? {
      DropCommand(ar, config, fs);
      HeadingsNeeded(ar, config, evs, Front(fs));
      SameBackwards(ar, config, Front(fs), evs);
      SameForFront(ar, config, fs, evs);
      SameBackwards(ar, config, evs, fs);
    } else if evs == [] {
    } else {
      SameLast(evs, fs);
      BothNeeded(ar, config, evs, fs);
    }
  }

  lemma BothNeeded<F>(ar: Arith<F>, config: ServerConfig, evs: seq<Event<F>>, fs: seq<Event<F>>)
    requires Legal(ar, config, evs) && Legal(ar, config, fs)
    requires DistinctPlayers(config, evs) && DistinctPlayers(config, fs)
    requires After(ar, config, evs).recorder.inputs == After(ar, config, fs).recorder.inputs
    requires evs != [] && fs != [] && Last(evs) == Last(fs) && !Last(evs).Receive? && Skeleton(Front(evs)) == Skeleton(Front(fs))
    ensures SameHeadings(ar, config, evs, fs)
    decreases |evs| + |fs|, 0
  {
    var front, next, e := Front(evs), Front(fs), Last(evs);
    RunLast(ar, config, evs);
    RunLast(ar, config, fs);
    DistinctEarlier(config, evs);
    DistinctEarlier(config, fs);
    SameClock(front, next);
    if e.Step? {
      var roster := Roster(config, Joins(front));
      StepPart(ar, config, front, After(ar, config, evs), roster);
      StepPart(ar, config, next, After(ar, config, fs), roster);
      SameParts(After(ar, config, front).recorder.inputs, TickOf(ar, config, front, roster),
        After(ar, config, next).recorder.inputs, TickOf(ar, config, next, roster));
      BlockHeadings(ar, config, front, next, roster);
    } else {
      QuietInputs(ar, After(ar, config, front), e);
      QuietInputs(ar, After(ar, config, next), e);
    }
    HeadingsNeeded(ar, config, front, next);
    ExtendHeadings(ar, config, evs, fs);
  }

  /** One skeleton, one roster. */
  lemma SameDistinct<F>(config: ServerConfig, evs: seq<Event<F>>, fs: seq<Event<F>>)
    requires Skeleton(evs) == Skeleton(fs) && DistinctPlayers(config, evs)
    ensures DistinctPlayers(config, fs)
  {
    SameClock(evs, fs);
  }

  /**
   What deliveries can change, exactly. Let two runs be equal but for their commands. If
   one is legal, so is the other. They record the same inputs if and only if, for every
   player and stepped tick, the commands that won point the same way; and then their
   servers are equal in everything but the buffer.
   */
  lemma DeliveriesExact<F>(ar: Arith<F>, config: ServerConfig, evs: seq<Event<F>>, fs: seq<Event<F>>)
    requires Legal(ar, config, evs) && DistinctPlayers(config, evs) && Skeleton(evs) == Skeleton(fs)
    ensures Legal(ar, config, fs)
    ensures After(ar, config, evs).recorder.inputs == After(ar, config, fs).recorder.inputs <==> SameHeadings(ar, config, evs, fs)
    ensures SameHeadings(ar, config, evs, fs) ==> EqualButBuffer(After(ar, config, evs), After(ar, config, fs))
  {
    LegalTogether(ar, config, evs, fs);
    SameDistinct(config, evs, fs);
    if SameHeadings(ar, config, evs, fs) {
      HeadingsSuffice(ar, config, evs, fs);
    }
    if After(ar, config, evs).recorder.inputs == After(ar, config, fs).recorder.inputs {
      HeadingsNeeded(ar, config, evs, fs);
    }
  }
}
