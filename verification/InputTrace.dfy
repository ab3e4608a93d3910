/**
 The recorded inputs as a function of the event history.

 `AppliedAt` says what a player does on a tick by looking at the run's events only: which
 commands were offered for the tick, which of them has the unique greatest sequence
 number, and otherwise what the player last did. `TraceRefinement` proves that this is
 what the server, with its buffer and intent tables, records.
 */
module InputTrace {
  import opened Wrappers
  import opened Sequences
  import opened Float64
  import opened Simulation
  import opened InputBuffering
  import opened ArrivalOrder
  import opened Validation
  import opened Replay
  import opened ServerModel
  import opened ServerRuns
  import opened RecordThenVerify

  /** The player of the n-th join. */
  function IdAt(config: ServerConfig, n: nat): PlayerId {
    if Enrollable(config, n + 1) then AssignedId(config, n) else 0
  }

  predicate Plays(config: ServerConfig, sid: SessionId, p: PlayerId) {
    sid >= 1 && IdAt(config, sid - 1) == p
  }

  /** The floor a session's commands are held to. */
  function FloorAt<F>(config: ServerConfig, evs: seq<Event<F>>, sid: SessionId): nat {
    if HasFloor(evs, sid) then Steps(evs) + config.inputLeadTicks else 0
  }

  /** The event is a command of player p for tick t that passes every check but the rate limit. */
  predicate Offers<F>(ar: Arith<F>, config: ServerConfig, evs: seq<Event<F>>, e: Event<F>, p: PlayerId, t: nat) {
    && e.Receive? && Live(evs, e.session) && Plays(config, e.session, p) && e.cmd.tick == t
    && Admissible(ar, e.cmd, Steps(evs), FloorAt(config, evs, e.session), config.maxFutureTicks)
  }

  /** All such commands of a run, in order of arrival. */
  function Offered<F>(ar: Arith<F>, config: ServerConfig, evs: seq<Event<F>>, p: PlayerId, t: nat): seq<InputCmd<F>> {
    if evs == [] then []
    else
      var before := Offered(ar, config, Front(evs), p, t);
      if Offers(ar, config, Front(evs), Last(evs), p, t) then before + [Last(evs).cmd] else before
  }

  /** The command that wins tick t by what was offered so far, if any. */
  function WinnerAt<F>(ar: Arith<F>, config: ServerConfig, evs: seq<Event<F>>, p: PlayerId, t: nat): Option<InputCmd<F>>
    requires config.tickRateHz > 0
  {
    Winner(ar, Admitted(config.Limit(), Offered(ar, config, evs, p, t)))
  }

  /** What the player does if the next event is a step. */
  function AppliedAt<F>(ar: Arith<F>, config: ServerConfig, evs: seq<Event<F>>, p: PlayerId): AppliedInput<F>
    requires config.tickRateHz > 0
    decreases |evs|, 1
  {
    var w := WinnerAt(ar, config, evs, p, Steps(evs));
    if w.Some? then AppliedInput(Steps(evs), p, Direction(ar, w.value), false)
    else AppliedInput(Steps(evs), p, PriorIntent(ar, config, evs, p), true)
  }

  /** What the player did on its last tick; nothing at the start and after a disconnect. */
  function PriorIntent<F>(ar: Arith<F>, config: ServerConfig, evs: seq<Event<F>>, p: PlayerId): Vec2<F>
    requires config.tickRateHz > 0
    decreases |evs|, 0
  {
    if evs == [] then ar.Origin()
    else
      var front := Front(evs);
      match Last(evs)
      case Accept => if IdAt(config, Joins(front)) == p then ar.Origin() else PriorIntent(ar, config, front, p)
      case Disconnect(sid) =>
        if Live(front, sid) && Plays(config, sid, p) then ar.Origin() else PriorIntent(ar, config, front, p)
      case Step => AppliedAt(ar, config, front, p).moveDir
      case _ => PriorIntent(ar, config, front, p)
  }

  /** One tick of the recording. */
  function TickOf<F>(ar: Arith<F>, config: ServerConfig, evs: seq<Event<F>>, players: seq<PlayerId>): seq<AppliedInput<F>>
    requires config.tickRateHz > 0
  {
    if players == [] then []
    else TickOf(ar, config, evs, players[..|players| - 1]) + [AppliedAt(ar, config, evs, players[|players| - 1])]
  }

  /** The whole recording: at every step, one input for each player that has joined. */
  function Recorded<F>(ar: Arith<F>, config: ServerConfig, evs: seq<Event<F>>): seq<AppliedInput<F>>
    requires Enrollable(config, Joins(evs)) && config.tickRateHz > 0
  {
    if evs == [] then []
    else
      var front := Front(evs);
      if Last(evs).Step? then Recorded(ar, config, front) + TickOf(ar, config, front, Roster(config, Joins(front)))
      else Recorded(ar, config, front)
  }

  // The buffer and the intent table follow the history.

  ghost predicate EntriesInv<F>(ar: Arith<F>, config: ServerConfig, evs: seq<Event<F>>, entries: Entries<F>)
    requires config.tickRateHz > 0
  {
    forall p: PlayerId, t :: t >= Steps(evs) ==>
      Lookup(entries, (p, t)) == EntryAfter(ar, config.Limit(), Offered(ar, config, evs, p, t))
  }

  ghost predicate IntentsInv<F>(ar: Arith<F>, config: ServerConfig, evs: seq<Event<F>>, intents: map<PlayerId, Vec2<F>>)
    requires config.tickRateHz > 0
  {
    forall p :: p in intents ==> intents[p] == PriorIntent(ar, config, evs, p)
  }

  /** Distinct players are served independently of each other within a tick. */
  lemma {:induction false} CollectDistinct<F>(
    ar: Arith<F>, entries: Entries<F>, intents: map<PlayerId, Vec2<F>>, tick: nat, players: seq<PlayerId>)
    requires Distinct(players)
    ensures
      var c := Collect(ar, entries, intents, tick, players);
      && |c.applied| == |players|
      && (forall i :: 0 <= i < |players| ==> c.applied[i] == AppliedFor(ar, entries, intents, tick, players[i]))
      && (forall p :: p in players ==> p in c.intents && c.intents[p] == AppliedFor(ar, entries, intents, tick, p).moveDir)
      && (forall p :: p !in players && p in c.intents ==> p in intents && c.intents[p] == intents[p])
  {
    if players == [] {
    } else {
      var n := |players| - 1;
      var front, p := players[..n], players[n];
      assert players == front + [p];
      DistinctFront(front, p);
      CollectDistinct(ar, entries, intents, tick, front);
      CollectKeeps(ar, entries, intents, tick, front);
      CollectYields(ar, entries, intents, tick, front);
      var before := Collect(ar, entries, intents, tick, front);
      assert Lookup(before.entries, (p, tick)) == Lookup(entries, (p, tick));
      assert IntentOf(ar, before.intents, p) == IntentOf(ar, intents, p);
    }
  }

  /** What the server applies is what the history says. */
  lemma AppliedMeetsSpec<F>(ar: Arith<F>, config: ServerConfig, evs: seq<Event<F>>, s: ServerState<F>, p: PlayerId)
    requires config.tickRateHz > 0 && s.world.tick == Steps(evs)
    requires EntriesInv(ar, config, evs, s.entries) && IntentsInv(ar, config, evs, s.lastKnownIntent)
    requires p in s.lastKnownIntent
    ensures AppliedFor(ar, s.entries, s.lastKnownIntent, s.world.tick, p) == AppliedAt(ar, config, evs, p)
  {
    SelectionMeetsSpec(ar, config.Limit(), Offered(ar, config, evs, p, Steps(evs)));
  }

  lemma {:induction false} TickMeetsSpec<F>(
    ar: Arith<F>, config: ServerConfig, evs: seq<Event<F>>, players: seq<PlayerId>, block: seq<AppliedInput<F>>)
    requires config.tickRateHz > 0 && |block| == |players|
    requires forall i :: 0 <= i < |players| ==> block[i] == AppliedAt(ar, config, evs, players[i])
    ensures block == TickOf(ar, config, evs, players)
  {
    if players == [] {
    } else {
      var n := |players| - 1;
      TickMeetsSpec(ar, config, evs, players[..n], block[..n]);
      assert block == block[..n] + [block[n]];
    }
  }

  lemma StepApplies<F>(ar: Arith<F>, config: ServerConfig, evs: seq<Event<F>>, s: ServerState<F>)
    requires config.tickRateHz > 0 && s.world.tick == Steps(evs) && Distinct(s.registry.entitySpawnOrder) && IntentInv(s)
    requires EntriesInv(ar, config, evs, s.entries) && IntentsInv(ar, config, evs, s.lastKnownIntent)
    ensures StepApplied(ar, s) == TickOf(ar, config, evs, s.registry.entitySpawnOrder)
  {
    var players := s.registry.entitySpawnOrder;
    CollectDistinct(ar, s.entries, s.lastKnownIntent, s.world.tick, players);
    forall i | 0 <= i < |players| ensures StepApplied(ar, s)[i] == AppliedAt(ar, config, evs, players[i]) {
      AppliedMeetsSpec(ar, config, evs, s, players[i]);
    }
    TickMeetsSpec(ar, config, evs, players, StepApplied(ar, s));
  }

  // Preservation, event by event.

  lemma RosterIds(config: ServerConfig, n: nat)
    requires Enrollable(config, n)
    ensures forall i :: 0 <= i < n ==> Roster(config, n)[i] == IdAt(config, i)
  {
  }

  /** What the server lets through to the buffer is what the history calls an offer. */
  lemma HeardIsOffer<F>(ar: Arith<F>, config: ServerConfig, evs: seq<Event<F>>, s: ServerState<F>, sid: SessionId, cmd: InputCmd<F>)
    requires s.config == config && s.world.tick == Steps(evs) && SessionInv(config, evs, s.registry) && FloorInv(config, evs, s)
    ensures Heard(ar, s, sid, cmd) ==> Offers(ar, config, evs, Receive(sid, cmd), s.registry.sessionPlayers[sid], cmd.tick)
    ensures forall p: PlayerId, t :: Offers(ar, config, evs, Receive(sid, cmd), p, t) ==>
      Heard(ar, s, sid, cmd) && p == s.registry.sessionPlayers[sid] && t == cmd.tick
  {
    RosterIds(config, Joins(evs));
    assert FloorOf(s, sid) == FloorAt(config, evs, sid);
    assert sid in s.registry.sessionPlayers <==> Live(evs, sid);
  }

  /** One offer extends one key's arrivals. */
  lemma OfferEntries<F>(
    ar: Arith<F>, config: ServerConfig, evs: seq<Event<F>>, e: Event<F>, entries: Entries<F>, p: PlayerId, t: nat)
    requires config.tickRateHz > 0 && EntriesInv(ar, config, evs, entries)
    requires t >= Steps(evs) && Offers(ar, config, evs, e, p, t)
    requires forall q: PlayerId, u :: Offers(ar, config, evs, e, q, u) ==> q == p && u == t
    ensures EntriesInv(ar, config, evs + [e], entries[(p, t) := Admit(ar, config.Limit(), Lookup(entries, (p, t)), e.cmd).0.value])
  {
    LastOf(evs, e);
    AdmitMeetsSpec(ar, config.Limit(), Offered(ar, config, evs, p, t), e.cmd);
    var limit, admitted := config.Limit(), Admit(ar, config.Limit(), Lookup(entries, (p, t)), e.cmd).0;
    forall q: PlayerId, u | u >= Steps(evs)
      ensures Lookup(entries[(p, t) := admitted.value], (q, u)) == EntryAfter(ar, limit, Offered(ar, config, evs + [e], q, u))
    {
      if (q, u) != (p, t) {
        assert Offered(ar, config, evs + [e], q, u) == Offered(ar, config, evs, q, u);
      }
    }
  }

  lemma ReceiveEntries<F>(ar: Arith<F>, config: ServerConfig, evs: seq<Event<F>>, s: ServerState<F>, sid: SessionId, cmd: InputCmd<F>)
    requires config.tickRateHz > 0 && s.config == config && RunInvariant(ar, config, evs, s)
    requires EntriesInv(ar, config, evs, s.entries)
    ensures EntriesInv(ar, config, evs + [Receive(sid, cmd)], ReceiveFrom(ar, s, sid, cmd).entries)
  {
    var e := Receive(sid, cmd);
    LastOf(evs, e);
    HeardIsOffer(ar, config, evs, s, sid, cmd);
    ReceiveOutcome(ar, s, sid, cmd);
    if Heard(ar, s, sid, cmd) {
      OfferEntries(ar, config, evs, e, s.entries, s.registry.sessionPlayers[sid], cmd.tick);
    }
  }

  lemma StepEntries<F>(ar: Arith<F>, config: ServerConfig, evs: seq<Event<F>>, s: ServerState<F>)
    requires config.tickRateHz > 0 && s.config == config && s.world.tick == Steps(evs)
    requires EntriesInv(ar, config, evs, s.entries)
    ensures EntriesInv(ar, config, evs + [Event.Step], StepServer(ar, s).entries)
  {
    LastOf(evs, Event.Step);
    var c := Collect(ar, s.entries, s.lastKnownIntent, s.world.tick, s.registry.entitySpawnOrder);
    StepOutcome(ar, s, c);
    CollectKeeps(ar, s.entries, s.lastKnownIntent, s.world.tick, s.registry.entitySpawnOrder);
    forall p: PlayerId, t | t >= Steps(evs) + 1
      ensures Lookup(StepServer(ar, s).entries, (p, t)) == Lookup(s.entries, (p, t))
    {
    }
  }

  lemma QuietEntries<F>(ar: Arith<F>, config: ServerConfig, evs: seq<Event<F>>, s: ServerState<F>, e: Event<F>)
    requires config.tickRateHz > 0 && s.config == config && Enabled(s, e) && !e.Receive? && !e.Step?
    requires EntriesInv(ar, config, evs, s.entries)
    ensures EntriesInv(ar, config, evs + [e], Apply(ar, s, e).entries)
  {
    LastOf(evs, e);
    assert Apply(ar, s, e).entries == s.entries;
  }

  lemma CollectedIntents<F>(ar: Arith<F>, config: ServerConfig, evs: seq<Event<F>>, s: ServerState<F>, c: Collected<F>)
    requires config.tickRateHz > 0 && s.world.tick == Steps(evs)
    requires Distinct(s.registry.entitySpawnOrder) && IntentInv(s)
    requires EntriesInv(ar, config, evs, s.entries) && IntentsInv(ar, config, evs, s.lastKnownIntent)
    requires c == Collect(ar, s.entries, s.lastKnownIntent, s.world.tick, s.registry.entitySpawnOrder)
    ensures forall p :: p in c.intents ==> c.intents[p] == AppliedAt(ar, config, evs, p).moveDir
  {
    CollectDistinct(ar, s.entries, s.lastKnownIntent, s.world.tick, s.registry.entitySpawnOrder);
    forall p | p in c.intents ensures c.intents[p] == AppliedAt(ar, config, evs, p).moveDir {
      AppliedMeetsSpec(ar, config, evs, s, p);
    }
  }

  lemma StepIntents<F>(ar: Arith<F>, config: ServerConfig, evs: seq<Event<F>>, s: ServerState<F>)
    requires config.tickRateHz > 0 && s.config == config && s.world.tick == Steps(evs)
    requires Distinct(s.registry.entitySpawnOrder) && IntentInv(s)
    requires EntriesInv(ar, config, evs, s.entries) && IntentsInv(ar, config, evs, s.lastKnownIntent)
    ensures IntentsInv(ar, config, evs + [Event.Step], StepServer(ar, s).lastKnownIntent)
  {
    LastOf(evs, Event.Step);
    var c := Collect(ar, s.entries, s.lastKnownIntent, s.world.tick, s.registry.entitySpawnOrder);
    StepOutcome(ar, s, c);
    CollectedIntents(ar, config, evs, s, c);
    assert forall p :: PriorIntent(ar, config, evs + [Event.Step], p) == AppliedAt(ar, config, evs, p).moveDir;
  }

  lemma QuietIntents<F>(ar: Arith<F>, config: ServerConfig, evs: seq<Event<F>>, s: ServerState<F>, e: Event<F>)
    requires config.tickRateHz > 0 && s.config == config && Enabled(s, e) && !e.Step?
    requires RosterInv(config, evs, s) && SessionInv(config, evs, s.registry)
    requires IntentsInv(ar, config, evs, s.lastKnownIntent)
    ensures IntentsInv(ar, config, evs + [e], Apply(ar, s, e).lastKnownIntent)
  {
    LastOf(evs, e);
    RosterIds(config, Joins(evs));
  }

  ghost predicate TraceInv<F>(ar: Arith<F>, config: ServerConfig, evs: seq<Event<F>>, s: ServerState<F>)
    requires config.tickRateHz > 0
  {
    && EntriesInv(ar, config, evs, s.entries)
    && IntentsInv(ar, config, evs, s.lastKnownIntent)
    && Enrollable(config, Joins(evs)) && s.recorder.inputs == Recorded(ar, config, evs)
  }

  lemma EventTrace<F>(ar: Arith<F>, config: ServerConfig, evs: seq<Event<F>>, s: ServerState<F>, e: Event<F>)
    requires config.tickRateHz > 0 && s.config == config && Enabled(s, e) && RunInvariant(ar, config, evs, s)
    requires Distinct(s.registry.entitySpawnOrder) && TraceInv(ar, config, evs, s)
    requires Enrollable(config, Joins(evs + [e]))
    ensures TraceInv(ar, config, evs + [e], Apply(ar, s, e))
  {
    LastOf(evs, e);
    match e {
      case Step =>
        StepEntries(ar, config, evs, s);
        StepIntents(ar, config, evs, s);
        StepApplies(ar, config, evs, s);
        StepRecords(ar, s);
      case Receive(sid, cmd) =>
        ReceiveEntries(ar, config, evs, s, sid, cmd);
        QuietIntents(ar, config, evs, s, e);
        QuietInputs(ar, s, e);
      case _ =>
        QuietEntries(ar, config, evs, s, e);
        QuietIntents(ar, config, evs, s, e);
        QuietInputs(ar, s, e);
    }
  }

  /** Ids that are distinct at the end of a run were distinct all along. */
  lemma DistinctEarlier<F>(config: ServerConfig, evs: seq<Event<F>>)
    requires evs != [] && DistinctPlayers(config, evs)
    ensures DistinctPlayers(config, Front(evs))
  {
    RosterPrefix(config, Joins(Front(evs)), Joins(evs));
  }

  lemma {:induction false} RunTrace<F>(ar: Arith<F>, config: ServerConfig, evs: seq<Event<F>>)
    requires Legal(ar, config, evs) && DistinctPlayers(config, evs)
    ensures TraceInv(ar, config, evs, After(ar, config, evs))
  {
    if evs == [] {
    } else {
      var before := Front(evs);
      RunLast(ar, config, evs);
      DistinctEarlier(config, evs);
      RunTrace(ar, config, before);
      RunKeepsInvariant(ar, config, before);
      EventTrace(ar, config, before, After(ar, config, before), Last(evs));
    }
  }

  /**
   The recording refines the event history: what is recorded for a player and a tick is
   the clamped command with the unique greatest sequence number among the first
   max(1, limit) offered for that key, and otherwise the player's previous intent.
   */
  lemma TraceRefinement<F>(ar: Arith<F>, config: ServerConfig, evs: seq<Event<F>>)
    requires Legal(ar, config, evs) && DistinctPlayers(config, evs)
    ensures Enrollable(config, Joins(evs))
    ensures After(ar, config, evs).recorder.inputs == Recorded(ar, config, evs)
  {
    RunTrace(ar, config, evs);
  }

  /** Offered commands have passed the checks. */
  lemma {:induction false} OfferedUsable<F>(ar: Arith<F>, config: ServerConfig, evs: seq<Event<F>>, p: PlayerId, t: nat)
    ensures AllUsable(ar, Offered(ar, config, evs, p, t))
  {
    if evs == [] {
    } else {
      OfferedUsable(ar, config, Front(evs), p, t);
    }
  }

  ghost predicate NoUniqueBest<F>(cs: seq<InputCmd<F>>) {
    forall i :: 0 <= i < |cs| ==> !UniqueBest(cs, i)
  }

  ghost predicate UniqueBest<F>(cs: seq<InputCmd<F>>, i: nat)
    requires i < |cs|
  {
    forall j :: 0 <= j < |cs| && j != i ==> cs[j].inputSeq < cs[i].inputSeq
  }

  lemma BestUnique<F>(cs: seq<InputCmd<F>>)
    requires cs != []
    ensures UniqueBest(cs, Best(cs)) <==> !Tied(cs)
    ensures forall i :: 0 <= i < |cs| && UniqueBest(cs, i) ==> i == Best(cs)
  {
    forall i | 0 <= i < |cs| && UniqueBest(cs, i) ensures i == Best(cs) {
      LoneIndex(cs, i);
    }
  }

  lemma UniqueBestWins<F>(ar: Arith<F>, cs: seq<InputCmd<F>>, i: nat)
    requires i < |cs| && UniqueBest(cs, i)
    ensures Winner(ar, cs) == Some(cs[i].(moveDir := ClampTimes(ar, |cs| - i, cs[i].moveDir)))
    ensures ClampStable(ar, cs[i].moveDir) ==> Winner(ar, cs) == Some(Arrived(ar, cs[i]))
  {
    LoneBest(ar, cs, i);
    if ClampStable(ar, cs[i].moveDir) {
      ClampOnce(ar, |cs| - i, cs[i].moveDir);
    }
  }

  lemma NoBestWins<F>(ar: Arith<F>, cs: seq<InputCmd<F>>)
    requires NoUniqueBest(cs)
    ensures Winner(ar, cs).None?
  {
    if cs != [] {
      BestUnique(cs);
    }
  }

  /** The player applies this command next. */
  ghost predicate Applies<F>(ar: Arith<F>, config: ServerConfig, evs: seq<Event<F>>, p: PlayerId, cmd: InputCmd<F>)
    requires config.tickRateHz > 0
  {
    AppliedAt(ar, config, evs, p) == AppliedInput(Steps(evs), p, Direction(ar, cmd), false)
  }

  /** The player goes on as before. */
  ghost predicate FallsBack<F>(ar: Arith<F>, config: ServerConfig, evs: seq<Event<F>>, p: PlayerId)
    requires config.tickRateHz > 0
  {
    AppliedAt(ar, config, evs, p) == AppliedInput(Steps(evs), p, PriorIntent(ar, config, evs, p), true)
  }

  lemma AppliedWinner<F>(ar: Arith<F>, config: ServerConfig, evs: seq<Event<F>>, p: PlayerId, w: Option<InputCmd<F>>)
    requires config.tickRateHz > 0 && w == WinnerAt(ar, config, evs, p, Steps(evs))
    ensures if w.Some? then Applies(ar, config, evs, p, w.value) else FallsBack(ar, config, evs, p)
  {
  }

  /**
   The refinement names the command outright. The unique best one is applied, clamped once
   for its own arrival and once for each later one; if clamping it twice changes nothing,
   that is clamping it once. Without a unique best one the prior intent is applied.
   */
  lemma AppliedIsUniqueBest<F>(ar: Arith<F>, config: ServerConfig, evs: seq<Event<F>>, p: PlayerId)
    requires config.tickRateHz > 0
    ensures
      var cs := Admitted(config.Limit(), Offered(ar, config, evs, p, Steps(evs)));
      && (forall i :: 0 <= i < |cs| && UniqueBest(cs, i) ==>
            Applies(ar, config, evs, p, cs[i].(moveDir := ClampTimes(ar, |cs| - i, cs[i].moveDir))))
      && (forall i :: 0 <= i < |cs| && UniqueBest(cs, i) && ClampStable(ar, cs[i].moveDir) ==>
            Applies(ar, config, evs, p, Arrived(ar, cs[i])))
      && (NoUniqueBest(cs) ==> FallsBack(ar, config, evs, p))
  {
    var cs := Admitted(config.Limit(), Offered(ar, config, evs, p, Steps(evs)));
    AppliedWinner(ar, config, evs, p, Winner(ar, cs));
    forall i | 0 <= i < |cs| && UniqueBest(cs, i)
      ensures Applies(ar, config, evs, p, cs[i].(moveDir := ClampTimes(ar, |cs| - i, cs[i].moveDir)))
      ensures ClampStable(ar, cs[i].moveDir) ==> Applies(ar, config, evs, p, Arrived(ar, cs[i]))
    {
      UniqueBestWins(ar, cs, i);
    }
    if NoUniqueBest(cs) {
      NoBestWins(ar, cs);
    }
  }

  /** A lone command is applied component by component, divided by its length if that is more than one. */
  lemma LoneCommandApplied<F>(ar: Arith<F>, config: ServerConfig, evs: seq<Event<F>>, p: PlayerId, cmd: InputCmd<F>)
    requires config.tickRateHz > 0 && Offered(ar, config, evs, p, Steps(evs)) == [cmd] && |cmd.moveDir| == 2
    ensures
      var x, y := cmd.moveDir[0], cmd.moveDir[1];
      var length := ar.sqrt(ar.add(ar.mul(x, x), ar.mul(y, y)));
      AppliedAt(ar, config, evs, p) ==
        AppliedInput(Steps(evs), p, if Long(ar, [x, y]) then Vec2(ar.div(x, length), ar.div(y, length)) else Vec2(x, y), false)
  {
    var cs := [cmd];
    assert Admitted(config.Limit(), cs) == cs && cmd.moveDir == [cmd.moveDir[0], cmd.moveDir[1]];
    UniqueBestWins(ar, cs, 0);
    assert ClampTimes(ar, 1, cmd.moveDir) == Clamp(ar, ClampTimes(ar, 0, cmd.moveDir)) == Clamp(ar, cmd.moveDir);
    AppliedWinner(ar, config, evs, p, Winner(ar, cs));
    ClampShortens(ar, cmd.moveDir);
  }

  // The rate limit over a whole run.

  lemma {:induction false} RunEntries<F>(ar: Arith<F>, config: ServerConfig, evs: seq<Event<F>>)
    requires Legal(ar, config, evs)
    ensures EntriesInv(ar, config, evs, After(ar, config, evs).entries)
  {
    if evs == [] {
    } else {
      var before, e := Front(evs), Last(evs);
      RunLast(ar, config, evs);
      RunEntries(ar, config, before);
      RunKeepsInvariant(ar, config, before);
      match e {
        case Step => StepEntries(ar, config, before, After(ar, config, before));
        case Receive(sid, cmd) => ReceiveEntries(ar, config, before, After(ar, config, before), sid, cmd);
        case _ => QuietEntries(ar, config, before, After(ar, config, before), e);
      }
    }
  }

  /** The server accepts the event as a command of player p for tick t. */
  predicate Accepts<F>(ar: Arith<F>, s: ServerState<F>, e: Event<F>, p: PlayerId, t: nat)
    requires s.config.tickRateHz > 0
  {
    && e.Receive? && e.cmd.tick == t && e.session in s.registry.sessionPlayers && s.registry.sessionPlayers[e.session] == p
    && Judge(ar, s, e.session, e.cmd).1.IsAccepted()
  }

  /** How many commands for (p, t) the server has accepted during a run. */
  ghost function AcceptedCount<F>(ar: Arith<F>, config: ServerConfig, evs: seq<Event<F>>, p: PlayerId, t: nat): nat
    requires Legal(ar, config, evs)
  {
    if evs == [] then 0
    else
      RunLast(ar, config, evs);
      AcceptedCount(ar, config, Front(evs), p, t)
      + if Accepts(ar, After(ar, config, Front(evs)), Last(evs), p, t) then 1 else 0
  }

  lemma OfferJudged<F>(ar: Arith<F>, config: ServerConfig, evs: seq<Event<F>>, s: ServerState<F>, e: Event<F>, p: PlayerId, t: nat)
    requires config.tickRateHz > 0 && s.config == config && RunInvariant(ar, config, evs, s) && EntriesInv(ar, config, evs, s.entries)
    ensures Accepts(ar, s, e, p, t) <==>
      Offers(ar, config, evs, e, p, t) && |Offered(ar, config, evs, p, t)| < Max(1, config.Limit())
  {
    if e.Receive? {
      HeardIsOffer(ar, config, evs, s, e.session, e.cmd);
      ReceiveOutcome(ar, s, e.session, e.cmd);
      if Heard(ar, s, e.session, e.cmd) {
        AdmitMeetsSpec(ar, config.Limit(), Offered(ar, config, evs, s.registry.sessionPlayers[e.session], e.cmd.tick), e.cmd);
      }
    }
  }

  /**
   Taking and evicting entries never reopens a key: over a whole run the server accepts,
   for one player and tick, exactly the first max(1, limit) commands offered.
   */
  lemma {:induction false} WholeRunRateLimit<F>(ar: Arith<F>, config: ServerConfig, evs: seq<Event<F>>, p: PlayerId, t: nat)
    requires Legal(ar, config, evs)
    ensures AcceptedCount(ar, config, evs, p, t) == |Admitted(config.Limit(), Offered(ar, config, evs, p, t))|
    ensures AcceptedCount(ar, config, evs, p, t) <= Max(1, DivCeil(config.inputRateLimitPerSec, config.tickRateHz))
  {
    if evs == [] {
    } else {
      var before := Front(evs);
      RunLast(ar, config, evs);
      WholeRunRateLimit(ar, config, before, p, t);
      RunKeepsInvariant(ar, config, before);
      RunEntries(ar, config, before);
      OfferJudged(ar, config, before, After(ar, config, before), Last(evs), p, t);
    }
  }

  /**
   The configured limit itself, rather than max(1, limit), is kept for a player and tick
   exactly when the limit is positive or nothing was offered: a first arrival is never
   held against the limit.
   */
  lemma RateLimitKept<F>(ar: Arith<F>, config: ServerConfig, evs: seq<Event<F>>, p: PlayerId, t: nat)
    requires Legal(ar, config, evs)
    ensures AcceptedCount(ar, config, evs, p, t) <= config.Limit() <==> config.Limit() > 0 || Offered(ar, config, evs, p, t) == []
  {
    WholeRunRateLimit(ar, config, evs, p, t);
  }

  // A run that accepts a command although the configured rate is zero.

  const RATE_ZERO: ServerConfig := ServerConfig(0, 60, 120, 1, 0, 60, 2, false, None)

  function Still<F>(ar: Arith<F>): InputCmd<F> { InputCmd(1, 1, [ar.Zero(), ar.Zero()]) }

  function OneCommand<F>(ar: Arith<F>): seq<Event<F>> { [Accept, Welcome(1), Receive(1, Still(ar))] }

  lemma OneCommandLegal<F>(ar: Arith<F>)
    requires ar.IsFinite(ar.Zero())
    ensures Legal(ar, RATE_ZERO, OneCommand(ar)) && |Offered(ar, RATE_ZERO, OneCommand(ar), 0, 1)| == 1
  {
    var e1, e2 := [Event<F>.Accept], [Event<F>.Accept, Event.Welcome(1)];
    assert Front(e1) == [] && Front(e2) == e1 && Front(OneCommand(ar)) == e2;
    assert Run(ar, RATE_ZERO, []) == Some(NewServer(ar, RATE_ZERO));
    assert CanAccept(NewServer(ar, RATE_ZERO));
    assert Run(ar, RATE_ZERO, e2).Some?;
    assert Steps(e1) == 0 && Steps(e2) == 0 && Live(e1, 1) && Live(e2, 1) && HasFloor(e2, 1);
    assert IdAt(RATE_ZERO, 0) == 0;
    assert Offers(ar, RATE_ZERO, e2, Receive(1, Still(ar)), 0, 1);
    assert Offered(ar, RATE_ZERO, e1, 0, 1) == [] && Offered(ar, RATE_ZERO, e2, 0, 1) == [];
  }

  /** With a rate of zero the first command for a tick is accepted all the same. */
  lemma RateZeroAccepts<F>(ar: Arith<F>)
    requires ar.IsFinite(ar.Zero())
    ensures Legal(ar, RATE_ZERO, OneCommand(ar)) && RATE_ZERO.Limit() == 0
    ensures AcceptedCount(ar, RATE_ZERO, OneCommand(ar), 0, 1) == 1
  {
    OneCommandLegal(ar);
    WholeRunRateLimit(ar, RATE_ZERO, OneCommand(ar), 0, 1);
  }
}
