/**
 What every reachable server state looks like, in terms of the events that led to it.

 The functions of this module read a run's event list only. `RunInvariant` says how the
 server's tables, clock, buffer and recorder follow from it; it holds after every run.
 */
module ServerRuns {
  import opened Wrappers
  import opened Words
  import opened Sequences
  import opened Float64
  import opened Simulation
  import opened InputBuffering
  import opened Replay
  import opened Verdicts
  import opened ServerModel

  // Reading an event list.

  function Steps<F>(evs: seq<Event<F>>): nat {
    if evs == [] then 0 else Steps(Front(evs)) + if Last(evs).Step? then 1 else 0
  }

  function Joins<F>(evs: seq<Event<F>>): nat {
    if evs == [] then 0 else Joins(Front(evs)) + if Last(evs).Accept? then 1 else 0
  }

  /** Those who joined before the first step. */
  function Starters<F>(evs: seq<Event<F>>): (n: nat)
    ensures n <= Joins(evs)
    ensures Steps(evs) == 0 ==> n == Joins(evs)
  {
    if evs == [] then 0
    else Starters(Front(evs)) + if Last(evs).Accept? && Steps(Front(evs)) == 0 then 1 else 0
  }

  function LastFingerprint<F>(evs: seq<Event<F>>): Option<BuildFingerprint> {
    if evs == [] then None
    else if Last(evs).SetFingerprint? then Some(Last(evs).fingerprint)
    else LastFingerprint(Front(evs))
  }

  /** Session `sid` was accepted and has not disconnected since. */
  predicate Live<F>(evs: seq<Event<F>>, sid: SessionId) {
    evs != [] &&
    match Last(evs)
    case Accept => sid == Joins(Front(evs)) + 1 || Live(Front(evs), sid)
    case Disconnect(other) => sid != other && Live(Front(evs), sid)
    case _ => Live(Front(evs), sid)
  }

  /** Session `sid` was told a floor: it was welcomed, or lived through a step. */
  predicate HasFloor<F>(evs: seq<Event<F>>, sid: SessionId) {
    evs != [] &&
    match Last(evs)
    case Welcome(other) => sid == other || HasFloor(Front(evs), sid)
    case Disconnect(other) => sid != other && HasFloor(Front(evs), sid)
    case Step => Live(Front(evs), sid) || HasFloor(Front(evs), sid)
    case _ => HasFloor(Front(evs), sid)
  }

  predicate Enrollable(config: ServerConfig, n: nat) {
    n <= 255 && (config.testPlayerIds.Some? ==> n <= |config.testPlayerIds.value|)
  }

  /** The player ids of the first n sessions: session i + 1 plays Roster[i] with entity i + 1. */
  function Roster(config: ServerConfig, n: nat): (r: seq<PlayerId>)
    requires Enrollable(config, n)
    ensures |r| == n
    ensures forall i :: 0 <= i < n ==> r[i] == AssignedId(config, i)
  {
    if n == 0 then [] else Roster(config, n - 1) + [AssignedId(config, n - 1)]
  }

  /** Without configured test ids nobody shares an id. */
  lemma DefaultIdsDistinct(config: ServerConfig, n: nat)
    requires Enrollable(config, n) && (config.testPlayerIds.None? || Distinct(config.testPlayerIds.value))
    ensures Distinct(Roster(config, n))
  {
  }

  // The invariant, part by part.

  /** The registry has counted these players, one session each. */
  ghost predicate Counted(roster: seq<PlayerId>, r: Registry) {
    r.nextPlayerId == |roster| && r.nextSessionId == |roster| + 1 && r.entitySpawnOrder == roster
  }

  /** The world holds their characters, with entity ids 1, 2, ... in order. */
  ghost predicate Embodied<F>(roster: seq<PlayerId>, w: WorldState<F>) {
    && w.nextEntityId == |roster| + 1 && |w.characters| == |roster|
    && forall i :: 0 <= i < |roster| ==> w.characters[i].entityId == i + 1 && w.characters[i].playerId == roster[i]
  }

  /** The recorder has noted them and their entities. */
  ghost predicate Noted<F>(roster: seq<PlayerId>, r: RecorderState<F>) {
    && r.entitySpawnOrder == roster && |r.playerEntityMapping| == |roster|
    && forall i :: 0 <= i < |roster| ==> r.playerEntityMapping[i] == (roster[i], i + 1)
  }

  ghost predicate RosterInv<F>(config: ServerConfig, evs: seq<Event<F>>, s: ServerState<F>) {
    Enrollable(config, Joins(evs)) &&
    var roster := Roster(config, Joins(evs));
    Counted(roster, s.registry) && Embodied(roster, s.world) && Noted(roster, s.recorder)
  }

  ghost predicate ClockInv<F>(ar: Arith<F>, config: ServerConfig, evs: seq<Event<F>>, s: ServerState<F>) {
    && s.world.tick == Steps(evs)
    && s.world.dt == NewWorld(ar, config.seed, config.tickRateHz).dt
    && s.world.tickRateHz == config.tickRateHz && s.world.seed == config.seed
    && s.recorder.config == config.ToReplay()
    && s.recorder.buildFingerprint == LastFingerprint(evs)
    && (s.baselineRecorded <==> Steps(evs) > 0)
    && (s.recorder.initialBaseline.Some? <==> Steps(evs) > 0)
    && (s.recorder.initialBaseline.Some? ==> s.recorder.initialBaseline.value.tick == 0)
  }

  /** The tables of live sessions agree with the roster. */
  ghost predicate TablesInv(roster: seq<PlayerId>, r: Registry) {
    && (forall sid :: sid in r.sessions ==> 1 <= sid <= |roster| && r.sessions[sid] == Session(sid, roster[sid - 1], sid))
    && r.sessionPlayers.Keys == r.sessions.Keys
    && (forall sid :: sid in r.sessionPlayers ==> 1 <= sid <= |roster| && r.sessionPlayers[sid] == roster[sid - 1])
  }

  /** Live players and live sessions name each other, provided ids are not shared. */
  ghost predicate InverseInv(roster: seq<PlayerId>, r: Registry) {
    Distinct(roster) ==>
      && (forall p :: p in r.playerSessions ==> r.playerSessions[p] in r.sessionPlayers && r.sessionPlayers[r.playerSessions[p]] == p)
      && (forall sid :: sid in r.sessionPlayers ==> r.sessionPlayers[sid] in r.playerSessions && r.playerSessions[r.sessionPlayers[sid]] == sid)
  }

  ghost predicate SessionInv<F>(config: ServerConfig, evs: seq<Event<F>>, r: Registry) {
    && Enrollable(config, Joins(evs))
    && (forall sid :: sid in r.sessions <==> Live(evs, sid))
    && TablesInv(Roster(config, Joins(evs)), r)
    && InverseInv(Roster(config, Joins(evs)), r)
  }

  /** Every floor on record is the current tick plus the lead. */
  ghost predicate FloorInv<F>(config: ServerConfig, evs: seq<Event<F>>, s: ServerState<F>) {
    && (forall sid :: sid in s.lastEmittedFloor <==> HasFloor(evs, sid))
    && (forall sid :: sid in s.lastEmittedFloor ==> sid in s.registry.sessions)
    && (forall sid :: sid in s.lastEmittedFloor ==> s.lastEmittedFloor[sid] == s.world.tick + config.inputLeadTicks)
  }

  /** Every buffered key belongs to a spawned player and lies in the acceptance window. */
  ghost predicate WindowInv<F>(players: seq<PlayerId>, tick: nat, maxFuture: nat, entries: Entries<F>) {
    forall k :: k in entries ==> k.0 in players && tick <= k.1 <= tick + maxFuture && |entries[k].selected.moveDir| == 2
  }

  ghost predicate BufferInv<F>(config: ServerConfig, s: ServerState<F>) {
    WindowInv(s.registry.entitySpawnOrder, s.world.tick, config.maxFutureTicks, s.entries)
  }

  ghost predicate IntentInv<F>(s: ServerState<F>) {
    forall p :: p in s.lastKnownIntent <==> p in s.registry.entitySpawnOrder
  }

  ghost predicate RunInvariant<F>(ar: Arith<F>, config: ServerConfig, evs: seq<Event<F>>, s: ServerState<F>) {
    && RosterInv(config, evs, s)
    && ClockInv(ar, config, evs, s)
    && SessionInv(config, evs, s.registry)
    && FloorInv(config, evs, s)
    && BufferInv(config, s)
    && IntentInv(s)
  }

  // Preservation, event by event.

  lemma LastOf<F>(evs: seq<Event<F>>, e: Event<F>)
    ensures Front(evs + [e]) == evs && Last(evs + [e]) == e
  {
  }

  lemma SpawnEmbodied<F>(ar: Arith<F>, roster: seq<PlayerId>, w: WorldState<F>, p: PlayerId)
    requires Embodied(roster, w)
    ensures Embodied(roster + [p], Spawn(ar, w, p))
  {
  }

  lemma SpawnNoted<F>(roster: seq<PlayerId>, r: RecorderState<F>, p: PlayerId)
    requires Noted(roster, r)
    ensures Noted(roster + [p], RecordSpawn(r, p, |roster| + 1))
  {
  }

  lemma AcceptRoster<F>(ar: Arith<F>, config: ServerConfig, evs: seq<Event<F>>, s: ServerState<F>)
    requires s.config == config && RosterInv(config, evs, s) && CanAccept(s)
    ensures RosterInv(config, evs + [Accept], AcceptSession(ar, s))
  {
    LastOf(evs, Accept);
    var roster, p := Roster(config, Joins(evs)), AssignedId(config, Joins(evs));
    assert Roster(config, Joins(evs + [Accept])) == roster + [p];
    SpawnEmbodied(ar, roster, s.world, p);
    SpawnNoted(roster, s.recorder, p);
    RosterInvOf(config, evs + [Accept], roster + [p], AcceptSession(ar, s));
  }

  lemma DistinctFront<T>(xs: seq<T>, x: T)
    requires Distinct(xs + [x])
    ensures Distinct(xs) && x !in xs
  {
    forall i, j | 0 <= i < j < |xs| ensures xs[i] != xs[j] {
      assert (xs + [x])[i] != (xs + [x])[j];
    }
    forall i | 0 <= i < |xs| ensures xs[i] != x {
      assert (xs + [x])[i] != (xs + [x])[|xs|];
    }
  }

  lemma EnterTables(roster: seq<PlayerId>, r: Registry, p: PlayerId)
    requires TablesInv(roster, r) && r.nextSessionId == |roster| + 1
    ensures TablesInv(roster + [p], r.Enter(p, |roster| + 1))
  {
    var next := r.Enter(p, |roster| + 1);
    assert next.sessionPlayers.Keys == r.sessionPlayers.Keys + {|roster| + 1} == next.sessions.Keys;
  }

  lemma EnterInverse(roster: seq<PlayerId>, r: Registry, p: PlayerId)
    requires TablesInv(roster, r) && InverseInv(roster, r) && r.nextSessionId == |roster| + 1
    ensures InverseInv(roster + [p], r.Enter(p, |roster| + 1))
  {
    if Distinct(roster + [p]) {
      DistinctFront(roster, p);
      assert |roster| + 1 !in r.sessionPlayers;
      assert forall q :: q in r.playerSessions ==> r.sessionPlayers[r.playerSessions[q]] in roster;
      assert forall sid :: sid in r.sessionPlayers ==> r.sessionPlayers[sid] != p;
    }
  }

  lemma LeaveTables(roster: seq<PlayerId>, r: Registry, sid: SessionId)
    requires TablesInv(roster, r) && sid in r.sessions
    ensures TablesInv(roster, r.Leave(sid))
  {
  }

  lemma LeaveInverse(roster: seq<PlayerId>, r: Registry, sid: SessionId)
    requires TablesInv(roster, r) && InverseInv(roster, r) && sid in r.sessions
    ensures InverseInv(roster, r.Leave(sid))
  {
    var p := r.sessions[sid].playerId;
    assert r.sessionPlayers[sid] == p;
    if Distinct(roster) {
      var t := r.Leave(sid);
      forall q | q in t.playerSessions ensures t.playerSessions[q] in t.sessionPlayers && t.sessionPlayers[t.playerSessions[q]] == q {
        assert q in r.playerSessions && q != p;
        assert r.sessionPlayers[r.playerSessions[q]] == q;
      }
      forall o | o in t.sessionPlayers ensures t.sessionPlayers[o] in t.playerSessions && t.playerSessions[t.sessionPlayers[o]] == o {
        assert o in r.sessionPlayers && o != sid;
        assert r.playerSessions[r.sessionPlayers[o]] == o && r.playerSessions[p] == sid;
      }
    }
  }

  lemma AcceptSessions<F>(config: ServerConfig, evs: seq<Event<F>>, r: Registry, p: PlayerId)
    requires SessionInv(config, evs, r) && Enrollable(config, Joins(evs) + 1)
    requires r.nextSessionId == Joins(evs) + 1 && p == AssignedId(config, Joins(evs))
    ensures SessionInv(config, evs + [Accept], r.Enter(p, Joins(evs) + 1))
  {
    var roster := Roster(config, Joins(evs));
    EnterTables(roster, r, p);
    EnterInverse(roster, r, p);
    EnterLive(evs, r, p);
    NextRoster(config, evs, p);
    SessionInvOf(config, evs + [Accept], roster + [p], r.Enter(p, Joins(evs) + 1));
  }

  lemma NextRoster<F>(config: ServerConfig, evs: seq<Event<F>>, p: PlayerId)
    requires Enrollable(config, Joins(evs) + 1) && p == AssignedId(config, Joins(evs))
    ensures Joins(evs + [Accept]) == Joins(evs) + 1
    ensures Roster(config, Joins(evs + [Accept])) == Roster(config, Joins(evs)) + [p]
  {
    LastOf(evs, Accept);
  }

  lemma SessionInvOf<F>(config: ServerConfig, evs: seq<Event<F>>, roster: seq<PlayerId>, r: Registry)
    requires Enrollable(config, Joins(evs)) && roster == Roster(config, Joins(evs))
    requires (forall sid :: sid in r.sessions <==> Live(evs, sid)) && TablesInv(roster, r) && InverseInv(roster, r)
    ensures SessionInv(config, evs, r)
  {
  }

  lemma EnterLive<F>(evs: seq<Event<F>>, r: Registry, p: PlayerId)
    requires r.nextSessionId == Joins(evs) + 1
    requires forall sid :: sid in r.sessions <==> Live(evs, sid)
    ensures forall sid :: sid in r.Enter(p, Joins(evs) + 1).sessions <==> Live(evs + [Accept], sid)
  {
    LastOf(evs, Accept);
  }

  lemma AcceptRest<F>(ar: Arith<F>, config: ServerConfig, evs: seq<Event<F>>, s: ServerState<F>)
    requires s.config == config && CanAccept(s)
    requires ClockInv(ar, config, evs, s) && FloorInv(config, evs, s) && BufferInv(config, s) && IntentInv(s)
    ensures
      var t := AcceptSession(ar, s);
      ClockInv(ar, config, evs + [Accept], t) && FloorInv(config, evs + [Accept], t) && BufferInv(config, t) && IntentInv(t)
  {
    LastOf(evs, Accept);
  }

  lemma WelcomeFloors<F>(config: ServerConfig, evs: seq<Event<F>>, s: ServerState<F>, sid: SessionId)
    requires s.config == config && FloorInv(config, evs, s) && sid in s.registry.sessions
    ensures FloorInv(config, evs + [Welcome(sid)], WelcomeSession(s, sid))
  {
    LastOf(evs, Welcome(sid));
  }

  lemma WelcomeRest<F>(ar: Arith<F>, config: ServerConfig, evs: seq<Event<F>>, s: ServerState<F>, sid: SessionId)
    requires s.config == config && RosterInv(config, evs, s) && ClockInv(ar, config, evs, s) && SessionInv(config, evs, s.registry)
    requires BufferInv(config, s) && IntentInv(s)
    ensures
      var t, next := WelcomeSession(s, sid), evs + [Welcome(sid)];
      RosterInv(config, next, t) && ClockInv(ar, config, next, t) && SessionInv(config, next, t.registry)
      && BufferInv(config, t) && IntentInv(t)
  {
    LastOf(evs, Welcome(sid));
  }

  lemma WelcomeKeeps<F>(ar: Arith<F>, config: ServerConfig, evs: seq<Event<F>>, s: ServerState<F>, sid: SessionId)
    requires s.config == config && RunInvariant(ar, config, evs, s) && sid in s.registry.sessions
    ensures RunInvariant(ar, config, evs + [Welcome(sid)], WelcomeSession(s, sid))
  {
    WelcomeFloors(config, evs, s, sid);
    WelcomeRest(ar, config, evs, s, sid);
  }

  lemma LeaveLive<F>(evs: seq<Event<F>>, r: Registry, sid: SessionId)
    requires forall o :: o in r.sessions <==> Live(evs, o)
    ensures sid in r.sessions ==> forall o :: o in r.Leave(sid).sessions <==> Live(evs + [Disconnect(sid)], o)
    ensures sid !in r.sessions ==> forall o :: o in r.sessions <==> Live(evs + [Disconnect(sid)], o)
    ensures Joins(evs + [Disconnect(sid)]) == Joins(evs)
  {
    LastOf(evs, Disconnect(sid));
  }

  lemma LeaveSessions<F>(config: ServerConfig, evs: seq<Event<F>>, r: Registry, sid: SessionId)
    requires SessionInv(config, evs, r)
    ensures SessionInv(config, evs + [Disconnect(sid)], if sid in r.sessions then r.Leave(sid) else r)
  {
    var roster := Roster(config, Joins(evs));
    LeaveLive(evs, r, sid);
    if sid in r.sessions {
      LeaveTables(roster, r, sid);
      LeaveInverse(roster, r, sid);
      SessionInvOf(config, evs + [Disconnect(sid)], roster, r.Leave(sid));
    } else {
      SessionInvOf(config, evs + [Disconnect(sid)], roster, r);
    }
  }

  lemma DisconnectSessions<F>(ar: Arith<F>, config: ServerConfig, evs: seq<Event<F>>, s: ServerState<F>, sid: SessionId)
    requires SessionInv(config, evs, s.registry)
    ensures SessionInv(config, evs + [Disconnect(sid)], DisconnectSession(ar, s, sid).registry)
  {
    LeaveSessions(config, evs, s.registry, sid);
  }

  lemma DisconnectFloors<F>(ar: Arith<F>, config: ServerConfig, evs: seq<Event<F>>, s: ServerState<F>, sid: SessionId)
    requires FloorInv(config, evs, s) && forall o :: o in s.registry.sessions <==> Live(evs, o)
    ensures FloorInv(config, evs + [Disconnect(sid)], DisconnectSession(ar, s, sid))
  {
    LastOf(evs, Disconnect(sid));
  }

  lemma DisconnectRest<F>(ar: Arith<F>, config: ServerConfig, evs: seq<Event<F>>, s: ServerState<F>, sid: SessionId)
    requires RosterInv(config, evs, s) && ClockInv(ar, config, evs, s) && SessionInv(config, evs, s.registry)
    requires BufferInv(config, s) && IntentInv(s)
    ensures
      var t, next := DisconnectSession(ar, s, sid), evs + [Disconnect(sid)];
      RosterInv(config, next, t) && ClockInv(ar, config, next, t) && BufferInv(config, t) && IntentInv(t)
  {
    LastOf(evs, Disconnect(sid));
    if sid in s.registry.sessions {
      assert s.registry.sessions[sid].playerId in Roster(config, Joins(evs));
    }
  }

  lemma ReceiveBuffer<F>(ar: Arith<F>, config: ServerConfig, evs: seq<Event<F>>, s: ServerState<F>, sid: SessionId, cmd: InputCmd<F>)
    requires config.tickRateHz > 0 && s.config == config
    requires RosterInv(config, evs, s) && SessionInv(config, evs, s.registry) && BufferInv(config, s)
    ensures BufferInv(config, ReceiveFrom(ar, s, sid, cmd))
  {
    ReceiveOutcome(ar, s, sid, cmd);
    if Heard(ar, s, sid, cmd) {
      var p := s.registry.sessionPlayers[sid];
      assert p in s.registry.entitySpawnOrder;
      AdmitWindow(ar, config.Limit(), s.registry.entitySpawnOrder, s.world.tick, config.maxFutureTicks, s.entries, p, cmd);
    }
  }

  lemma AdmitWindow<F>(
    ar: Arith<F>, limit: nat, players: seq<PlayerId>, tick: nat, maxFuture: nat, entries: Entries<F>, p: PlayerId, cmd: InputCmd<F>)
    requires WindowInv(players, tick, maxFuture, entries)
    requires p in players && tick <= cmd.tick <= tick + maxFuture && |cmd.moveDir| == 2
    ensures WindowInv(players, tick, maxFuture, entries[(p, cmd.tick) := Admit(ar, limit, Lookup(entries, (p, cmd.tick)), cmd).0.value])
  {
    AdmitLength(ar, limit, Lookup(entries, (p, cmd.tick)), cmd);
  }

  lemma AdmitLength<F>(ar: Arith<F>, limit: nat, e: Option<BufferEntry<F>>, cmd: InputCmd<F>)
    requires |cmd.moveDir| == 2 && (e.Some? ==> |e.value.selected.moveDir| == 2)
    ensures |Admit(ar, limit, e, cmd).0.value.selected.moveDir| == 2
  {
  }

  lemma ReceiveKeeps<F>(ar: Arith<F>, config: ServerConfig, evs: seq<Event<F>>, s: ServerState<F>, sid: SessionId, cmd: InputCmd<F>)
    requires config.tickRateHz > 0 && s.config == config && RunInvariant(ar, config, evs, s)
    ensures
      var t, next := ReceiveFrom(ar, s, sid, cmd), evs + [Receive(sid, cmd)];
      RosterInv(config, next, t) && ClockInv(ar, config, next, t) && SessionInv(config, next, t.registry) && FloorInv(config, next, t)
      && IntentInv(t)
  {
    LastOf(evs, Receive(sid, cmd));
  }

  lemma FingerprintKeeps<F>(ar: Arith<F>, config: ServerConfig, evs: seq<Event<F>>, s: ServerState<F>, f: BuildFingerprint)
    requires s.config == config && RunInvariant(ar, config, evs, s)
    ensures RunInvariant(ar, config, evs + [SetFingerprint(f)], WithFingerprint(s, f))
  {
    LastOf(evs, SetFingerprint(f));
  }

  /** Collecting a tick removes exactly that tick's entries of the listed players. */
  lemma {:induction false} CollectKeeps<F>(
    ar: Arith<F>, entries: Entries<F>, intents: map<PlayerId, Vec2<F>>, tick: nat, players: seq<PlayerId>)
    ensures
      var c := Collect(ar, entries, intents, tick, players);
      && (forall k :: k in c.entries <==> k in entries && !(k.1 == tick && k.0 in players))
      && (forall k :: k in c.entries ==> c.entries[k] == entries[k])
  {
    if players == [] {
    } else {
      CollectKeeps(ar, entries, intents, tick, players[..|players| - 1]);
    }
  }

  /** It yields one input per player, in order, and leaves every listed player an intent. */
  lemma {:induction false} CollectYields<F>(
    ar: Arith<F>, entries: Entries<F>, intents: map<PlayerId, Vec2<F>>, tick: nat, players: seq<PlayerId>)
    ensures
      var c := Collect(ar, entries, intents, tick, players);
      && |c.applied| == |players|
      && (forall p :: p in c.intents <==> p in intents || p in players)
      && (forall i :: 0 <= i < |players| ==> c.applied[i].tick == tick && c.applied[i].playerId == players[i])
  {
    if players == [] {
    } else {
      CollectYields(ar, entries, intents, tick, players[..|players| - 1]);
    }
  }

  lemma AdvanceEmbodied<F>(ar: Arith<F>, roster: seq<PlayerId>, w: WorldState<F>, inputs: seq<StepInput<F>>)
    requires Embodied(roster, w)
    ensures Embodied(roster, Advance(ar, w, inputs))
  {
    MovementsKeepIdentity(ar, w.dt, w.characters, inputs);
  }

  lemma RosterInvOf<F>(config: ServerConfig, evs: seq<Event<F>>, roster: seq<PlayerId>, s: ServerState<F>)
    requires Enrollable(config, Joins(evs)) && roster == Roster(config, Joins(evs))
    requires Counted(roster, s.registry) && Embodied(roster, s.world) && Noted(roster, s.recorder)
    ensures RosterInv(config, evs, s)
  {
  }

  lemma RecordingNoted<F>(ar: Arith<F>, roster: seq<PlayerId>, r: RecorderState<F>, b: bool, w: WorldState<F>, applied: seq<AppliedInput<F>>)
    requires Noted(roster, r)
    ensures Noted(roster, Recording(ar, r, b, w, applied))
  {
  }

  lemma StepRoster<F>(ar: Arith<F>, config: ServerConfig, evs: seq<Event<F>>, s: ServerState<F>)
    requires s.config == config && RosterInv(config, evs, s)
    ensures RosterInv(config, evs + [Event.Step], StepServer(ar, s))
  {
    LastOf(evs, Event.Step);
    var roster := Roster(config, Joins(evs));
    var c := Collect(ar, s.entries, s.lastKnownIntent, s.world.tick, s.registry.entitySpawnOrder);
    StepOutcome(ar, s, c);
    AdvanceEmbodied(ar, roster, s.world, SortedStepInputs(c.applied));
    RecordingNoted(ar, roster, s.recorder, s.baselineRecorded, s.world, c.applied);
    RosterInvOf(config, evs + [Event.Step], roster, StepServer(ar, s));
  }

  lemma StepClock<F>(ar: Arith<F>, config: ServerConfig, evs: seq<Event<F>>, s: ServerState<F>)
    requires s.config == config && ClockInv(ar, config, evs, s)
    ensures ClockInv(ar, config, evs + [Event.Step], StepServer(ar, s))
  {
    LastOf(evs, Event.Step);
    StepOutcome(ar, s, Collect(ar, s.entries, s.lastKnownIntent, s.world.tick, s.registry.entitySpawnOrder));
  }

  lemma StepSessions<F>(config: ServerConfig, evs: seq<Event<F>>, r: Registry)
    requires SessionInv(config, evs, r)
    ensures SessionInv(config, evs + [Event.Step], r)
  {
    LastOf(evs, Event<F>.Step);
  }

  lemma StepFloors<F>(ar: Arith<F>, config: ServerConfig, evs: seq<Event<F>>, s: ServerState<F>)
    requires s.config == config && FloorInv(config, evs, s)
    requires forall sid :: sid in s.registry.sessions <==> Live(evs, sid)
    ensures FloorInv(config, evs + [Event.Step], StepServer(ar, s))
  {
    LastOf(evs, Event.Step);
    StepOutcome(ar, s, Collect(ar, s.entries, s.lastKnownIntent, s.world.tick, s.registry.entitySpawnOrder));
  }

  lemma StepBuffer<F>(ar: Arith<F>, config: ServerConfig, s: ServerState<F>)
    requires s.config == config && BufferInv(config, s) && IntentInv(s)
    ensures
      var t := StepServer(ar, s);
      BufferInv(config, t) && IntentInv(t)
  {
    StepOutcome(ar, s, Collect(ar, s.entries, s.lastKnownIntent, s.world.tick, s.registry.entitySpawnOrder));
    CollectKeeps(ar, s.entries, s.lastKnownIntent, s.world.tick, s.registry.entitySpawnOrder);
    CollectYields(ar, s.entries, s.lastKnownIntent, s.world.tick, s.registry.entitySpawnOrder);
  }

  lemma InitInvariant<F>(ar: Arith<F>, config: ServerConfig)
    ensures RunInvariant(ar, config, [], NewServer(ar, config))
  {
  }

  lemma AcceptKeeps<F>(ar: Arith<F>, config: ServerConfig, evs: seq<Event<F>>, s: ServerState<F>)
    requires s.config == config && RunInvariant(ar, config, evs, s) && CanAccept(s)
    ensures RunInvariant(ar, config, evs + [Accept], AcceptSession(ar, s))
  {
    AcceptRoster(ar, config, evs, s);
    AcceptSessions(config, evs, s.registry, AssignedId(config, Joins(evs)));
    AcceptRest(ar, config, evs, s);
  }

  lemma DisconnectKeeps<F>(ar: Arith<F>, config: ServerConfig, evs: seq<Event<F>>, s: ServerState<F>, sid: SessionId)
    requires s.config == config && RunInvariant(ar, config, evs, s)
    ensures RunInvariant(ar, config, evs + [Disconnect(sid)], DisconnectSession(ar, s, sid))
  {
    DisconnectSessions(ar, config, evs, s, sid);
    DisconnectFloors(ar, config, evs, s, sid);
    DisconnectRest(ar, config, evs, s, sid);
  }

  lemma StepKeeps<F>(ar: Arith<F>, config: ServerConfig, evs: seq<Event<F>>, s: ServerState<F>)
    requires s.config == config && RunInvariant(ar, config, evs, s)
    ensures RunInvariant(ar, config, evs + [Event.Step], StepServer(ar, s))
  {
    StepRoster(ar, config, evs, s);
    StepClock(ar, config, evs, s);
    StepSessions(config, evs, s.registry);
    StepFloors(ar, config, evs, s);
    StepBuffer(ar, config, s);
  }

  /** Every event keeps the invariant. */
  lemma EventKeeps<F>(ar: Arith<F>, config: ServerConfig, evs: seq<Event<F>>, s: ServerState<F>, e: Event<F>)
    requires config.tickRateHz > 0 && s.config == config && RunInvariant(ar, config, evs, s) && Enabled(s, e)
    ensures RunInvariant(ar, config, evs + [e], Apply(ar, s, e))
  {
    match e
    case Accept => AcceptKeeps(ar, config, evs, s);
    case Welcome(sid) => WelcomeKeeps(ar, config, evs, s, sid);
    case Disconnect(sid) => DisconnectKeeps(ar, config, evs, s, sid);
    case Receive(sid, cmd) =>
      ReceiveBuffer(ar, config, evs, s, sid, cmd);
      ReceiveKeeps(ar, config, evs, s, sid, cmd);
    case Step => StepKeeps(ar, config, evs, s);
    case SetFingerprint(f) => FingerprintKeeps(ar, config, evs, s, f);
  }

  /** Every state a run reaches satisfies the invariant. */
  lemma {:induction false} RunKeepsInvariant<F>(ar: Arith<F>, config: ServerConfig, evs: seq<Event<F>>)
    requires Legal(ar, config, evs)
    ensures RunInvariant(ar, config, evs, After(ar, config, evs))
  {
    if evs == [] {
      InitInvariant(ar, config);
    } else {
      var before := Front(evs);
      RunLast(ar, config, evs);
      RunKeepsInvariant(ar, config, before);
      EventKeeps(ar, config, before, After(ar, config, before), Last(evs));
    }
  }

  // The buffer is bounded.

  lemma {:induction false} WindowBound(keys: set<Key>, p: PlayerId, lo: nat, n: nat)
    requires forall k :: k in keys ==> k.0 == p && lo <= k.1 < lo + n
    ensures |keys| <= n
  {
    if n == 0 {
      assert keys == {};
    } else {
      WindowBound(keys - {(p, lo + n - 1)}, p, lo, n - 1);
    }
  }

  lemma {:induction false} KeysBound(keys: set<Key>, players: seq<PlayerId>, lo: nat, n: nat)
    requires forall k :: k in keys ==> k.0 in players && lo <= k.1 < lo + n
    ensures |keys| <= |players| * n
  {
    if players == [] {
      assert keys == {};
    } else {
      var front, p := players[..|players| - 1], players[|players| - 1];
      var mine := set k | k in keys && k.0 == p;
      WindowBound(mine, p, lo, n);
      forall k | k in keys - mine ensures k.0 in front && lo <= k.1 < lo + n {
        assert players == front + [p];
      }
      KeysBound(keys - mine, front, lo, n);
      assert |keys| == |keys - mine| + |mine|;
      OneMore(|front|, n);
    }
  }

  /** In every reachable state the buffer holds at most one entry per player and window tick. */
  lemma BufferBounded<F>(ar: Arith<F>, config: ServerConfig, evs: seq<Event<F>>)
    requires Legal(ar, config, evs)
    ensures |After(ar, config, evs).entries| <= Joins(evs) * (config.maxFutureTicks + 1)
  {
    RunKeepsInvariant(ar, config, evs);
    var s := After(ar, config, evs);
    KeysBound(s.entries.Keys, s.registry.entitySpawnOrder, s.world.tick, config.maxFutureTicks + 1);
  }

  // Floors of a session.

  lemma {:induction false} StepsGrow<F>(evs: seq<Event<F>>, more: seq<Event<F>>)
    ensures Steps(evs + more) >= Steps(evs)
  {
    if more == [] {
      assert evs + more == evs;
    } else {
      var now := evs + Front(more);
      assert evs + more == now + [Last(more)];
      LastOf(now, Last(more));
      StepsGrow(evs, Front(more));
    }
  }

  lemma FloorOnRecord<F>(ar: Arith<F>, config: ServerConfig, evs: seq<Event<F>>, sid: SessionId)
    requires Legal(ar, config, evs) && sid in After(ar, config, evs).lastEmittedFloor
    ensures After(ar, config, evs).lastEmittedFloor[sid] == Steps(evs) + config.inputLeadTicks
  {
    RunKeepsInvariant(ar, config, evs);
  }

  /** The floor a session is held to never decreases. */
  lemma FloorMonotone<F>(ar: Arith<F>, config: ServerConfig, evs: seq<Event<F>>, more: seq<Event<F>>, sid: SessionId)
    requires Legal(ar, config, evs) && Legal(ar, config, evs + more)
    requires sid in After(ar, config, evs).lastEmittedFloor && sid in After(ar, config, evs + more).lastEmittedFloor
    ensures After(ar, config, evs).lastEmittedFloor[sid] <= After(ar, config, evs + more).lastEmittedFloor[sid]
  {
    FloorOnRecord(ar, config, evs, sid);
    FloorOnRecord(ar, config, evs + more, sid);
    StepsGrow(evs, more);
  }
}
