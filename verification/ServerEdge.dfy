/** The server edge's own object: its tables, its world, its buffer and its recorder. */
module ServerEdge {
  import opened Wrappers
  import opened Words
  import opened Sequences
  import opened Float64
  import opened Simulation
  import opened InputBuffering
  import opened Validation
  import opened Replay
  import opened Verdicts
  import opened ServerModel
  import opened ServerRuns
  import opened RecordThenVerify
  import opened ServerWire
  import opened SentMessages

  class Server<F> {
    const ar: Arith<F>
    const config: ServerConfig
    const world: World<F>
    const inputBuffer: InputBuffer<F>
    const replayRecorder: ReplayRecorder<F>
    var registry: Registry
    var lastKnownIntent: map<PlayerId, Vec2<F>>
    var lastEmittedFloor: map<SessionId, nat>
    var baselineRecorded: bool
    /** The run so far, and its state as the state machine describes it. */
    ghost var history: seq<Event<F>>
    ghost var state: ServerState<F>

    /** The state is the one the run leads to. */
    ghost predicate Follows()
      reads this`history, this`state
    {
      config.tickRateHz > 0 && Run(ar, config, history) == Some(state)
    }

    /** The fields hold what the state says. */
    ghost predicate Matches()
      reads this`registry, this`lastKnownIntent, this`lastEmittedFloor, this`baselineRecorded, this`state
      reads world, inputBuffer, replayRecorder
    {
      && config.tickRateHz > 0 && state.config == config
      && world.Valid() && world.ar == ar && state.world == world.State()
      && inputBuffer.ar == ar && inputBuffer.config == config.ToValidation() && inputBuffer.perTickLimit == config.Limit()
      && state.entries == inputBuffer.buffer
      && state.recorder == replayRecorder.State()
      && state.registry == registry
      && state.lastKnownIntent == lastKnownIntent && state.lastEmittedFloor == lastEmittedFloor
      && state.baselineRecorded == baselineRecorded
    }

    ghost predicate Valid()
      reads this, world, inputBuffer, replayRecorder
    {
      Follows() && Matches()
    }

    constructor (ar: Arith<F>, config: ServerConfig)
      requires config.tickRateHz > 0
      ensures Valid() && fresh(world) && fresh(inputBuffer) && fresh(replayRecorder)
      ensures this.ar == ar && this.config == config
      ensures history == [] && state == NewServer(ar, config)
    {
      this.ar := ar;
      this.config := config;
      this.world := new World(ar, config.seed, config.tickRateHz);
      this.inputBuffer := new InputBuffer(ar, config.ToValidation());
      this.replayRecorder := new ReplayRecorder(config.ToReplay());
      this.registry := Registry(map[], 1, 0, map[], map[], [], map[]);
      this.lastKnownIntent, this.lastEmittedFloor := map[], map[];
      this.baselineRecorded := false;
      this.history, this.state := [], NewServer(ar, config);
    }

    method SetBuildFingerprint(fingerprint: BuildFingerprint)
      requires Valid()
      modifies this, replayRecorder
      ensures Valid()
      ensures history == old(history) + [SetFingerprint(fingerprint)]
      ensures state == WithFingerprint(old(state), fingerprint)
    {
      RunNext(ar, config, history, state, SetFingerprint(fingerprint));
      history := history + [SetFingerprint(fingerprint)];
      state := WithFingerprint(state, fingerprint);
      replayRecorder.SetBuildFingerprint(fingerprint);
    }

    method AcceptSession() returns (sessionId: SessionId, playerId: PlayerId, entityId: nat)
      requires Valid() && CanAccept(state) && world.nextEntityId + 1 < 0x1_0000_0000_0000_0000
      modifies this, world, replayRecorder
      ensures Valid()
      ensures history == old(history) + [Event.Accept]
      ensures state == ServerModel.AcceptSession(ar, old(state))
      ensures sessionId == old(registry.nextSessionId)
      ensures playerId == AssignedId(config, old(registry.nextPlayerId)) && entityId == old(world.nextEntityId)
    {
      RunNext(ar, config, history, state, Event<F>.Accept);
      sessionId, playerId, entityId := EnterSession();
      history := history + [Event<F>.Accept];
    }

    method EnterSession() returns (sessionId: SessionId, playerId: PlayerId, entityId: nat)
      requires Matches() && CanAccept(state) && world.nextEntityId + 1 < 0x1_0000_0000_0000_0000
      modifies this`state, this`registry, this`lastKnownIntent, world, replayRecorder
      ensures Matches()
      ensures state == ServerModel.AcceptSession(ar, old(state))
      ensures sessionId == old(registry.nextSessionId)
      ensures playerId == AssignedId(config, old(registry.nextPlayerId)) && entityId == old(world.nextEntityId)
    {
      state := ServerModel.AcceptSession(ar, state);
      sessionId := registry.nextSessionId;
      var ordinal := registry.nextPlayerId;
      playerId := if config.testPlayerIds.Some? then config.testPlayerIds.value[ordinal] else ordinal;
      entityId := world.SpawnCharacter(playerId);
      registry := Registry(
        registry.sessions[sessionId := Session(sessionId, playerId, entityId)],
        sessionId + 1,
        ordinal + 1,
        registry.playerSessions[playerId := sessionId],
        registry.sessionPlayers[sessionId := playerId],
        registry.entitySpawnOrder + [playerId],
        registry.playerEntityMapping[playerId := entityId]);
      replayRecorder.RecordSpawn(playerId, entityId);
      lastKnownIntent := lastKnownIntent[playerId := ar.Origin()];
    }

    method WelcomeFor(sessionId: SessionId) returns (welcome: ServerWelcome)
      requires Valid() && sessionId in registry.sessions
      modifies this
      ensures Valid()
      ensures history == old(history) + [Welcome(sessionId)]
      ensures state == WelcomeSession(old(state), sessionId)
      ensures welcome == ServerWelcome(world.tick + config.inputLeadTicks, config.tickRateHz,
                                       registry.sessions[sessionId].playerId, registry.sessions[sessionId].controlledEntityId)
      ensures WelcomeSends(config, old(history), sessionId, welcome.targetTickFloor)
    {
      RunNext(ar, config, history, state, Event.Welcome(sessionId));
      LiveNow(ar, config, history, state, sessionId);
      history := history + [Event.Welcome(sessionId)];
      state := WelcomeSession(state, sessionId);
      var session := registry.sessions[sessionId];
      var targetTickFloor := world.tick + config.inputLeadTicks;
      lastEmittedFloor := lastEmittedFloor[sessionId := targetTickFloor];
      welcome := ServerWelcome(targetTickFloor, config.tickRateHz, session.playerId, session.controlledEntityId);
      WelcomeSent(config, old(history), sessionId, targetTickFloor);
    }

    /** The match ends by duration only: once enough steps were taken, whoever came or went. */
    method ShouldEndMatch() returns (complete: bool)
      requires Valid()
      ensures complete <==> Steps(history) >= config.matchDurationTicks
    {
      TickCountsSteps(ar, config, history);
      complete := world.tick >= config.matchDurationTicks;
    }

    method DisconnectSession(sessionId: SessionId)
      requires Valid()
      modifies this
      ensures Valid()
      ensures history == old(history) + [Disconnect(sessionId)]
      ensures state == ServerModel.DisconnectSession(ar, old(state), sessionId)
    {
      RunNext(ar, config, history, state, Disconnect(sessionId));
      history := history + [Disconnect(sessionId)];
      state := ServerModel.DisconnectSession(ar, state, sessionId);
      if sessionId in registry.sessions {
        var session := registry.sessions[sessionId];
        registry := registry.(
          sessions := registry.sessions - {sessionId},
          playerSessions := registry.playerSessions - {session.playerId},
          sessionPlayers := registry.sessionPlayers - {sessionId});
        lastEmittedFloor := lastEmittedFloor - {sessionId};
        lastKnownIntent := lastKnownIntent[session.playerId := ar.Origin()];
      }
    }

    method ReceiveInput(sessionId: SessionId, input: InputCmd<F>) returns (result: ValidationResult)
      requires Valid() && world.tick + config.maxFutureTicks < 0x1_0000_0000_0000_0000
      modifies this`state, this`history, inputBuffer
      ensures Valid()
      ensures history == old(history) + [Receive(sessionId, input)]
      ensures state == ReceiveFrom(ar, old(state), sessionId, input)
      ensures result == Judge(ar, old(state), sessionId, input).1
    {
      RunNext(ar, config, history, state, Receive(sessionId, input));
      result := JudgeInput(sessionId, input);
      history := history + [Receive(sessionId, input)];
    }

    method JudgeInput(sessionId: SessionId, input: InputCmd<F>) returns (result: ValidationResult)
      requires Matches() && world.tick + config.maxFutureTicks < 0x1_0000_0000_0000_0000
      modifies this`state, inputBuffer
      ensures Matches()
      ensures state == ReceiveFrom(ar, old(state), sessionId, input)
      ensures result == Judge(ar, old(state), sessionId, input).1
    {
      state := ReceiveFrom(ar, state, sessionId, input);
      if sessionId !in registry.sessionPlayers {
        return DroppedUnknownSession;
      }
      var floor := if sessionId in lastEmittedFloor then lastEmittedFloor[sessionId] else 0;
      result := ValidateInput(input, world.tick, floor, inputBuffer, registry.sessionPlayers[sessionId]);
    }

    /** One tick. Returns the snapshot, the floor, and the bytes that every session gets. */
    method Step() returns (snapshot: Baseline<F>, targetTickFloor: nat, snapshotBytes: seq<Byte>)
      requires Valid() && world.tick + 1 + config.inputLeadTicks < 0x1_0000_0000_0000_0000
      modifies this, world, inputBuffer, replayRecorder
      ensures Valid()
      ensures history == old(history) + [Event.Step]
      ensures state == StepServer(ar, old(state))
      ensures snapshot == BaselineOf(ar, world.State()) && targetTickFloor == world.tick + config.inputLeadTicks
      ensures FitsSnapshot(SnapshotOf(snapshot, targetTickFloor))
      ensures snapshotBytes == SnapshotBytes(ar, SnapshotOf(snapshot, targetTickFloor))
      ensures Announces(ar, snapshotBytes, world.State(), world.tick + config.inputLeadTicks)
      ensures StepSends(config, old(history), snapshotBytes)
    {
      RunNext(ar, config, history, state, Event<F>.Step);
      snapshot, targetTickFloor := StepTick();
      history := history + [Event<F>.Step];
      StepSays(ar, config, old(history), state, SnapshotOf(snapshot, targetTickFloor));
      snapshotBytes := SnapshotBytes(ar, SnapshotOf(snapshot, targetTickFloor));
    }

    method StepTick() returns (snapshot: Baseline<F>, targetTickFloor: nat)
      requires Matches() && world.tick + 1 + config.inputLeadTicks < 0x1_0000_0000_0000_0000
      modifies this`baselineRecorded, this`lastKnownIntent, this`lastEmittedFloor, this`state, world, inputBuffer, replayRecorder
      ensures Matches()
      ensures state == StepServer(ar, old(state))
      ensures snapshot == BaselineOf(ar, world.State()) && targetTickFloor == world.tick + config.inputLeadTicks
    {
      ghost var s := state;
      ghost var c := Collect(ar, s.entries, s.lastKnownIntent, s.world.tick, s.registry.entitySpawnOrder);
      var applied := GatherInputs();
      assert Collected(inputBuffer.buffer, lastKnownIntent, applied) == c;
      snapshot, targetTickFloor := CommitTick(applied);
      assert targetTickFloor == NextFloor(s);
      StepOutcome(ar, s, c);
      state := StepServer(ar, s);
    }

    /** The first half of `step`: decide and record what every player does this tick. */
    method GatherInputs() returns (applied: seq<AppliedInput<F>>)
      requires world.Valid() && world.ar == ar
      modifies this`baselineRecorded, this`lastKnownIntent, inputBuffer, replayRecorder
      ensures baselineRecorded
      ensures Collected(inputBuffer.buffer, lastKnownIntent, applied)
           == Collect(ar, old(inputBuffer.buffer), old(lastKnownIntent), world.tick, registry.entitySpawnOrder)
      ensures replayRecorder.State() == Recording(ar, old(replayRecorder.State()), old(baselineRecorded), world.State(), applied)
    {
      RecordBaselineOnce();
      applied := CollectInputs(world.tick);
      RecordAll(applied);
    }

    /** The second half of `step`: advance the world, raise the floors, evict old inputs. */
    method CommitTick(applied: seq<AppliedInput<F>>) returns (snapshot: Baseline<F>, floor: nat)
      requires world.Valid() && world.tick + 1 < 0x1_0000_0000_0000_0000
      modifies this`lastEmittedFloor, world, inputBuffer
      ensures world.Valid() && floor == world.tick + config.inputLeadTicks
      ensures world.State() == Advance(world.ar, old(world.State()), SortedStepInputs(applied))
      ensures snapshot == BaselineOf(world.ar, world.State())
      ensures lastEmittedFloor == RaiseFloors(old(lastEmittedFloor), registry.sessions.Keys, floor)
      ensures inputBuffer.buffer == EvictBefore(old(inputBuffer.buffer), world.tick)
    {
      snapshot := AdvanceWorld(world.tick, applied);
      floor := world.tick + config.inputLeadTicks;
      EmitFloor(floor);
      inputBuffer.EvictBeforeTick(world.tick);
    }

    method RecordBaselineOnce()
      requires world.Valid() && world.ar == ar
      modifies this`baselineRecorded, replayRecorder
      ensures baselineRecorded && replayRecorder.State() == WithBaseline(ar, old(replayRecorder.State()), old(baselineRecorded), world.State())
    {
      if !baselineRecorded {
        baselineRecorded := true;
        var baseline := world.CurrentBaseline();
        replayRecorder.RecordBaseline(baseline);
      }
    }

    method AdvanceWorld(tick: nat, applied: seq<AppliedInput<F>>) returns (snapshot: Baseline<F>)
      requires world.Valid() && world.tick == tick && tick + 1 < 0x1_0000_0000_0000_0000
      modifies world
      ensures world.Valid()
      ensures world.State() == Advance(world.ar, old(world.State()), SortedStepInputs(applied))
      ensures snapshot == BaselineOf(world.ar, world.State())
    {
      var stepInputs := Map(StepInputOf, applied);
      SortBySorts(PlayerKey, stepInputs);
      stepInputs := SortBy(PlayerKey, stepInputs);
      snapshot := world.AdvanceTick(tick, stepInputs);
    }

    /** The per-player loop of `step`: take the buffered input or fall back, and remember the intent. */
    method CollectInputs(tick: nat) returns (applied: seq<AppliedInput<F>>)
      modifies this`lastKnownIntent, inputBuffer
      ensures Collected(inputBuffer.buffer, lastKnownIntent, applied)
           == Collect(ar, old(inputBuffer.buffer), old(lastKnownIntent), tick, registry.entitySpawnOrder)
    {
      applied := [];
      var players := registry.entitySpawnOrder;
      var i := 0;
      while i < |players|
        invariant 0 <= i <= |players|
        invariant Collected(inputBuffer.buffer, lastKnownIntent, applied)
               == Collect(ar, old(inputBuffer.buffer), old(lastKnownIntent), tick, players[..i])
      {
        var playerId := players[i];
        var cmd := inputBuffer.TakeInput(playerId, tick);
        var moveDir, isFallback;
        if cmd.Some? {
          moveDir := if |cmd.value.moveDir| == 2 then Vec2(cmd.value.moveDir[0], cmd.value.moveDir[1]) else ar.Origin();
          isFallback := false;
        } else {
          moveDir := if playerId in lastKnownIntent then lastKnownIntent[playerId] else ar.Origin();
          isFallback := true;
        }
        lastKnownIntent := lastKnownIntent[playerId := moveDir];
        applied := applied + [AppliedInput(tick, playerId, moveDir, isFallback)];
        assert players[..i + 1][..i] == players[..i];
        i := i + 1;
      }
      assert players[..i] == players;
    }

    method RecordAll(applied: seq<AppliedInput<F>>)
      modifies replayRecorder
      ensures replayRecorder.State() == old(replayRecorder.State()).(inputs := old(replayRecorder.inputs) + applied)
    {
      var i := 0;
      while i < |applied|
        invariant 0 <= i <= |applied|
        invariant replayRecorder.State() == old(replayRecorder.State()).(inputs := old(replayRecorder.inputs) + applied[..i])
      {
        replayRecorder.RecordInput(applied[i]);
        i := i + 1;
      }
      assert applied[..i] == applied;
    }

    /** Update the floor of every live session, in whatever order the table yields them. */
    method EmitFloor(floor: nat)
      modifies this`lastEmittedFloor
      ensures lastEmittedFloor == RaiseFloors(old(lastEmittedFloor), registry.sessions.Keys, floor)
    {
      var todo := registry.sessions.Keys;
      while todo != {}
        invariant todo <= registry.sessions.Keys
        invariant lastEmittedFloor == RaiseFloors(old(lastEmittedFloor), registry.sessions.Keys - todo, floor)
      {
        var sid :| sid in todo;
        RaiseOne(old(lastEmittedFloor), registry.sessions.Keys, todo, sid, floor);
        lastEmittedFloor := lastEmittedFloor[sid := floor];
        todo := todo - {sid};
      }
    }

    /** The artifact of the match, and exactly when its own verifier accepts it. */
    method FinalizeMatch() returns (artifact: ReplayArtifact<F>)
      requires Valid()
      ensures artifact == Finalize(ar, state)
      ensures forall options: VerifyOptions :: Verify(ar, artifact, options).Ok? <==> CleanRun(config, history, options)
    {
      artifact := ProduceArtifact();
      forall options: VerifyOptions ensures Verify(ar, artifact, options).Ok? <==> CleanRun(config, history, options) {
        VerifyExact(ar, config, history, options);
      }
    }

    method ProduceArtifact() returns (artifact: ReplayArtifact<F>)
      requires Matches()
      ensures artifact == Finalize(ar, state)
    {
      var finalDigest := world.CurrentDigest();
      artifact := replayRecorder.Finalize(ar, finalDigest, world.tick, "complete");
    }
  }

  lemma RaiseOne(floors: map<SessionId, nat>, sids: set<SessionId>, todo: set<SessionId>, sid: SessionId, floor: nat)
    requires todo <= sids && sid in todo
    ensures RaiseFloors(floors, sids - (todo - {sid}), floor) == RaiseFloors(floors, sids - todo, floor)[sid := floor]
  {
    assert sids - (todo - {sid}) == (sids - todo) + {sid};
  }

  /** What the bytes of a step say. */
  lemma StepSays<F>(ar: Arith<F>, config: ServerConfig, evs: seq<Event<F>>, s: ServerState<F>, m: ServerModel.SnapshotProto<F>)
    requires config.tickRateHz > 0 && Run(ar, config, evs + [Event.Step]) == Some(s) && IsWord(s.world.tick + config.inputLeadTicks)
    requires m == Broadcast(ar, s.world, s.world.tick + config.inputLeadTicks)
    ensures FitsSnapshot(m)
    ensures Announces(ar, SnapshotBytes(ar, m), s.world, s.world.tick + config.inputLeadTicks)
    ensures StepSends(config, evs, SnapshotBytes(ar, m))
  {
    TickCountsSteps(ar, config, evs + [Event.Step]);
    LastOf(evs, Event<F>.Step);
    RunSends(ar, config, evs, s.world);
  }

  lemma LiveNow<F>(ar: Arith<F>, config: ServerConfig, evs: seq<Event<F>>, s: ServerState<F>, sid: SessionId)
    requires config.tickRateHz > 0 && Run(ar, config, evs) == Some(s)
    ensures sid in s.registry.sessions <==> Live(evs, sid)
    ensures s.world.tick == Steps(evs)
  {
    RunKeepsInvariant(ar, config, evs);
  }

  lemma TickCountsSteps<F>(ar: Arith<F>, config: ServerConfig, evs: seq<Event<F>>)
    requires Legal(ar, config, evs)
    ensures After(ar, config, evs).world.tick == Steps(evs)
  {
    RunKeepsInvariant(ar, config, evs);
  }

  /** One more event takes the run's state where `Apply` says. */
  lemma RunNext<F>(ar: Arith<F>, config: ServerConfig, evs: seq<Event<F>>, s: ServerState<F>, e: Event<F>)
    requires config.tickRateHz > 0 && Run(ar, config, evs) == Some(s) && Enabled(s, e)
    ensures Run(ar, config, evs + [e]) == Some(Apply(ar, s, e))
  {
    RunExtends(ar, config, evs, e);
  }
}
