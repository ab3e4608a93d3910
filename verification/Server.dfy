/**
 The server edge as a state machine.

 A run is a list of events; `Apply` says what each event does to the server's state.
 The class `Server` (in ServerEdge.dfy) carries its own run as a ghost history and is
 proved to follow `Apply`, so every theorem about runs is a theorem about servers.
 */
module ServerModel {
  import opened Wrappers
  import opened Words
  import opened Sequences
  import opened Float64
  import opened Simulation
  import opened InputBuffering
  import opened Validation
  import opened Replay
  import opened Verdicts

  type SessionId = nat

  datatype Session = Session(id: SessionId, playerId: PlayerId, controlledEntityId: nat)

  datatype ServerConfig = ServerConfig(
    seed: nat,
    tickRateHz: nat,
    maxFutureTicks: nat,
    inputLeadTicks: nat,
    inputRateLimitPerSec: nat,
    matchDurationTicks: nat,
    maxSessions: nat,
    testMode: bool,
    testPlayerIds: Option<seq<PlayerId>>)
  {
    function ToValidation(): ValidationConfig { ValidationConfig(maxFutureTicks, inputRateLimitPerSec, tickRateHz) }

    function ToReplay(): ReplayConfig {
      ReplayConfig(seed, tickRateHz, "none", testMode, if testPlayerIds.Some? then testPlayerIds.value else [])
    }

    function Limit(): nat
      requires tickRateHz > 0
    {
      PerTickLimit(ToValidation())
    }
  }

  /** `ServerConfig::default()`. */
  const DEFAULTS: ServerConfig := ServerConfig(0, 30, 60, 1, 120, 1800, 16, false, None)

  datatype ServerWelcome = ServerWelcome(targetTickFloor: nat, tickRateHz: nat, playerId: nat, controlledEntityId: nat)

  datatype SnapshotProto<F> = SnapshotProto(tick: nat, entities: seq<EntitySnapshotProto<F>>, digest: U64, targetTickFloor: nat)

  /** The session tables. */
  datatype Registry = Registry(
    sessions: map<SessionId, Session>,
    nextSessionId: SessionId,
    nextPlayerId: nat,
    playerSessions: map<PlayerId, SessionId>,
    sessionPlayers: map<SessionId, PlayerId>,
    entitySpawnOrder: seq<PlayerId>,
    playerEntityMapping: map<PlayerId, nat>)
  {
    function Enter(p: PlayerId, entity: nat): Registry {
      var sid := nextSessionId;
      Registry(sessions[sid := Session(sid, p, entity)], sid + 1, nextPlayerId + 1, playerSessions[p := sid],
               sessionPlayers[sid := p], entitySpawnOrder + [p], playerEntityMapping[p := entity])
    }

    function Leave(sid: SessionId): Registry
      requires sid in sessions
    {
      this.(sessions := sessions - {sid},
            playerSessions := playerSessions - {sessions[sid].playerId},
            sessionPlayers := sessionPlayers - {sid})
    }
  }

  datatype ServerState<F> = ServerState(
    config: ServerConfig,
    world: WorldState<F>,
    registry: Registry,
    entries: Entries<F>,
    lastKnownIntent: map<PlayerId, Vec2<F>>,
    lastEmittedFloor: map<SessionId, nat>,
    recorder: RecorderState<F>,
    baselineRecorded: bool)

  datatype Event<F> =
    | Accept
    | Welcome(session: SessionId)
    | Disconnect(session: SessionId)
    | Receive(session: SessionId, cmd: InputCmd<F>)
    | Step
    | SetFingerprint(fingerprint: BuildFingerprint)

  function NewServer<F>(ar: Arith<F>, config: ServerConfig): ServerState<F> {
    ServerState(config, NewWorld(ar, config.seed, config.tickRateHz), Registry(map[], 1, 0, map[], map[], [], map[]),
                map[], map[], map[], NewRecorder(config.ToReplay()), false)
  }

  // accept_session

  /** The player id of the n-th accept: the ordinal itself, or the n-th configured test id. */
  function AssignedId(config: ServerConfig, ordinal: nat): PlayerId
    requires ordinal < 255 && (config.testPlayerIds.Some? ==> ordinal < |config.testPlayerIds.value|)
  {
    if config.testPlayerIds.Some? then config.testPlayerIds.value[ordinal] else ordinal
  }

  /** `accept_session` panics at the session cap, on `u8` overflow, and when the test ids run out. */
  predicate CanAccept<F>(s: ServerState<F>) {
    && |s.registry.sessions| < s.config.maxSessions
    && s.registry.nextPlayerId < 255
    && (s.config.testPlayerIds.Some? ==> s.registry.nextPlayerId < |s.config.testPlayerIds.value|)
  }

  function RecordSpawn<F>(r: RecorderState<F>, p: PlayerId, entity: nat): RecorderState<F> {
    r.(entitySpawnOrder := r.entitySpawnOrder + [p], playerEntityMapping := r.playerEntityMapping + [(p, entity)])
  }

  function AcceptSession<F>(ar: Arith<F>, s: ServerState<F>): ServerState<F>
    requires CanAccept(s)
  {
    var p, entity := AssignedId(s.config, s.registry.nextPlayerId), s.world.nextEntityId;
    s.(world := Spawn(ar, s.world, p),
       registry := s.registry.Enter(p, entity),
       recorder := RecordSpawn(s.recorder, p, entity),
       lastKnownIntent := s.lastKnownIntent[p := ar.Origin()])
  }

  // welcome_for, disconnect_session, receive_input

  function WelcomeSession<F>(s: ServerState<F>, sid: SessionId): ServerState<F> {
    s.(lastEmittedFloor := s.lastEmittedFloor[sid := s.world.tick + s.config.inputLeadTicks])
  }

  function DisconnectSession<F>(ar: Arith<F>, s: ServerState<F>, sid: SessionId): ServerState<F> {
    if sid !in s.registry.sessions then s
    else
      s.(registry := s.registry.Leave(sid),
         lastEmittedFloor := s.lastEmittedFloor - {sid},
         lastKnownIntent := s.lastKnownIntent[s.registry.sessions[sid].playerId := ar.Origin()])
  }

  function FloorOf<F>(s: ServerState<F>, sid: SessionId): nat {
    if sid in s.lastEmittedFloor then s.lastEmittedFloor[sid] else 0
  }

  function Judge<F>(ar: Arith<F>, s: ServerState<F>, sid: SessionId, cmd: InputCmd<F>): (Entries<F>, ValidationResult)
    requires s.config.tickRateHz > 0
  {
    if sid !in s.registry.sessionPlayers then (s.entries, DroppedUnknownSession)
    else Validate(ar, s.config.Limit(), s.config.maxFutureTicks, s.entries, cmd, s.world.tick, FloorOf(s, sid), s.registry.sessionPlayers[sid])
  }

  function ReceiveFrom<F>(ar: Arith<F>, s: ServerState<F>, sid: SessionId, cmd: InputCmd<F>): ServerState<F>
    requires s.config.tickRateHz > 0
  {
    s.(entries := Judge(ar, s, sid, cmd).0)
  }

  /** The command passes every check but the rate limit. */
  predicate Heard<F>(ar: Arith<F>, s: ServerState<F>, sid: SessionId, cmd: InputCmd<F>) {
    sid in s.registry.sessionPlayers && Admissible(ar, cmd, s.world.tick, FloorOf(s, sid), s.config.maxFutureTicks)
  }

  /** A heard command reaches the buffer entry of its player and tick; any other changes nothing. */
  lemma ReceiveOutcome<F>(ar: Arith<F>, s: ServerState<F>, sid: SessionId, cmd: InputCmd<F>)
    requires s.config.tickRateHz > 0
    ensures !Heard(ar, s, sid, cmd) ==> ReceiveFrom(ar, s, sid, cmd) == s && !Judge(ar, s, sid, cmd).1.IsAccepted()
    ensures Heard(ar, s, sid, cmd) ==>
      var key := (s.registry.sessionPlayers[sid], cmd.tick);
      var r := Admit(ar, s.config.Limit(), Lookup(s.entries, key), cmd);
      && ReceiveFrom(ar, s, sid, cmd) == s.(entries := s.entries[key := r.0.value])
      && (Judge(ar, s, sid, cmd).1.IsAccepted() <==> r.1.Accepted?)
  {
  }

  function WithFingerprint<F>(s: ServerState<F>, f: BuildFingerprint): ServerState<F> {
    s.(recorder := s.recorder.(buildFingerprint := Some(f)))
  }

  // step

  /** The floor a step emits: the tick after the step plus the lead. */
  function NextFloor<F>(s: ServerState<F>): nat { s.world.tick + 1 + s.config.inputLeadTicks }

  datatype Collected<F> = Collected(entries: Entries<F>, intents: map<PlayerId, Vec2<F>>, applied: seq<AppliedInput<F>>)

  function IntentOf<F>(ar: Arith<F>, intents: map<PlayerId, Vec2<F>>, p: PlayerId): Vec2<F> {
    if p in intents then intents[p] else ar.Origin()
  }

  function Direction<F>(ar: Arith<F>, cmd: InputCmd<F>): Vec2<F> {
    if |cmd.moveDir| == 2 then Vec2(cmd.moveDir[0], cmd.moveDir[1]) else ar.Origin()
  }

  /** The player's input for the tick: the buffered selection, or else the last known intent. */
  function AppliedFor<F>(ar: Arith<F>, entries: Entries<F>, intents: map<PlayerId, Vec2<F>>, tick: nat, p: PlayerId): AppliedInput<F> {
    var taken := Selection(Lookup(entries, (p, tick)));
    if taken.Some? then AppliedInput(tick, p, Direction(ar, taken.value), false)
    else AppliedInput(tick, p, IntentOf(ar, intents, p), true)
  }

  function Collect<F>(ar: Arith<F>, entries: Entries<F>, intents: map<PlayerId, Vec2<F>>, tick: nat, players: seq<PlayerId>): Collected<F> {
    if players == [] then Collected(entries, intents, [])
    else
      var before := Collect(ar, entries, intents, tick, players[..|players| - 1]);
      var p := players[|players| - 1];
      var input := AppliedFor(ar, before.entries, before.intents, tick, p);
      Collected(before.entries - {(p, tick)}, before.intents[p := input.moveDir], before.applied + [input])
  }

  /** Every listed session gets the floor; other entries stay. */
  function RaiseFloors(floors: map<SessionId, nat>, sids: set<SessionId>, floor: nat): map<SessionId, nat> {
    floors + (map sid | sid in sids :: floor)
  }

  /** The first step ever taken records the baseline. */
  function WithBaseline<F>(ar: Arith<F>, r: RecorderState<F>, recorded: bool, w: WorldState<F>): RecorderState<F> {
    if recorded then r else r.(initialBaseline := Some(BaselineOf(ar, w)))
  }

  function Recording<F>(ar: Arith<F>, r: RecorderState<F>, recorded: bool, w: WorldState<F>, applied: seq<AppliedInput<F>>): RecorderState<F> {
    var baselined := WithBaseline(ar, r, recorded, w);
    baselined.(inputs := baselined.inputs + applied)
  }

  /** The inputs the next step applies, in spawn order. */
  function StepApplied<F>(ar: Arith<F>, s: ServerState<F>): seq<AppliedInput<F>> {
    Collect(ar, s.entries, s.lastKnownIntent, s.world.tick, s.registry.entitySpawnOrder).applied
  }

  function StepServer<F>(ar: Arith<F>, s: ServerState<F>): ServerState<F> {
    var c := Collect(ar, s.entries, s.lastKnownIntent, s.world.tick, s.registry.entitySpawnOrder);
    var world := Advance(ar, s.world, SortedStepInputs(c.applied));
    s.(baselineRecorded := true,
       recorder := Recording(ar, s.recorder, s.baselineRecorded, s.world, c.applied),
       lastKnownIntent := c.intents,
       world := world,
       lastEmittedFloor := RaiseFloors(s.lastEmittedFloor, s.registry.sessions.Keys, NextFloor(s)),
       entries := EvictBefore(c.entries, world.tick))
  }

  /** What a step does, field by field. */
  lemma StepOutcome<F>(ar: Arith<F>, s: ServerState<F>, c: Collected<F>)
    requires c == Collect(ar, s.entries, s.lastKnownIntent, s.world.tick, s.registry.entitySpawnOrder)
    ensures
      var t := StepServer(ar, s);
      && t.config == s.config && t.registry == s.registry && t.baselineRecorded
      && t.world == Advance(ar, s.world, SortedStepInputs(c.applied)) && t.world.tick == s.world.tick + 1
      && t.entries == EvictBefore(c.entries, t.world.tick) && t.lastKnownIntent == c.intents
      && t.recorder == Recording(ar, s.recorder, s.baselineRecorded, s.world, c.applied)
      && t.lastEmittedFloor == RaiseFloors(s.lastEmittedFloor, s.registry.sessions.Keys, NextFloor(s))
  {
  }

  // Runs.

  predicate Enabled<F>(s: ServerState<F>, e: Event<F>) {
    match e
    case Accept => CanAccept(s)
    case Welcome(sid) => sid in s.registry.sessions
    case _ => true
  }

  function Apply<F>(ar: Arith<F>, s: ServerState<F>, e: Event<F>): (r: ServerState<F>)
    requires s.config.tickRateHz > 0 && Enabled(s, e)
    ensures r.config == s.config
  {
    match e
    case Accept => AcceptSession(ar, s)
    case Welcome(sid) => WelcomeSession(s, sid)
    case Disconnect(sid) => DisconnectSession(ar, s, sid)
    case Receive(sid, cmd) => ReceiveFrom(ar, s, sid, cmd)
    case Step => StepServer(ar, s)
    case SetFingerprint(f) => WithFingerprint(s, f)
  }

  function Front<T>(xs: seq<T>): seq<T>
    requires xs != []
  {
    xs[..|xs| - 1]
  }

  function Last<T>(xs: seq<T>): T
    requires xs != []
  {
    xs[|xs| - 1]
  }

  /** The state after a run, if none of its events panics. */
  function Run<F>(ar: Arith<F>, config: ServerConfig, evs: seq<Event<F>>): (r: Option<ServerState<F>>)
    requires config.tickRateHz > 0
    ensures r.Some? ==> r.value.config == config
  {
    if evs == [] then Some(NewServer(ar, config))
    else
      var before := Run(ar, config, Front(evs));
      if before.None? || !Enabled(before.value, Last(evs)) then None else Some(Apply(ar, before.value, Last(evs)))
  }

  ghost predicate Legal<F>(ar: Arith<F>, config: ServerConfig, evs: seq<Event<F>>) {
    config.tickRateHz > 0 && Run(ar, config, evs).Some?
  }

  function After<F>(ar: Arith<F>, config: ServerConfig, evs: seq<Event<F>>): ServerState<F>
    requires Legal(ar, config, evs)
  {
    Run(ar, config, evs).value
  }

  lemma RunExtends<F>(ar: Arith<F>, config: ServerConfig, evs: seq<Event<F>>, e: Event<F>)
    requires Legal(ar, config, evs)
    ensures Legal(ar, config, evs + [e]) <==> Enabled(After(ar, config, evs), e)
    ensures Enabled(After(ar, config, evs), e) ==> After(ar, config, evs + [e]) == Apply(ar, After(ar, config, evs), e)
  {
    assert Front(evs + [e]) == evs && Last(evs + [e]) == e;
  }

  /** A nonempty run is its front followed by its last event. */
  lemma RunLast<F>(ar: Arith<F>, config: ServerConfig, evs: seq<Event<F>>)
    requires Legal(ar, config, evs) && evs != []
    ensures Legal(ar, config, Front(evs)) && After(ar, config, Front(evs)).config == config
    ensures Enabled(After(ar, config, Front(evs)), Last(evs))
    ensures After(ar, config, evs) == Apply(ar, After(ar, config, Front(evs)), Last(evs))
    ensures evs == Front(evs) + [Last(evs)]
  {
  }

  /** A step appends what it applies to the recorded inputs; no other event touches them. */
  lemma StepRecords<F>(ar: Arith<F>, s: ServerState<F>)
    ensures StepServer(ar, s).recorder.inputs == s.recorder.inputs + StepApplied(ar, s)
  {
  }

  lemma QuietInputs<F>(ar: Arith<F>, s: ServerState<F>, e: Event<F>)
    requires s.config.tickRateHz > 0 && Enabled(s, e) && !e.Step?
    ensures Apply(ar, s, e).recorder.inputs == s.recorder.inputs
  {
  }

  // finalize

  function Finalize<F>(ar: Arith<F>, s: ServerState<F>): ReplayArtifact<F> {
    Artifact(ar, s.recorder, StateDigest(ar, s.world), s.world.tick, "complete")
  }

  function SnapshotOf<F>(b: Baseline<F>, floor: nat): SnapshotProto<F> {
    SnapshotProto(b.tick, Map(EntityProto, b.entities), b.digest, floor)
  }
}
