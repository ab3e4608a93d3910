/**
 Commands before the welcome: the protocol asks the server to discard them, and the server
 relies on every accept being followed by its welcome at once.
 */
module Handshake {
  import opened Wrappers
  import opened Float64
  import opened InputBuffering
  import opened ServerModel
  import opened ServerRuns
  import opened InputTrace

  /** Session `sid` has been sent its welcome and has not left since. */
  predicate Welcomed<F>(evs: seq<Event<F>>, sid: SessionId) {
    evs != [] &&
    match Last(evs)
    case Welcome(other) => sid == other || Welcomed(Front(evs), sid)
    case Disconnect(other) => sid != other && Welcomed(Front(evs), sid)
    case _ => Welcomed(Front(evs), sid)
  }

  /** Only welcomed sessions get a command through to the buffer. */
  ghost predicate OnlyWelcomedHeard<F(!new)>(ar: Arith<F>, s: ServerState<F>, evs: seq<Event<F>>) {
    forall sid, cmd: InputCmd<F> :: Heard(ar, s, sid, cmd) ==> Welcomed(evs, sid)
  }

  /** The floor the session is held to leaves some tick of the window open. */
  predicate WindowOpen<F>(config: ServerConfig, evs: seq<Event<F>>, sid: SessionId) {
    !HasFloor(evs, sid) || config.inputLeadTicks <= config.maxFutureTicks
  }

  /** A command for the earliest tick the session may aim at. */
  function Earliest<F>(ar: Arith<F>, config: ServerConfig, evs: seq<Event<F>>, sid: SessionId): InputCmd<F> {
    InputCmd(Max(Steps(evs), FloorAt(config, evs, sid)), 1, [ar.Zero(), ar.Zero()])
  }

  /** A session is heard if it is live and its window is open, welcomed or not. */
  lemma HeardExact<F>(ar: Arith<F>, config: ServerConfig, evs: seq<Event<F>>, s: ServerState<F>, sid: SessionId, cmd: InputCmd<F>)
    requires s.config == config && s.world.tick == Steps(evs) && SessionInv(config, evs, s.registry) && FloorInv(config, evs, s)
    requires ar.IsFinite(ar.Zero())
    ensures Heard(ar, s, sid, cmd) ==> Live(evs, sid) && WindowOpen(config, evs, sid)
    ensures Live(evs, sid) && WindowOpen(config, evs, sid) ==> Heard(ar, s, sid, Earliest(ar, config, evs, sid))
  {
    assert FloorOf(s, sid) == FloorAt(config, evs, sid);
    assert sid in s.registry.sessionPlayers <==> Live(evs, sid);
  }

  /**
   The rule is kept, in any state a run reaches, exactly when every live session whose
   window is open has been welcomed.
   */
  lemma PreWelcomeExact<F(!new)>(ar: Arith<F>, config: ServerConfig, evs: seq<Event<F>>)
    requires Legal(ar, config, evs) && ar.IsFinite(ar.Zero())
    ensures OnlyWelcomedHeard(ar, After(ar, config, evs), evs) <==>
      (forall sid :: Live(evs, sid) && WindowOpen(config, evs, sid) ==> Welcomed(evs, sid))
  {
    var s := After(ar, config, evs);
    RunKeepsInvariant(ar, config, evs);
    forall sid | Live(evs, sid) && WindowOpen(config, evs, sid) ensures Heard(ar, s, sid, Earliest(ar, config, evs, sid)) {
      HeardExact(ar, config, evs, s, sid, Earliest(ar, config, evs, sid));
    }
    forall sid, cmd: InputCmd<F> | Heard(ar, s, sid, cmd) ensures Live(evs, sid) && WindowOpen(config, evs, sid) {
      HeardExact(ar, config, evs, s, sid, cmd);
    }
  }

  /** A session that was accepted and not welcomed yet has its command buffered. */
  lemma HeardTooEarly<F>(ar: Arith<F>)
    requires ar.IsFinite(ar.Zero())
    ensures Legal(ar, DEFAULTS, [Event.Accept]) && !Welcomed([Event<F>.Accept], 1)
    ensures Heard(ar, After(ar, DEFAULTS, [Event.Accept]), 1, InputCmd(0, 1, [ar.Zero(), ar.Zero()]))
  {
    assert Front([Event<F>.Accept]) == [] && Run(ar, DEFAULTS, []) == Some(NewServer(ar, DEFAULTS));
    assert CanAccept(NewServer(ar, DEFAULTS));
  }
}
