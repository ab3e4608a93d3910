/** What `ClosedLoop` says was sent is what a client reads in the bytes of the messages. */
module SentMessages {
  import opened Words
  import opened Float64
  import opened Simulation
  import opened ServerModel
  import opened ServerRuns
  import opened WireFormat
  import opened ServerWire
  import opened Client
  import opened ClosedLoop
  import W = WireMessages

  /** The tick and the floor that a client reads in a snapshot's bytes. */
  ghost function SnapshotSeen(bytes: seq<Byte>): Seen
    requires W.Readable(W.SnapshotTyped, bytes)
  {
    var m := W.Decode(W.SnapshotAssign, W.EMPTY_SNAPSHOT, bytes);
    Seen(Pattern(m.tick), Pattern(m.targetTickFloor))
  }

  /** The floor that a client reads in a welcome's bytes. */
  ghost function WelcomeFloor(bytes: seq<Byte>): nat
    requires W.Readable(W.WelcomeTyped, bytes)
  {
    Pattern(W.Decode(W.WelcomeAssign, W.EMPTY_WELCOME, bytes).targetTickFloor)
  }

  /** The step put what its bytes hold on the list of every live session, and nothing on any other list. */
  ghost predicate StepSends<F>(config: ServerConfig, evs: seq<Event<F>>, bytes: seq<Byte>) {
    W.Readable(W.SnapshotTyped, bytes) && forall sid ::
      Sent(config, evs + [Event.Step], sid) == Sent(config, evs, sid) + if Live(evs, sid) then [SnapshotSeen(bytes)] else []
  }

  /** The welcome put its own floor on its session's list, and nothing on any other list. */
  ghost predicate WelcomeSends<F>(config: ServerConfig, evs: seq<Event<F>>, sid: SessionId, floor: nat) {
    forall other :: Sent(config, evs + [Welcome(sid)], other) == Sent(config, evs, other) + if other == sid then [Seen(Steps(evs), floor)] else []
  }

  lemma SentAtStep<F>(config: ServerConfig, evs: seq<Event<F>>, sid: SessionId, seen: Seen)
    requires seen == Seen(Steps(evs) + 1, Steps(evs) + 1 + config.inputLeadTicks)
    ensures Sent(config, evs + [Event.Step], sid) == Sent(config, evs, sid) + if Live(evs, sid) then [seen] else []
  {
    LastOf(evs, Event<F>.Step);
    if !Live(evs, sid) { assert Sent(config, evs, sid) + [] == Sent(config, evs, sid); }
  }

  /** A step's bytes and the lists of what was sent agree. */
  lemma StepSent<F>(ar: Arith<F>, config: ServerConfig, evs: seq<Event<F>>, w: WorldState<F>, bytes: seq<Byte>)
    requires w.tick == Steps(evs) + 1 && Announces(ar, bytes, w, w.tick + config.inputLeadTicks)
    ensures StepSends(config, evs, bytes)
  {
    var seen := SnapshotSeen(bytes);
    forall sid ensures Sent(config, evs + [Event.Step], sid) == Sent(config, evs, sid) + if Live(evs, sid) then [seen] else [] {
      SentAtStep(config, evs, sid, seen);
    }
  }

  lemma SentAtWelcome<F>(config: ServerConfig, evs: seq<Event<F>>, sid: SessionId, other: SessionId, seen: Seen)
    requires Live(evs, sid) && seen == Seen(Steps(evs), Steps(evs) + config.inputLeadTicks)
    ensures Sent(config, evs + [Welcome(sid)], other) == Sent(config, evs, other) + if other == sid then [seen] else []
  {
    LastOf(evs, Event<F>.Welcome(sid));
    if other != sid { assert Sent(config, evs, other) + [] == Sent(config, evs, other); }
  }

  /** So do a welcome's floor and the lists ... */
  lemma WelcomeSent<F>(config: ServerConfig, evs: seq<Event<F>>, sid: SessionId, floor: nat)
    requires Live(evs, sid) && floor == Steps(evs) + config.inputLeadTicks
    ensures WelcomeSends(config, evs, sid, floor)
  {
    var seen := Seen(Steps(evs), floor);
    forall other ensures Sent(config, evs + [Welcome(sid)], other) == Sent(config, evs, other) + if other == sid then [seen] else [] {
      SentAtWelcome(config, evs, sid, other, seen);
    }
  }

  /** ... and its bytes. */
  lemma WelcomeFloorArrives(m: ServerWelcome)
    requires FitsWelcome(m)
    ensures
      var bytes := Serialize(W.WelcomeFields(WireWelcome(m)));
      W.Readable(W.WelcomeTyped, bytes) && WelcomeFloor(bytes) == m.targetTickFloor
  {
    WelcomeReachesClient(m);
  }

  /**
   In every run: the bytes a step broadcasts announce the world and its floor, and they are
   what the lists of `Sent`, from which the client's floor is computed, say was sent.
   */
  lemma RunSends<F>(ar: Arith<F>, config: ServerConfig, evs: seq<Event<F>>, w: WorldState<F>)
    requires Legal(ar, config, evs + [Event.Step]) && w == After(ar, config, evs + [Event.Step]).world
    requires IsWord(Steps(evs) + 1 + config.inputLeadTicks)
    ensures FitsSnapshot(Broadcast(ar, w, w.tick + config.inputLeadTicks))
    ensures Announces(ar, SnapshotBytes(ar, Broadcast(ar, w, w.tick + config.inputLeadTicks)), w, w.tick + config.inputLeadTicks)
    ensures StepSends(config, evs, SnapshotBytes(ar, Broadcast(ar, w, w.tick + config.inputLeadTicks)))
  {
    LastOf(evs, Event<F>.Step);
    var floor := w.tick + config.inputLeadTicks;
    ReachableNumbers(ar, config, evs + [Event.Step], w);
    BroadcastAnnounces(ar, w, floor);
    StepSent(ar, config, evs, w, SnapshotBytes(ar, Broadcast(ar, w, floor)));
  }
}
