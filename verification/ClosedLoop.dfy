/**
 The loop between a session's client and the server over a lossy, duplicating,
 reordering channel: the client's floor is safe to target.
 */
module ClosedLoop {
  import opened Wrappers
  import opened Float64
  import opened InputBuffering
  import opened ServerModel
  import opened ServerRuns
  import opened Client

  /** Every floor a session was ever sent, with the tick it was sent at: welcomes and snapshots. */
  function Sent<F>(config: ServerConfig, evs: seq<Event<F>>, sid: SessionId): seq<Seen> {
    if evs == [] then []
    else
      var front := Front(evs);
      var before := Sent(config, front, sid);
      match Last(evs)
      case Welcome(other) =>
        if other == sid && Live(front, sid) then before + [Seen(Steps(front), Steps(front) + config.inputLeadTicks)] else before
      case Step =>
        if Live(front, sid) then before + [Seen(Steps(front) + 1, Steps(front) + 1 + config.inputLeadTicks)] else before
      case _ => before
  }

  /**
   The client and the server together. A poll delivers any selection of what was sent, in
   any order and with any repetitions; a lost message is one that no poll selects.
   */
  datatype Joint<F> = Server(event: Event<F>) | Start(welcome: nat) | Poll(batch: seq<nat>)

  function ServerPart<F>(js: seq<Joint<F>>): seq<Event<F>> {
    if js == [] then []
    else
      var before := ServerPart(Front(js));
      if Last(js).Server? then before + [Last(js).event] else before
  }

  function Deliver(sent: seq<Seen>, batch: seq<nat>): seq<Option<Seen>> {
    seq(|batch|, i requires 0 <= i < |batch| => if batch[i] < |sent| then Some(sent[batch[i]]) else None)
  }

  /** What a poll does to the tracked floor: observe the newest snapshot only. */
  function ObserveLatest(floor: nat, events: seq<Option<Seen>>): nat {
    var latest := Latest(TickOf, events);
    if latest.Some? then Higher(floor, latest.value.floor) else floor
  }

  /** The client's floor, once it has been welcomed. */
  function ClientFloor<F>(config: ServerConfig, js: seq<Joint<F>>, sid: SessionId): Option<nat> {
    if js == [] then None
    else
      var before := ClientFloor(config, Front(js), sid);
      var sent := Sent(config, ServerPart(Front(js)), sid);
      match Last(js)
      case Server(_) => before
      case Start(i) => if before.None? && i < |sent| then Some(sent[i].floor) else before
      case Poll(batch) => if before.Some? then Some(ObserveLatest(before.value, Deliver(sent, batch))) else None
  }

  // What was sent.

  ghost predicate Genuine(lead: nat, now: nat, events: seq<Option<Seen>>) {
    forall i :: 0 <= i < |events| && events[i].Some? ==>
      events[i].value.floor == events[i].value.tick + lead && events[i].value.tick <= now
  }

  lemma {:induction false} SentFloors<F>(config: ServerConfig, evs: seq<Event<F>>, sid: SessionId)
    ensures forall i :: 0 <= i < |Sent(config, evs, sid)| ==>
      var m := Sent(config, evs, sid)[i];
      m.floor == m.tick + config.inputLeadTicks && m.tick <= Steps(evs)
  {
    if evs == [] {
    } else {
      SentFloors(config, Front(evs), sid);
    }
  }

  lemma DeliveredGenuine<F>(config: ServerConfig, evs: seq<Event<F>>, sid: SessionId, batch: seq<nat>)
    ensures Genuine(config.inputLeadTicks, Steps(evs), Deliver(Sent(config, evs, sid), batch))
  {
    SentFloors(config, evs, sid);
  }

  // Keeping the newest loses nothing.

  /** Observe every snapshot of a batch, one after the other. */
  function ObserveAll(floor: nat, events: seq<Option<Seen>>): nat {
    if events == [] then floor
    else
      var before := ObserveAll(floor, events[..|events| - 1]);
      var e := events[|events| - 1];
      if e.Some? then Higher(before, e.value.floor) else before
  }

  /** Since floors grow with ticks, observing the newest snapshot is observing all of them. */
  lemma {:induction false} LatestSuffices(lead: nat, now: nat, floor: nat, events: seq<Option<Seen>>)
    requires Genuine(lead, now, events)
    ensures ObserveLatest(floor, events) == ObserveAll(floor, events)
    ensures Latest(TickOf, events).Some? ==> Latest(TickOf, events).value.floor == Latest(TickOf, events).value.tick + lead
  {
    if events == [] {
    } else {
      var n := |events| - 1;
      assert forall i :: 0 <= i < n ==> events[..n][i] == events[i];
      LatestSuffices(lead, now, floor, events[..n]);
    }
  }

  lemma {:induction false} ObserveBounded(lead: nat, now: nat, floor: nat, events: seq<Option<Seen>>)
    requires Genuine(lead, now, events) && floor <= now + lead
    ensures floor <= ObserveAll(floor, events) <= now + lead
  {
    if events == [] {
    } else {
      var n := |events| - 1;
      assert forall i :: 0 <= i < n ==> events[..n][i] == events[i];
      ObserveBounded(lead, now, floor, events[..n]);
    }
  }

  lemma PollBounded<F>(config: ServerConfig, evs: seq<Event<F>>, sid: SessionId, floor: nat, batch: seq<nat>)
    requires floor <= Steps(evs) + config.inputLeadTicks
    ensures
      var next := ObserveLatest(floor, Deliver(Sent(config, evs, sid), batch));
      floor <= next <= Steps(evs) + config.inputLeadTicks
  {
    var events := Deliver(Sent(config, evs, sid), batch);
    DeliveredGenuine(config, evs, sid, batch);
    LatestSuffices(config.inputLeadTicks, Steps(evs), floor, events);
    ObserveBounded(config.inputLeadTicks, Steps(evs), floor, events);
  }

  /** The client is never ahead of the tick and lead the server stands at. */
  lemma {:induction false} ClientBehindServer<F>(config: ServerConfig, js: seq<Joint<F>>, sid: SessionId)
    ensures
      var f := ClientFloor(config, js, sid);
      f.Some? ==> f.value <= Steps(ServerPart(js)) + config.inputLeadTicks
  {
    if js == [] {
    } else {
      var front, evs := Front(js), ServerPart(Front(js));
      ClientBehindServer(config, front, sid);
      match Last(js) {
        case Server(e) => LastOf(evs, e);
        case Start(i) => SentFloors(config, evs, sid);
        case Poll(batch) =>
          var f := ClientFloor(config, front, sid);
          if f.Some? { PollBounded(config, evs, sid, f.value, batch); }
      }
    }
  }

  /** The client's floor never falls, and never leaves once there. */
  lemma {:induction false} ClientMonotone<F>(config: ServerConfig, js: seq<Joint<F>>, more: seq<Joint<F>>, sid: SessionId)
    requires ClientFloor(config, js, sid).Some?
    ensures ClientFloor(config, js + more, sid).Some?
    ensures ClientFloor(config, js, sid).value <= ClientFloor(config, js + more, sid).value
  {
    if more == [] {
      assert js + more == js;
    } else {
      var front, e := js + Front(more), Last(more);
      assert js + more == front + [e];
      assert Front(front + [e]) == front && Last(front + [e]) == e;
      ClientMonotone(config, js, Front(more), sid);
      ClientBehindServer(config, front, sid);
      if e.Poll? {
        PollBounded(config, ServerPart(front), sid, ClientFloor(config, front, sid).value, e.batch);
      }
    }
  }

  /**
   Floor safety. While its session has a floor on record, the client's floor is at most
   that floor, whatever the channel lost, repeated or reordered; and a poll that keeps
   only the newest snapshot leaves the same floor as one that takes in every snapshot.
   */
  lemma FloorSafety<F>(ar: Arith<F>, config: ServerConfig, js: seq<Joint<F>>, sid: SessionId)
    requires Legal(ar, config, ServerPart(js)) && ClientFloor(config, js, sid).Some?
    ensures
      var s, f := After(ar, config, ServerPart(js)), ClientFloor(config, js, sid).value;
      && (sid in s.lastEmittedFloor ==> f <= s.lastEmittedFloor[sid])
      && forall batch :: ObserveLatest(f, Deliver(Sent(config, ServerPart(js), sid), batch))
                      == ObserveAll(f, Deliver(Sent(config, ServerPart(js), sid), batch))
  {
    RunKeepsInvariant(ar, config, ServerPart(js));
    ClientBehindServer(config, js, sid);
    forall batch ensures ObserveLatest(ClientFloor(config, js, sid).value, Deliver(Sent(config, ServerPart(js), sid), batch))
                      == ObserveAll(ClientFloor(config, js, sid).value, Deliver(Sent(config, ServerPart(js), sid), batch)) {
      DeliveredGenuine(config, ServerPart(js), sid, batch);
      LatestSuffices(config.inputLeadTicks, Steps(ServerPart(js)), ClientFloor(config, js, sid).value,
        Deliver(Sent(config, ServerPart(js), sid), batch));
    }
  }

  lemma BelowFloor<F>(ar: Arith<F>, s: ServerState<F>, sid: SessionId, cmd: InputCmd<F>)
    requires s.config.tickRateHz > 0 && Judge(ar, s, sid, cmd).1.DroppedBelowFloor?
    ensures sid in s.lastEmittedFloor && cmd.tick < s.lastEmittedFloor[sid]
  {
  }

  /** What was sent stays sent. */
  lemma {:induction false} SentGrows<F>(config: ServerConfig, evs: seq<Event<F>>, e: Event<F>, sid: SessionId)
    ensures forall m :: m in Sent(config, evs, sid) ==> m in Sent(config, evs + [e], sid)
  {
    LastOf(evs, e);
  }

  lemma {:induction false} LatestDelivered(sent: seq<Seen>, batch: seq<nat>)
    ensures
      var latest := Latest(TickOf, Deliver(sent, batch));
      latest.Some? ==> latest.value in sent
  {
    LatestIsFirstGreatest(TickOf, Deliver(sent, batch));
  }

  /** A client's floor is one that the server sent it. */
  lemma {:induction false} FloorWasSent<F>(config: ServerConfig, js: seq<Joint<F>>, sid: SessionId) returns (m: Seen)
    requires ClientFloor(config, js, sid).Some?
    ensures m in Sent(config, ServerPart(js), sid) && m.floor == ClientFloor(config, js, sid).value
  {
    var front, evs := Front(js), ServerPart(Front(js));
    var before := ClientFloor(config, front, sid);
    if before.Some? { m := FloorWasSent(config, front, sid); }
    match Last(js) {
      case Server(e) =>
        SentGrows(config, evs, e, sid);
      case Start(i) =>
        if before.None? { m := Sent(config, evs, sid)[i]; }
      case Poll(batch) =>
        var events := Deliver(Sent(config, evs, sid), batch);
        LatestDelivered(Sent(config, evs, sid), batch);
        if Latest(TickOf, events).Some? && Latest(TickOf, events).value.floor > before.value {
          m := Latest(TickOf, events).value;
        }
    }
  }

  /**
   A command targeted with the client's floor and rejected as below the floor was sent
   while the client knew a strictly lower floor than the server had when it arrived. That
   lower floor was sent at a tick before the server's: it has stepped since.
   */
  lemma RejectedWasStale<F>(
    ar: Arith<F>, config: ServerConfig, js: seq<Joint<F>>, more: seq<Joint<F>>, sid: SessionId, desired: nat, cmd: InputCmd<F>)
    returns (m: Seen)
    requires Legal(ar, config, ServerPart(js + more)) && ClientFloor(config, js, sid).Some?
    requires cmd.tick == TargetTick(ClientFloor(config, js, sid).value, desired)
    ensures m in Sent(config, ServerPart(js), sid) && ClientFloor(config, js, sid).value == m.floor == m.tick + config.inputLeadTicks
    ensures
      var s := After(ar, config, ServerPart(js + more));
      Judge(ar, s, sid, cmd).1.DroppedBelowFloor? ==>
        && sid in s.lastEmittedFloor && s.lastEmittedFloor[sid] == s.world.tick + config.inputLeadTicks
        && ClientFloor(config, js, sid).value < s.lastEmittedFloor[sid]
        && desired < s.lastEmittedFloor[sid]
        && m.tick < s.world.tick
  {
    m := FloorWasSent(config, js, sid);
    SentFloors(config, ServerPart(js), sid);
    RejectedBelow(ar, config, ServerPart(js + more), sid, cmd);
  }

  lemma RejectedBelow<F>(ar: Arith<F>, config: ServerConfig, evs: seq<Event<F>>, sid: SessionId, cmd: InputCmd<F>)
    requires Legal(ar, config, evs)
    ensures
      var s := After(ar, config, evs);
      Judge(ar, s, sid, cmd).1.DroppedBelowFloor? ==>
        sid in s.lastEmittedFloor && cmd.tick < s.lastEmittedFloor[sid] == s.world.tick + config.inputLeadTicks
  {
    var s := After(ar, config, evs);
    RunKeepsInvariant(ar, config, evs);
    if Judge(ar, s, sid, cmd).1.DroppedBelowFloor? { BelowFloor(ar, s, sid, cmd); }
  }
}
