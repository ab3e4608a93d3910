/**
 What a disconnect does to the departed player's inputs.

 A disconnect clears the player's intent but leaves its buffered commands in place.
 `IdleExact` says which buffers make every continuation apply zero intents only; what
 that means for the character is in Frozen.dfy.
 */
module Freeze {
  import opened Wrappers
  import opened Sequences
  import opened Float64
  import opened Simulation
  import opened InputBuffering
  import opened Replay
  import opened ServerModel
  import opened ServerRuns
  import opened RecordThenVerify
  import opened InputTrace
  import opened Interference

  /** No two sessions will ever share a player id. */
  ghost predicate UnsharedIds(config: ServerConfig) {
    config.testPlayerIds.None? || Distinct(config.testPlayerIds.value)
  }

  /** No buffered command of the player would move it: each is tied or asks for no motion. */
  ghost predicate Silent<F>(ar: Arith<F>, entries: Entries<F>, p: PlayerId) {
    forall k :: k in entries && k.0 == p ==>
      var taken := Selection(Some(entries[k]));
      taken.Some? ==> Direction(ar, taken.value) == ar.Origin()
  }

  /** Every input applied for the player between the two runs is zero. */
  ghost predicate IdleSince<F>(ar: Arith<F>, config: ServerConfig, gone: seq<Event<F>>, more: seq<Event<F>>, p: PlayerId)
    requires Legal(ar, config, gone) && Legal(ar, config, gone + more)
  {
    var before := InputsOf(After(ar, config, gone).recorder.inputs, p);
    IdleFrom(ar, InputsOf(After(ar, config, gone + more).recorder.inputs, p), |before|)
  }

  ghost predicate IdleFrom<F>(ar: Arith<F>, inputs: seq<AppliedInput<F>>, n: nat) {
    n <= |inputs| && forall i :: n <= i < |inputs| ==> inputs[i].moveDir == ar.Origin()
  }

  ghost predicate AlwaysIdle<F(!new)>(ar: Arith<F>, config: ServerConfig, gone: seq<Event<F>>, p: PlayerId)
    requires Legal(ar, config, gone)
  {
    forall more: seq<Event<F>> :: Legal(ar, config, gone + more) ==> IdleSince(ar, config, gone, more, p)
  }

  // After the session has left.

  /** The history of a departed session's player is closed: nothing more is offered for it. */
  ghost predicate Departed<F>(ar: Arith<F>, config: ServerConfig, evs: seq<Event<F>>, now: seq<Event<F>>, sid: SessionId)
    requires sid >= 1
  {
    && !Live(now, sid) && Joins(now) >= Joins(evs) && Steps(now) >= Steps(evs)
    && SameOffers(ar, config, evs, now, IdAt(config, sid - 1))
  }

  ghost predicate SameOffers<F>(ar: Arith<F>, config: ServerConfig, evs: seq<Event<F>>, now: seq<Event<F>>, p: PlayerId) {
    forall t :: Offered(ar, config, now, p, t) == Offered(ar, config, evs, p, t)
  }

  lemma LeaveDeparts<F>(ar: Arith<F>, config: ServerConfig, evs: seq<Event<F>>, sid: SessionId)
    requires sid >= 1
    ensures Departed(ar, config, evs, evs + [Disconnect(sid)], sid)
  {
    LastOf(evs, Disconnect(sid));
  }

  lemma StayDeparted<F>(ar: Arith<F>, config: ServerConfig, evs: seq<Event<F>>, now: seq<Event<F>>, sid: SessionId, e: Event<F>, n: nat)
    requires 1 <= sid <= Joins(evs) && Departed(ar, config, evs, now, sid)
    requires Enrollable(config, n) && Distinct(Roster(config, n)) && Joins(now) <= n
    ensures Departed(ar, config, evs, now + [e], sid)
  {
    LastOf(now, e);
    var p := IdAt(config, sid - 1);
    forall t ensures Offered(ar, config, now + [e], p, t) == Offered(ar, config, evs, p, t) {
      if Offers(ar, config, now, e, p, t) {
        SolePlayer(config, now, sid, n, e.session);
      }
    }
  }

  /** What a departed player does on a tick. */
  lemma DepartedApplies<F>(ar: Arith<F>, config: ServerConfig, evs: seq<Event<F>>, now: seq<Event<F>>, sid: SessionId, entries: Entries<F>)
    requires config.tickRateHz > 0 && sid >= 1 && Departed(ar, config, evs, now, sid) && EntriesInv(ar, config, evs, entries)
    ensures
      var p := IdAt(config, sid - 1);
      var taken := Selection(Lookup(entries, (p, Steps(now))));
      AppliedAt(ar, config, now, p).moveDir ==
        if taken.Some? then Direction(ar, taken.value) else PriorIntent(ar, config, now, p)
  {
    SelectionMeetsSpec(ar, config.Limit(), Offered(ar, config, evs, IdAt(config, sid - 1), Steps(now)));
  }

  /** A departed player of a silent buffer never moves again, and its trace grows by zeros. */
  ghost predicate AtRest<F>(ar: Arith<F>, config: ServerConfig, gone: seq<Event<F>>, now: seq<Event<F>>, sid: SessionId)
    requires config.tickRateHz > 0 && sid >= 1
  {
    && PriorIntent(ar, config, now, IdAt(config, sid - 1)) == ar.Origin()
    && IdleFrom(ar, PlayerTrace(ar, config, now, sid - 1), |PlayerTrace(ar, config, gone, sid - 1)|)
  }

  lemma RestStep<F>(
    ar: Arith<F>, config: ServerConfig, evs: seq<Event<F>>, gone: seq<Event<F>>, now: seq<Event<F>>, sid: SessionId,
    e: Event<F>, entries: Entries<F>)
    requires config.tickRateHz > 0 && 1 <= sid <= Joins(evs)
    requires Departed(ar, config, evs, now, sid) && EntriesInv(ar, config, evs, entries) && Silent(ar, entries, IdAt(config, sid - 1))
    requires AtRest(ar, config, gone, now, sid)
    ensures AppliedAt(ar, config, now, IdAt(config, sid - 1)).moveDir == ar.Origin()
    ensures AtRest(ar, config, gone, now + [e], sid)
  {
    LastOf(now, e);
    DepartedApplies(ar, config, evs, now, sid, entries);
  }

  lemma {:induction false} SilentRests<F>(
    ar: Arith<F>, config: ServerConfig, evs: seq<Event<F>>, sid: SessionId, more: seq<Event<F>>, entries: Entries<F>)
    requires config.tickRateHz > 0 && 1 <= sid <= Joins(evs) && Live(evs, sid)
    requires EntriesInv(ar, config, evs, entries) && Silent(ar, entries, IdAt(config, sid - 1))
    requires DistinctPlayers(config, evs + [Disconnect(sid)] + more)
    ensures Departed(ar, config, evs, evs + [Disconnect(sid)] + more, sid)
    ensures AtRest(ar, config, evs + [Disconnect(sid)], evs + [Disconnect(sid)] + more, sid)
  {
    var gone := evs + [Disconnect(sid)];
    if more == [] {
      assert gone + more == gone;
      LastOf(evs, Disconnect(sid));
      LeaveDeparts(ar, config, evs, sid);
    } else {
      var front, e := Front(more), Last(more);
      var now := gone + front;
      assert gone + more == now + [e];
      LastOf(now, e);
      DistinctEarlier(config, gone + more);
      SilentRests(ar, config, evs, sid, front, entries);
      StayDeparted(ar, config, evs, now, sid, e, Joins(now));
      RestStep(ar, config, evs, gone, now, sid, e, entries);
    }
  }

  // A command left behind will be applied.

  /** The run continued by n steps and nothing else. */
  function StepOn<F>(evs: seq<Event<F>>, n: nat): seq<Event<F>>
    decreases n
  {
    if n == 0 then evs else StepOn(evs + [Event.Step], n - 1)
  }

  lemma {:induction false} StepOnExtends<F>(evs: seq<Event<F>>, n: nat) returns (more: seq<Event<F>>)
    ensures StepOn(evs, n) == evs + more
    decreases n
  {
    if n == 0 {
      more := [];
    } else {
      more := StepOnExtends(evs + [Event.Step], n - 1);
      assert evs + [Event.Step] + more == evs + ([Event.Step] + more);
      more := [Event.Step] + more;
    }
  }

  lemma {:induction false} StepOnCounts<F>(evs: seq<Event<F>>, n: nat)
    ensures Steps(StepOn(evs, n)) == Steps(evs) + n && Joins(StepOn(evs, n)) == Joins(evs)
    decreases n
  {
    if n == 0 {
    } else {
      LastOf(evs, Event<F>.Step);
      StepOnCounts(evs + [Event.Step], n - 1);
    }
  }

  lemma StepEnabled<F>(ar: Arith<F>, config: ServerConfig, evs: seq<Event<F>>, next: seq<Event<F>>)
    requires Legal(ar, config, evs) && next == evs + [Event.Step]
    ensures Legal(ar, config, next)
  {
    RunExtends(ar, config, evs, Event.Step);
  }

  /** What a step keeps, any number of steps keep. */
  lemma {:induction false} StepOnKeeps<F(!new)>(p: seq<Event<F>> -> bool, evs: seq<Event<F>>, n: nat)
    requires p(evs) && forall now: seq<Event<F>> :: p(now) ==> p(now + [Event.Step])
    ensures p(StepOn(evs, n))
    decreases n
  {
    if n == 0 {
    } else {
      StepOnKeeps(p, evs + [Event.Step], n - 1);
    }
  }

  lemma StepOnLegal<F(!new)>(ar: Arith<F>, config: ServerConfig, evs: seq<Event<F>>, n: nat)
    requires Legal(ar, config, evs)
    ensures Legal(ar, config, StepOn(evs, n))
  {
    var legal := (now: seq<Event<F>>) => Legal(ar, config, now);
    forall now: seq<Event<F>> | legal(now) ensures legal(now + [Event.Step]) {
      StepEnabled(ar, config, now, now + [Event.Step]);
    }
    StepOnKeeps(legal, evs, n);
    assert legal(StepOn(evs, n));
  }

  lemma {:induction false} StepOnDeparted<F>(ar: Arith<F>, config: ServerConfig, evs: seq<Event<F>>, gone: seq<Event<F>>, sid: SessionId, n: nat)
    requires 1 <= sid <= Joins(evs) && Departed(ar, config, evs, gone, sid) && DistinctPlayers(config, gone)
    ensures Departed(ar, config, evs, StepOn(gone, n), sid)
    decreases n
  {
    if n == 0 {
    } else {
      StayDeparted(ar, config, evs, gone, sid, Event.Step, Joins(gone));
      LastOf(gone, Event<F>.Step);
      StepOnDeparted(ar, config, evs, gone + [Event.Step], sid, n - 1);
    }
  }

  lemma {:induction false} StepOnTrace<F>(ar: Arith<F>, config: ServerConfig, evs: seq<Event<F>>, i: nat, n: nat)
    requires config.tickRateHz > 0
    ensures |PlayerTrace(ar, config, StepOn(evs, n), i)| >= |PlayerTrace(ar, config, evs, i)|
    decreases n
  {
    if n == 0 {
    } else {
      LastOf(evs, Event<F>.Step);
      StepOnTrace(ar, config, evs + [Event.Step], i, n - 1);
    }
  }

  lemma LastMoves<F>(ar: Arith<F>, config: ServerConfig, now: seq<Event<F>>, i: nat, n: nat)
    requires config.tickRateHz > 0 && i < Joins(now) && n <= |PlayerTrace(ar, config, now, i)|
    requires AppliedAt(ar, config, now, IdAt(config, i)).moveDir != ar.Origin()
    ensures !IdleFrom(ar, PlayerTrace(ar, config, now + [Event.Step], i), n)
  {
    LastOf(now, Event<F>.Step);
    var trace, last := PlayerTrace(ar, config, now, i), AppliedAt(ar, config, now, IdAt(config, i));
    assert PlayerTrace(ar, config, now + [Event.Step], i) == trace + [last];
    assert (trace + [last])[|trace|] == last;
  }

  /** What is offered to the departed player for one tick does not change while waiting. */
  lemma WaitOffers<F>(ar: Arith<F>, config: ServerConfig, evs: seq<Event<F>>, gone: seq<Event<F>>, sid: SessionId, wait: nat, t: nat)
    requires 1 <= sid <= Joins(evs) && Departed(ar, config, evs, gone, sid) && DistinctPlayers(config, gone)
    ensures Offered(ar, config, StepOn(gone, wait), IdAt(config, sid - 1), t) == Offered(ar, config, evs, IdAt(config, sid - 1), t)
  {
    StepOnDeparted(ar, config, evs, gone, sid, wait);
  }

  // The theorem.

  lemma RunPlayersDistinct<F>(ar: Arith<F>, config: ServerConfig, evs: seq<Event<F>>)
    requires Legal(ar, config, evs) && UnsharedIds(config)
    ensures DistinctPlayers(config, evs)
  {
    RunKeepsInvariant(ar, config, evs);
    DefaultIdsDistinct(config, Joins(evs));
  }

  /** Idleness of the recording is idleness of the player's trace. */
  lemma IdleTrace<F>(ar: Arith<F>, config: ServerConfig, gone: seq<Event<F>>, more: seq<Event<F>>, sid: SessionId)
    requires Legal(ar, config, gone) && Legal(ar, config, gone + more) && UnsharedIds(config)
    requires 1 <= sid <= Joins(gone) && sid <= Joins(gone + more)
    ensures IdleSince(ar, config, gone, more, IdAt(config, sid - 1)) <==>
      IdleFrom(ar, PlayerTrace(ar, config, gone + more, sid - 1), |PlayerTrace(ar, config, gone, sid - 1)|)
  {
    RunPlayersDistinct(ar, config, gone);
    RunPlayersDistinct(ar, config, gone + more);
    PlayerFacts(ar, config, gone, sid);
    PlayerFacts(ar, config, gone + more, sid);
  }

  lemma SilentIdles<F>(ar: Arith<F>, config: ServerConfig, evs: seq<Event<F>>, sid: SessionId, more: seq<Event<F>>)
    requires UnsharedIds(config) && Legal(ar, config, evs) && Live(evs, sid)
    requires Legal(ar, config, evs + [Disconnect(sid)]) && Legal(ar, config, evs + [Disconnect(sid)] + more)
    requires sid >= 1 && Silent(ar, After(ar, config, evs).entries, IdAt(config, sid - 1))
    ensures IdleSince(ar, config, evs + [Disconnect(sid)], more, IdAt(config, sid - 1))
  {
    var gone := evs + [Disconnect(sid)];
    LiveJoined(evs, sid);
    RunEntries(ar, config, evs);
    RunPlayersDistinct(ar, config, gone + more);
    SilentRests(ar, config, evs, sid, more, After(ar, config, evs).entries);
    LastOf(evs, Disconnect(sid));
    IdleTrace(ar, config, gone, more, sid);
  }

  /** A command left behind makes some continuation move the player. */
  lemma LoudMoves<F(!new)>(ar: Arith<F>, config: ServerConfig, evs: seq<Event<F>>, gone: seq<Event<F>>, sid: SessionId)
    requires UnsharedIds(config) && Legal(ar, config, evs) && Live(evs, sid)
    requires gone == evs + [Disconnect(sid)] && Legal(ar, config, gone)
    requires sid >= 1 && !Silent(ar, After(ar, config, evs).entries, IdAt(config, sid - 1))
    ensures !AlwaysIdle(ar, config, gone, IdAt(config, sid - 1))
  {
    var entries, p := After(ar, config, evs).entries, IdAt(config, sid - 1);
    var k :| k in entries && k.0 == p && Selection(Some(entries[k])).Some?
      && Direction(ar, Selection(Some(entries[k])).value) != ar.Origin();
    var wait := Leftover(ar, config, evs, k);
    LeftoverApplied(ar, config, evs, gone, sid, wait, Selection(Some(entries[k])).value);
    WaitMoves(ar, config, gone, sid, wait);
    var more := Waiting(ar, config, gone, wait);
    LoudContinuation(ar, config, gone, more, sid);
  }

  lemma Waiting<F(!new)>(ar: Arith<F>, config: ServerConfig, gone: seq<Event<F>>, wait: nat) returns (more: seq<Event<F>>)
    requires Legal(ar, config, gone)
    ensures gone + more == StepOn(gone, wait) + [Event.Step]
    ensures Legal(ar, config, gone + more)
  {
    more := StepOnExtends(gone, wait);
    StepOnLegal(ar, config, gone, wait);
    StepEnabled(ar, config, StepOn(gone, wait), StepOn(gone, wait) + [Event.Step]);
    assert gone + (more + [Event.Step]) == (gone + more) + [Event.Step];
    more := more + [Event.Step];
  }

  lemma LoudContinuation<F(!new)>(ar: Arith<F>, config: ServerConfig, gone: seq<Event<F>>, more: seq<Event<F>>, sid: SessionId)
    requires Legal(ar, config, gone) && Legal(ar, config, gone + more) && UnsharedIds(config)
    requires 1 <= sid <= Joins(gone) && sid <= Joins(gone + more)
    requires !IdleFrom(ar, PlayerTrace(ar, config, gone + more, sid - 1), |PlayerTrace(ar, config, gone, sid - 1)|)
    ensures !AlwaysIdle(ar, config, gone, IdAt(config, sid - 1))
  {
    IdleTrace(ar, config, gone, more, sid);
    MovesInSome(ar, config, gone, more, IdAt(config, sid - 1));
  }

  /** What leaving establishes. */
  lemma LeaveFacts<F>(ar: Arith<F>, config: ServerConfig, evs: seq<Event<F>>, gone: seq<Event<F>>, sid: SessionId)
    requires UnsharedIds(config) && Legal(ar, config, evs) && Live(evs, sid)
    requires gone == evs + [Disconnect(sid)] && Legal(ar, config, gone)
    ensures 1 <= sid <= Joins(evs) && Joins(gone) == Joins(evs) && Steps(gone) == Steps(evs)
    ensures DistinctPlayers(config, gone) && Departed(ar, config, evs, gone, sid)
  {
    LiveJoined(evs, sid);
    LastOf(evs, Disconnect(sid));
    RunPlayersDistinct(ar, config, gone);
    LeaveDeparts(ar, config, evs, sid);
  }

  /** The departed player's offers for the tick waited for are those made before it left. */
  lemma LeaveOffers<F>(ar: Arith<F>, config: ServerConfig, evs: seq<Event<F>>, gone: seq<Event<F>>, sid: SessionId, wait: nat)
    requires UnsharedIds(config) && Legal(ar, config, evs) && Live(evs, sid)
    requires gone == evs + [Disconnect(sid)] && Legal(ar, config, gone)
    ensures 1 <= sid <= Joins(gone) && Steps(StepOn(gone, wait)) == Steps(evs) + wait
    ensures Offered(ar, config, StepOn(gone, wait), IdAt(config, sid - 1), Steps(evs) + wait)
         == Offered(ar, config, evs, IdAt(config, sid - 1), Steps(evs) + wait)
  {
    LeaveFacts(ar, config, evs, gone, sid);
    StepOnCounts(gone, wait);
    WaitOffers(ar, config, evs, gone, sid, wait, Steps(evs) + wait);
  }

  lemma EntryAt<F>(ar: Arith<F>, config: ServerConfig, evs: seq<Event<F>>, p: PlayerId, t: nat)
    requires Legal(ar, config, evs) && t >= Steps(evs)
    ensures Selection(Lookup(After(ar, config, evs).entries, (p, t))) == WinnerAt(ar, config, evs, p, t)
  {
    RunEntries(ar, config, evs);
    SelectionMeetsSpec(ar, config.Limit(), Offered(ar, config, evs, p, t));
  }

  lemma AppliedFrom<F>(ar: Arith<F>, config: ServerConfig, now: seq<Event<F>>, p: PlayerId, t: nat, cs: seq<InputCmd<F>>, taken: InputCmd<F>)
    requires config.tickRateHz > 0 && t == Steps(now) && cs == Offered(ar, config, now, p, t)
    requires Winner(ar, Admitted(config.Limit(), cs)) == Some(taken)
    ensures AppliedAt(ar, config, now, p).moveDir == Direction(ar, taken)
  {
  }

  /** Once its tick comes, a command left behind is applied. */
  lemma LeftoverApplied<F>(
    ar: Arith<F>, config: ServerConfig, evs: seq<Event<F>>, gone: seq<Event<F>>, sid: SessionId, wait: nat, taken: InputCmd<F>)
    requires UnsharedIds(config) && Legal(ar, config, evs) && Live(evs, sid)
    requires gone == evs + [Disconnect(sid)] && Legal(ar, config, gone) && sid >= 1
    requires WinnerAt(ar, config, evs, IdAt(config, sid - 1), Steps(evs) + wait) == Some(taken)
    ensures AppliedAt(ar, config, StepOn(gone, wait), IdAt(config, sid - 1)).moveDir == Direction(ar, taken)
    ensures sid <= Joins(gone)
  {
    var p, t := IdAt(config, sid - 1), Steps(evs) + wait;
    LeaveOffers(ar, config, evs, gone, sid, wait);
    AppliedFrom(ar, config, StepOn(gone, wait), p, t, Offered(ar, config, evs, p, t), taken);
  }

  /** A run's trace gains a motion when waiting for the command is over. */
  lemma WaitMoves<F>(ar: Arith<F>, config: ServerConfig, gone: seq<Event<F>>, sid: SessionId, wait: nat)
    requires config.tickRateHz > 0 && 1 <= sid <= Joins(gone)
    requires AppliedAt(ar, config, StepOn(gone, wait), IdAt(config, sid - 1)).moveDir != ar.Origin()
    ensures sid <= Joins(StepOn(gone, wait) + [Event.Step])
    ensures !IdleFrom(ar, PlayerTrace(ar, config, StepOn(gone, wait) + [Event.Step], sid - 1), |PlayerTrace(ar, config, gone, sid - 1)|)
  {
    StepOnCounts(gone, wait);
    LastOf(StepOn(gone, wait), Event<F>.Step);
    StepOnTrace(ar, config, gone, sid - 1, wait);
    LastMoves(ar, config, StepOn(gone, wait), sid - 1, |PlayerTrace(ar, config, gone, sid - 1)|);
  }

  lemma MovesInSome<F(!new)>(ar: Arith<F>, config: ServerConfig, gone: seq<Event<F>>, more: seq<Event<F>>, p: PlayerId)
    requires Legal(ar, config, gone) && Legal(ar, config, gone + more) && !IdleSince(ar, config, gone, more, p)
    ensures !AlwaysIdle(ar, config, gone, p)
  {
  }

  lemma KeysAhead<F>(ar: Arith<F>, config: ServerConfig, evs: seq<Event<F>>, k: Key)
    requires Legal(ar, config, evs) && k in After(ar, config, evs).entries
    ensures k.1 >= Steps(evs)
  {
    RunKeepsInvariant(ar, config, evs);
  }

  /** How long until a buffered command is applied, unless it is tied. */
  lemma Leftover<F>(ar: Arith<F>, config: ServerConfig, evs: seq<Event<F>>, k: Key) returns (wait: nat)
    requires Legal(ar, config, evs) && k in After(ar, config, evs).entries
    ensures k.1 == Steps(evs) + wait
    ensures Selection(Some(After(ar, config, evs).entries[k])) == WinnerAt(ar, config, evs, k.0, Steps(evs) + wait)
  {
    KeysAhead(ar, config, evs, k);
    EntryAt(ar, config, evs, k.0, k.1);
    wait := k.1 - Steps(evs);
  }

  /**
   When a session leaves, its player is at rest in every continuation of the run if and
   only if each of the player's buffered commands is tied or asks for no motion.
   */
  lemma IdleExact<F(!new)>(ar: Arith<F>, config: ServerConfig, evs: seq<Event<F>>, sid: SessionId)
    requires UnsharedIds(config) && Legal(ar, config, evs) && Live(evs, sid)
    ensures sid >= 1 && Legal(ar, config, evs + [Disconnect(sid)])
    ensures AlwaysIdle(ar, config, evs + [Disconnect(sid)], IdAt(config, sid - 1)) <==>
      Silent(ar, After(ar, config, evs).entries, IdAt(config, sid - 1))
  {
    LiveJoined(evs, sid);
    RunExtends(ar, config, evs, Disconnect(sid));
    if Silent(ar, After(ar, config, evs).entries, IdAt(config, sid - 1)) {
      forall more: seq<Event<F>> | Legal(ar, config, evs + [Disconnect(sid)] + more)
        ensures IdleSince(ar, config, evs + [Disconnect(sid)], more, IdAt(config, sid - 1))
      {
        SilentIdles(ar, config, evs, sid, more);
      }
    } else {
      LoudMoves(ar, config, evs, evs + [Disconnect(sid)], sid);
    }
  }
}
