/** The client's side of tick targeting: the floor it tracks, the drain rule, the sequence numbers. */
module Client {
  import opened Wrappers

  class TickFloor {
    var floor: nat

    constructor FromWelcome(targetTickFloor: nat)
      ensures floor == targetTickFloor
    {
      floor := targetTickFloor;
    }

    method Observe(received: nat)
      modifies this
      ensures floor == Higher(old(floor), received)
    {
      floor := if received > floor then received else floor;
    }
  }

  function Higher(a: nat, b: nat): nat { if a < b then b else a }

  class InputSeqGen {
    var last: nat

    constructor ()
      ensures last == 0
    {
      last := 0;
    }

    method Advance() returns (inputSeq: nat)
      requires last + 1 < 0x1_0000_0000_0000_0000
      modifies this
      ensures last == inputSeq == old(last) + 1
    {
      last := last + 1;
      inputSeq := last;
    }
  }

  function TargetTick(floor: nat, desiredTick: nat): (t: nat)
    ensures t >= floor && t >= desiredTick && (t == floor || t == desiredTick)
  {
    if desiredTick < floor then floor else desiredTick
  }

  // Draining. `None` stands for an event that carries no usable snapshot.

  predicate IsNewer(existing: Option<int>, candidateTick: int) { existing.None? || candidateTick > existing.value }

  /** The first snapshot of the greatest tick. */
  function Latest<M>(tick: M -> int, events: seq<Option<M>>): Option<M> {
    if events == [] then None
    else
      var before := Latest(tick, events[..|events| - 1]);
      var e := events[|events| - 1];
      if e.Some? && IsNewer(if before.Some? then Some(tick(before.value)) else None, tick(e.value)) then e else before
  }

  /** Event k carries the first of the newest snapshots. */
  ghost predicate FirstGreatest<M>(tick: M -> int, events: seq<Option<M>>, k: nat) {
    && k < |events| && events[k].Some?
    && (forall i :: 0 <= i < |events| && events[i].Some? ==> tick(events[i].value) <= tick(events[k].value))
    && (forall i :: 0 <= i < k && events[i].Some? ==> tick(events[i].value) < tick(events[k].value))
  }

  lemma {:induction false} LatestIndex<M>(tick: M -> int, events: seq<Option<M>>) returns (k: nat)
    requires exists i :: 0 <= i < |events| && events[i].Some?
    ensures FirstGreatest(tick, events, k) && Latest(tick, events) == events[k]
  {
    var n := |events| - 1;
    var front := events[..n];
    assert forall i :: 0 <= i < n ==> front[i] == events[i];
    if exists i :: 0 <= i < n && front[i].Some? {
      k := LatestIndex(tick, front);
      if events[n].Some? && tick(events[n].value) > tick(events[k].value) { k := n; }
    } else {
      NoneUsable(tick, front);
      k := n;
    }
  }

  lemma {:induction false} NoneUsable<M>(tick: M -> int, events: seq<Option<M>>)
    requires forall i :: 0 <= i < |events| ==> events[i].None?
    ensures Latest(tick, events).None?
  {
    if events == [] {
    } else {
      NoneUsable(tick, events[..|events| - 1]);
    }
  }

  /** What `Latest` means: the first of the newest usable snapshots, if any is usable. */
  lemma LatestIsFirstGreatest<M>(tick: M -> int, events: seq<Option<M>>)
    ensures Latest(tick, events).None? <==> forall i :: 0 <= i < |events| ==> events[i].None?
    ensures Latest(tick, events).Some? ==> exists k: nat :: FirstGreatest(tick, events, k) && events[k] == Latest(tick, events)
  {
    if exists i :: 0 <= i < |events| && events[i].Some? {
      var k := LatestIndex(tick, events);
    } else {
      NoneUsable(tick, events);
    }
  }

  /** One snapshot as the client tracks it. */
  datatype Seen = Seen(tick: nat, floor: nat)

  function TickOf(s: Seen): int { s.tick }

  /** Drain everything available and keep the newest. */
  method PollSnapshot(events: seq<Option<Seen>>) returns (latest: Option<Seen>)
    ensures latest == Latest(TickOf, events)
  {
    latest := None;
    var i := 0;
    while i < |events|
      invariant 0 <= i <= |events|
      invariant latest == Latest(TickOf, events[..i])
    {
      if events[i].Some? && IsNewer(if latest.Some? then Some(latest.value.tick) else None, events[i].value.tick) {
        latest := events[i];
      }
      assert events[..i + 1][..i] == events[..i];
      i := i + 1;
    }
    assert events[..i] == events;
  }
}
