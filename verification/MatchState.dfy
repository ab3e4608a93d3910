/** What the client shows: the newest snapshot's entities, whatever order snapshots come in. */
module MatchStates {
  import opened Wrappers
  import opened Words
  import opened WireMessages
  import opened Client

  type EntityTable = map<I64, EntitySnapshotProto>

  datatype View = View(latestTick: int, entities: EntityTable)

  /** The table of an entity list; a repeated id keeps its last entry. */
  function Table(es: seq<EntitySnapshotProto>): EntityTable {
    if es == [] then map[]
    else Table(es[..|es| - 1])[es[|es| - 1].entityId := es[|es| - 1]]
  }

  /** Entry i is the last one with its id. */
  ghost predicate LastWithId(es: seq<EntitySnapshotProto>, i: nat) {
    i < |es| && forall j :: i < j < |es| ==> es[j].entityId != es[i].entityId
  }

  lemma {:induction false} TableExact(es: seq<EntitySnapshotProto>)
    ensures forall i: nat :: LastWithId(es, i) ==> es[i].entityId in Table(es) && Table(es)[es[i].entityId] == es[i]
    ensures forall id :: id in Table(es) ==> exists i: nat :: LastWithId(es, i) && es[i].entityId == id
  {
    if es == [] {
    } else {
      var n := |es| - 1;
      TableExact(es[..n]);
      forall i: nat | LastWithId(es, i) && i < n ensures LastWithId(es[..n], i) {
        assert forall j :: i < j < n ==> es[..n][j] == es[j];
      }
      forall id | id in Table(es) ensures exists i: nat :: LastWithId(es, i) && es[i].entityId == id {
        if id == es[n].entityId {
          assert LastWithId(es, n);
        } else {
          var i: nat :| LastWithId(es[..n], i) && es[..n][i].entityId == id;
          assert LastWithId(es, i);
        }
      }
    }
  }

  function ApplyOne(v: View, s: SnapshotProto): View {
    if s.tick <= v.latestTick then v else View(s.tick, Table(s.entities))
  }

  class MatchState {
    var controlledEntityId: int
    var latestTick: int
    var entities: EntityTable

    ghost function State(): View
      reads this
    {
      View(latestTick, entities)
    }

    constructor ()
      ensures State() == View(-1, map[]) && controlledEntityId == -1
    {
      controlledEntityId, latestTick, entities := -1, -1, map[];
    }

    method ApplyBaseline(baseline: JoinBaseline)
      modifies this
      ensures State() == View(baseline.tick, Table(baseline.entities)) && controlledEntityId == old(controlledEntityId)
    {
      latestTick := baseline.tick;
      FillEntities(baseline.entities);
    }

    method ApplySnapshot(snapshot: SnapshotProto) returns (applied: bool)
      modifies this
      ensures State() == ApplyOne(old(State()), snapshot) && controlledEntityId == old(controlledEntityId)
      ensures applied <==> snapshot.tick > old(latestTick)
    {
      if snapshot.tick <= latestTick {
        return false;
      }
      latestTick := snapshot.tick;
      FillEntities(snapshot.entities);
      return true;
    }

    /** Clear the table and refill it. */
    method FillEntities(es: seq<EntitySnapshotProto>)
      modifies this`entities
      ensures entities == Table(es)
    {
      entities := map[];
      var i := 0;
      while i < |es|
        invariant 0 <= i <= |es|
        invariant entities == Table(es[..i])
      {
        entities := entities[es[i].entityId := es[i]];
        assert es[..i + 1][..i] == es[..i];
        i := i + 1;
      }
      assert es[..i] == es;
    }
  }

  function SnapshotTick(s: SnapshotProto): int { s.tick }

  /** Apply every snapshot of a stretch of events, in order. */
  function ApplyAll(v: View, events: seq<Option<SnapshotProto>>): View {
    if events == [] then v
    else
      var before := ApplyAll(v, events[..|events| - 1]);
      var e := events[|events| - 1];
      if e.Some? then ApplyOne(before, e.value) else before
  }

  /** Apply only the newest. */
  function ApplyLatest(v: View, events: seq<Option<SnapshotProto>>): View {
    var latest := Latest(SnapshotTick, events);
    if latest.Some? then ApplyOne(v, latest.value) else v
  }

  /** Draining to the newest snapshot and applying that shows what applying each in turn shows. */
  lemma {:induction false} DrainIsHarmless(v: View, events: seq<Option<SnapshotProto>>)
    ensures ApplyLatest(v, events) == ApplyAll(v, events)
    ensures Latest(SnapshotTick, events).None? ==> ApplyAll(v, events) == v
    ensures Latest(SnapshotTick, events).Some? ==>
      ApplyAll(v, events).latestTick == if Latest(SnapshotTick, events).value.tick > v.latestTick
                                        then Latest(SnapshotTick, events).value.tick else v.latestTick
  {
    if events == [] {
    } else {
      DrainIsHarmless(v, events[..|events| - 1]);
    }
  }

  /** One drain after another. */
  function ApplyDrains(v: View, drains: seq<seq<Option<SnapshotProto>>>): View {
    if drains == [] then v else ApplyLatest(ApplyDrains(v, drains[..|drains| - 1]), drains[|drains| - 1])
  }

  function Flatten<T>(xss: seq<seq<T>>): seq<T> {
    if xss == [] then [] else Flatten(xss[..|xss| - 1]) + xss[|xss| - 1]
  }

  lemma {:induction false} ApplyAllConcat(v: View, xs: seq<Option<SnapshotProto>>, ys: seq<Option<SnapshotProto>>)
    ensures ApplyAll(v, xs + ys) == ApplyAll(ApplyAll(v, xs), ys)
  {
    if ys == [] {
      assert xs + ys == xs;
    } else {
      var n := |ys| - 1;
      ApplyAllConcat(v, xs, ys[..n]);
      assert (xs + ys)[..|xs| + n] == xs + ys[..n];
    }
  }

  /** Where the drains are cut does not matter: the client shows what one drain of everything would. */
  lemma {:induction false} DrainsCompose(v: View, drains: seq<seq<Option<SnapshotProto>>>)
    ensures ApplyDrains(v, drains) == ApplyLatest(v, Flatten(drains))
    ensures ApplyDrains(v, drains).latestTick >= v.latestTick
  {
    DrainIsHarmless(v, Flatten(drains));
    if drains == [] {
    } else {
      var n := |drains| - 1;
      DrainsCompose(v, drains[..n]);
      DrainIsHarmless(v, Flatten(drains[..n]));
      DrainIsHarmless(ApplyDrains(v, drains[..n]), drains[n]);
      ApplyAllConcat(v, Flatten(drains[..n]), drains[n]);
    }
  }
}
