/**
 From the server's messages to the client's view of them.

 The server's messages hold numbers and f64s, the client's hold signed words and bit
 patterns. What the server sends is the published Protocol Buffers encoding of its
 message; `SnapshotReachesClient` follows a snapshot from the world to the client's screen.
 */
module ServerWire {
  import opened Words
  import opened Sequences
  import opened Float64
  import opened Simulation
  import opened Replay
  import opened ServerModel
  import opened ServerRuns
  import opened WireFormat
  import opened MatchStates
  import W = WireMessages

  predicate IsWord(n: nat) { n < 0x1_0000_0000_0000_0000 }

  function Word(n: nat): I64
    requires IsWord(n)
  {
    Signed(n)
  }

  function Patterns<F>(ar: Arith<F>, xs: seq<F>): (us: seq<U64>)
    ensures |us| == |xs| && forall i :: 0 <= i < |xs| ==> us[i] == ar.bits(xs[i])
  {
    Map(ar.bits, xs)
  }

  // Messages, one by one.

  predicate FitsEntity<F>(e: EntitySnapshotProto<F>) { IsWord(e.entityId) && |e.position| == 2 && |e.velocity| == 2 }

  predicate FitsEntities<F>(es: seq<EntitySnapshotProto<F>>) { forall i :: 0 <= i < |es| ==> FitsEntity(es[i]) }

  function WireEntity<F>(ar: Arith<F>, e: EntitySnapshotProto<F>): (w: W.EntitySnapshotProto)
    requires FitsEntity(e)
    ensures W.SizedEntity(w)
  {
    W.EntitySnapshotProto(Word(e.entityId), Patterns(ar, e.position), Patterns(ar, e.velocity))
  }

  function WireEntities<F>(ar: Arith<F>, es: seq<EntitySnapshotProto<F>>): (ws: seq<W.EntitySnapshotProto>)
    requires FitsEntities(es)
    ensures |ws| == |es| && W.SizedEntities(ws)
    ensures forall i :: 0 <= i < |es| ==> ws[i] == WireEntity(ar, es[i])
  {
    seq(|es|, i requires 0 <= i < |es| => WireEntity(ar, es[i]))
  }

  predicate FitsSnapshot<F>(m: SnapshotProto<F>) { IsWord(m.tick) && IsWord(m.targetTickFloor) && FitsEntities(m.entities) }

  function WireSnapshot<F>(ar: Arith<F>, m: SnapshotProto<F>): W.SnapshotProto
    requires FitsSnapshot(m)
  {
    W.SnapshotProto(Word(m.tick), WireEntities(ar, m.entities), Signed(m.digest), Word(m.targetTickFloor))
  }

  function WireBaseline<F>(ar: Arith<F>, m: JoinBaseline<F>): W.JoinBaseline
    requires IsWord(m.tick) && FitsEntities(m.entities)
  {
    W.JoinBaseline(Word(m.tick), WireEntities(ar, m.entities), Signed(m.digest))
  }

  function WireWelcome(m: ServerWelcome): W.ServerWelcome
    requires FitsWelcome(m)
  {
    W.ServerWelcome(Word(m.targetTickFloor), Word(m.tickRateHz), Word(m.playerId), Word(m.controlledEntityId))
  }

  /** The bytes every session gets for a step's snapshot. */
  function SnapshotBytes<F>(ar: Arith<F>, m: SnapshotProto<F>): seq<Byte>
    requires FitsSnapshot(m)
  {
    Serialize(W.SnapshotFields(WireSnapshot(ar, m)))
  }

  // A step's message.

  function Broadcast<F>(ar: Arith<F>, w: WorldState<F>, floor: nat): SnapshotProto<F> {
    SnapshotOf(BaselineOf(ar, w), floor)
  }

  /** The entities of a message are the characters, in order. */
  lemma BroadcastEntities<F>(ar: Arith<F>, w: WorldState<F>, floor: nat)
    ensures
      var es := Broadcast(ar, w, floor).entities;
      |es| == |w.characters| && forall i :: 0 <= i < |es| ==> es[i] == EntityProto(w.characters[i].ToSnapshot())
  {
  }

  /** In every reachable state the message has a wire form. */
  lemma BroadcastFits<F>(ar: Arith<F>, config: ServerConfig, evs: seq<Event<F>>, floor: nat)
    requires Legal(ar, config, evs) && IsWord(Steps(evs)) && IsWord(floor)
    ensures
      var s := After(ar, config, evs);
      FitsSnapshot(Broadcast(ar, s.world, floor)) && s.world.tick == Steps(evs)
  {
    RunKeepsInvariant(ar, config, evs);
    BroadcastEntities(ar, After(ar, config, evs).world, floor);
  }

  // What the client shows.

  /** With ids 1, 2, ... the table has exactly these keys, each with its entity. */
  lemma {:induction false} TableOfNumbered(es: seq<W.EntitySnapshotProto>)
    requires forall i :: 0 <= i < |es| ==> es[i].entityId == i + 1
    ensures forall id :: id in Table(es) <==> 1 <= id <= |es|
    ensures forall i :: 0 <= i < |es| ==> (i + 1) in Table(es) && Table(es)[i + 1] == es[i]
  {
    if es == [] {
    } else {
      var n := |es| - 1;
      TableOfNumbered(es[..n]);
      forall i | 0 <= i < |es| ensures (i + 1) in Table(es) && Table(es)[i + 1] == es[i] {
        if i < n { assert es[..n][i] == es[i]; }
      }
    }
  }

  /** The view holds this tick and exactly the world's characters, every float bit for bit. */
  ghost predicate ShowsWorld<F>(ar: Arith<F>, v: View, w: WorldState<F>) {
    && v.latestTick == w.tick
    && (forall id :: id in v.entities <==> 1 <= id <= |w.characters|)
    && (forall i :: 0 <= i < |w.characters| ==> (i + 1) in v.entities && Shows(ar, v.entities[i + 1], w.characters[i]))
  }

  ghost predicate Shows<F>(ar: Arith<F>, e: W.EntitySnapshotProto, c: Character<F>) {
    && e.entityId == c.entityId
    && e.position == [ar.bits(c.position.x), ar.bits(c.position.y)]
    && e.velocity == [ar.bits(c.velocity.x), ar.bits(c.velocity.y)]
  }

  /** What a client reads in a step's bytes: the tick, the floor, the digest and every character. */
  ghost predicate Announces<F>(ar: Arith<F>, bytes: seq<Byte>, w: WorldState<F>, floor: nat) {
    W.Readable(W.SnapshotTyped, bytes) &&
    var m := W.Decode(W.SnapshotAssign, W.EMPTY_SNAPSHOT, bytes);
    && Pattern(m.tick) == w.tick && Pattern(m.targetTickFloor) == floor && Pattern(m.digest) == StateDigest(ar, w)
    && |m.entities| == |w.characters|
    && forall i :: 0 <= i < |w.characters| ==> Describes(ar, m.entities[i], w.characters[i])
  }

  /** The entity on the wire is the character, every float bit for bit. */
  ghost predicate Describes<F>(ar: Arith<F>, e: W.EntitySnapshotProto, c: Character<F>) {
    && Pattern(e.entityId) == c.entityId
    && e.position == [ar.bits(c.position.x), ar.bits(c.position.y)]
    && e.velocity == [ar.bits(c.velocity.x), ar.bits(c.velocity.y)]
  }

  lemma SignedPattern(u: U64)
    ensures Pattern(Signed(u)) == u
  {
  }

  lemma EntityDescribed<F>(ar: Arith<F>, c: Character<F>)
    requires IsWord(c.entityId)
    ensures FitsEntity(EntityProto(c.ToSnapshot())) && Describes(ar, WireEntity(ar, EntityProto(c.ToSnapshot())), c)
  {
    SignedPattern(c.entityId);
  }

  /** The bytes of a step's message announce the world and the floor. */
  lemma BroadcastAnnounces<F>(ar: Arith<F>, w: WorldState<F>, floor: nat)
    requires FitsSnapshot(Broadcast(ar, w, floor))
    ensures Announces(ar, SnapshotBytes(ar, Broadcast(ar, w, floor)), w, floor)
  {
    var m := Broadcast(ar, w, floor);
    var sent := WireSnapshot(ar, m);
    W.SnapshotRoundTrip(sent);
    BroadcastEntities(ar, w, floor);
    SignedPattern(m.tick);
    SignedPattern(m.digest);
    SignedPattern(floor);
    forall i | 0 <= i < |w.characters| ensures Describes(ar, sent.entities[i], w.characters[i]) {
      assert m.entities[i] == EntityProto(w.characters[i].ToSnapshot());
      EntityDescribed(ar, w.characters[i]);
    }
  }

  /** The client decodes the bytes of a message and applies the snapshot. */
  ghost predicate Draws<F>(ar: Arith<F>, v: View, m: SnapshotProto<F>, w: WorldState<F>) {
    FitsSnapshot(m) && W.Readable(W.SnapshotTyped, SnapshotBytes(ar, m)) &&
    ShowsWorld(ar, ApplyOne(v, W.Decode(W.SnapshotAssign, W.EMPTY_SNAPSHOT, SnapshotBytes(ar, m))), w)
  }

  lemma DrawsExactly<F>(ar: Arith<F>, w: WorldState<F>, floor: nat, v: View)
    requires FitsSnapshot(Broadcast(ar, w, floor)) && w.tick < 0x8000_0000_0000_0000 && v.latestTick < w.tick
    requires |w.characters| < 0x8000_0000_0000_0000
    requires forall i :: 0 <= i < |w.characters| ==> w.characters[i].entityId == i + 1
    ensures Draws(ar, v, Broadcast(ar, w, floor), w)
  {
    var m := Broadcast(ar, w, floor);
    var sent := WireSnapshot(ar, m);
    W.SnapshotRoundTrip(sent);
    BroadcastEntities(ar, w, floor);
    forall i | 0 <= i < |sent.entities| ensures sent.entities[i].entityId == i + 1 && Shows(ar, sent.entities[i], w.characters[i]) {
      EntityShown(ar, w.characters[i]);
    }
    TableOfNumbered(sent.entities);
  }

  lemma EntityShown<F>(ar: Arith<F>, c: Character<F>)
    requires c.entityId < 0x8000_0000_0000_0000
    ensures FitsEntity(EntityProto(c.ToSnapshot())) && Shows(ar, WireEntity(ar, EntityProto(c.ToSnapshot())), c)
  {
  }

  lemma ReachableNumbers<F>(ar: Arith<F>, config: ServerConfig, evs: seq<Event<F>>, w: WorldState<F>)
    requires Legal(ar, config, evs) && w == After(ar, config, evs).world
    requires IsWord(Steps(evs)) && IsWord(Steps(evs) + config.inputLeadTicks)
    ensures w.tick == Steps(evs) && |w.characters| <= 255
    ensures forall i :: 0 <= i < |w.characters| ==> w.characters[i].entityId == i + 1
    ensures FitsSnapshot(Broadcast(ar, w, w.tick + config.inputLeadTicks))
  {
    BroadcastFits(ar, config, evs, Steps(evs) + config.inputLeadTicks);
    RunKeepsInvariant(ar, config, evs);
  }

  /**
   From the world to the screen: after any step, a client that has shown nothing newer
   and applies the decoded broadcast shows this tick and exactly the world's characters.
   */
  lemma SnapshotReachesClient<F>(ar: Arith<F>, config: ServerConfig, evs: seq<Event<F>>, w: WorldState<F>, v: View)
    requires Legal(ar, config, evs) && w == After(ar, config, evs).world
    requires Steps(evs) + config.inputLeadTicks < 0x8000_0000_0000_0000 && v.latestTick < w.tick
    ensures Draws(ar, v, Broadcast(ar, w, w.tick + config.inputLeadTicks), w)
    ensures Announces(ar, SnapshotBytes(ar, Broadcast(ar, w, w.tick + config.inputLeadTicks)), w, w.tick + config.inputLeadTicks)
  {
    ReachableNumbers(ar, config, evs, w);
    DrawsExactly(ar, w, w.tick + config.inputLeadTicks, v);
    BroadcastAnnounces(ar, w, w.tick + config.inputLeadTicks);
  }

  /** A joining client that applies the decoded baseline shows exactly the world, and has its digest. */
  lemma BaselineReachesClient<F>(ar: Arith<F>, config: ServerConfig, evs: seq<Event<F>>, w: WorldState<F>)
    requires Legal(ar, config, evs) && w == After(ar, config, evs).world && Steps(evs) < 0x8000_0000_0000_0000
    ensures IsWord(w.tick) && FitsEntities(BaselineProto(BaselineOf(ar, w)).entities)
    ensures
      var bytes := Serialize(W.BaselineFields(WireBaseline(ar, BaselineProto(BaselineOf(ar, w)))));
      W.Readable(W.BaselineTyped, bytes) &&
      var b := W.Decode(W.BaselineAssign, W.EMPTY_BASELINE, bytes);
      ShowsWorld(ar, View(b.tick, Table(b.entities)), w) && Pattern(b.digest) == StateDigest(ar, w)
  {
    BroadcastFits(ar, config, evs, 0);
    RunKeepsInvariant(ar, config, evs);
    BaselineShows(ar, w);
  }

  lemma BaselineShows<F>(ar: Arith<F>, w: WorldState<F>)
    requires w.tick < 0x8000_0000_0000_0000 && |w.characters| < 0x8000_0000_0000_0000
    requires FitsEntities(BaselineProto(BaselineOf(ar, w)).entities)
    requires forall i :: 0 <= i < |w.characters| ==> w.characters[i].entityId == i + 1
    ensures
      var bytes := Serialize(W.BaselineFields(WireBaseline(ar, BaselineProto(BaselineOf(ar, w)))));
      W.Readable(W.BaselineTyped, bytes) &&
      var b := W.Decode(W.BaselineAssign, W.EMPTY_BASELINE, bytes);
      ShowsWorld(ar, View(b.tick, Table(b.entities)), w) && Pattern(b.digest) == StateDigest(ar, w)
  {
    var sent := WireBaseline(ar, BaselineProto(BaselineOf(ar, w)));
    W.BaselineRoundTrip(sent);
    BroadcastEntities(ar, w, 0);
    SignedPattern(StateDigest(ar, w));
    forall i | 0 <= i < |sent.entities| ensures sent.entities[i].entityId == i + 1 && Shows(ar, sent.entities[i], w.characters[i]) {
      EntityShown(ar, w.characters[i]);
    }
    TableOfNumbered(sent.entities);
  }

  predicate FitsWelcome(m: ServerWelcome) {
    IsWord(m.targetTickFloor) && IsWord(m.tickRateHz) && IsWord(m.playerId) && IsWord(m.controlledEntityId)
  }

  /** A welcome arrives with every number it left with. */
  lemma WelcomeReachesClient(m: ServerWelcome)
    requires FitsWelcome(m)
    ensures
      var bytes := Serialize(W.WelcomeFields(WireWelcome(m)));
      W.Readable(W.WelcomeTyped, bytes) &&
      var shown := W.Decode(W.WelcomeAssign, W.EMPTY_WELCOME, bytes);
      && Pattern(shown.targetTickFloor) == m.targetTickFloor && Pattern(shown.tickRateHz) == m.tickRateHz
      && Pattern(shown.playerId) == m.playerId && Pattern(shown.controlledEntityId) == m.controlledEntityId
  {
    W.WelcomeRoundTrip(WireWelcome(m));
    SignedPattern(m.targetTickFloor);
    SignedPattern(m.tickRateHz);
    SignedPattern(m.playerId);
    SignedPattern(m.controlledEntityId);
  }
}
