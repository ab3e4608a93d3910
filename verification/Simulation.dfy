/**
 The simulation core: a world of characters advanced one tick at a time.

 `WorldState` and the functions on it say what the world is after each operation;
 the class `World` is the core's own mutable container, proved to follow them.
 */
module Simulation {
  import opened Words
  import opened Sequences
  import opened Float64
  import opened Digest

  /** A `u8`. */
  type PlayerId = p: nat | p < 256

  datatype StepInput<F> = StepInput(playerId: PlayerId, moveDir: Vec2<F>)

  datatype EntitySnapshot<F> = EntitySnapshot(entityId: nat, position: Vec2<F>, velocity: Vec2<F>)

  /** The world before a step (`Baseline`) or after one (`Snapshot`). */
  datatype Baseline<F> = Baseline(tick: nat, entities: seq<EntitySnapshot<F>>, digest: U64)

  datatype Character<F> = Character(entityId: nat, playerId: PlayerId, position: Vec2<F>, velocity: Vec2<F>) {
    function ToSnapshot(): EntitySnapshot<F> { EntitySnapshot(entityId, position, velocity) }
  }

  datatype WorldState<F> = WorldState(
    tick: nat, tickRateHz: nat, dt: F, characters: seq<Character<F>>, nextEntityId: nat, seed: nat)

  const MOVE_SPEED: nat := 5

  function EntityKey<F>(c: Character<F>): nat { c.entityId }

  function PlayerKey<F>(i: StepInput<F>): nat { i.playerId }

  function NewWorld<F>(ar: Arith<F>, seed: nat, tickRateHz: nat): WorldState<F> {
    WorldState(0, tickRateHz, ar.div(ar.One(), ar.ofInt(tickRateHz)), [], 1, seed)
  }

  function NewCharacter<F>(ar: Arith<F>, entityId: nat, playerId: PlayerId): Character<F> {
    Character(entityId, playerId, ar.Origin(), ar.Origin())
  }

  /** The character joins at the back: its entity id is fresh and greater than all others. */
  function Spawn<F>(ar: Arith<F>, w: WorldState<F>, playerId: PlayerId): WorldState<F> {
    w.(characters := w.characters + [NewCharacter(ar, w.nextEntityId, playerId)], nextEntityId := w.nextEntityId + 1)
  }

  /** Scale to at most the given magnitude. */
  function ClampMagnitude<F>(ar: Arith<F>, v: Vec2<F>, max: F): Vec2<F> {
    var magnitudeSq := ar.MagnitudeSquared(v);
    if ar.le(magnitudeSq, ar.mul(max, max)) then v
    else
      var scale := ar.div(max, ar.sqrt(magnitudeSq));
      Vec2(ar.mul(v.x, scale), ar.mul(v.y, scale))
  }

  /** One character moved by one intent over one tick. */
  function Move<F>(ar: Arith<F>, dt: F, c: Character<F>, intent: Vec2<F>): Character<F> {
    var dir := ClampMagnitude(ar, intent, ar.One());
    var speed := ar.ofInt(MOVE_SPEED);
    var velocity := Vec2(ar.mul(dir.x, speed), ar.mul(dir.y, speed));
    var position := Vec2(ar.add(c.position.x, ar.mul(velocity.x, dt)), ar.add(c.position.y, ar.mul(velocity.y, dt)));
    c.(velocity := velocity, position := position)
  }

  /** The first character of the player, or the number of characters if there is none. */
  function IndexOfPlayer<F>(cs: seq<Character<F>>, p: PlayerId): (i: nat)
    ensures i <= |cs|
    ensures i < |cs| ==> cs[i].playerId == p
    ensures forall j :: 0 <= j < i ==> cs[j].playerId != p
  {
    if cs == [] then 0 else if cs[0].playerId == p then 0 else 1 + IndexOfPlayer(cs[1..], p)
  }

  function ApplyMovement<F>(ar: Arith<F>, dt: F, cs: seq<Character<F>>, input: StepInput<F>): (r: seq<Character<F>>)
    ensures |r| == |cs|
  {
    var i := IndexOfPlayer(cs, input.playerId);
    if i == |cs| then cs else cs[i := Move(ar, dt, cs[i], input.moveDir)]
  }

  /**
   From c to d by the intent, axis by axis: speed 5 along the intent, which is scaled to
   length one if it is longer than one, and one tick's way in that velocity.
   */
  ghost predicate MovesBy<F>(ar: Arith<F>, dt: F, c: Character<F>, intent: Vec2<F>, d: Character<F>) {
    var lengthSq, five := ar.add(ar.mul(intent.x, intent.x), ar.mul(intent.y, intent.y)), ar.ofInt(5);
    var scale := ar.div(ar.ofInt(1), ar.sqrt(lengthSq));
    && d.entityId == c.entityId && d.playerId == c.playerId
    && d.position.x == ar.add(c.position.x, ar.mul(d.velocity.x, dt)) && d.position.y == ar.add(c.position.y, ar.mul(d.velocity.y, dt))
    && if ar.le(lengthSq, ar.mul(ar.ofInt(1), ar.ofInt(1)))
       then d.velocity.x == ar.mul(intent.x, five) && d.velocity.y == ar.mul(intent.y, five)
       else d.velocity.x == ar.mul(ar.mul(intent.x, scale), five) && d.velocity.y == ar.mul(ar.mul(intent.y, scale), five)
  }

  lemma MoveByAxes<F>(ar: Arith<F>, dt: F, c: Character<F>, intent: Vec2<F>)
    ensures MovesBy(ar, dt, c, intent, Move(ar, dt, c, intent))
  {
  }

  /** The player's first character moves; every other one stays as it is. */
  ghost predicate OneMoves<F>(ar: Arith<F>, dt: F, cs: seq<Character<F>>, input: StepInput<F>, ds: seq<Character<F>>) {
    |ds| == |cs| && forall j :: 0 <= j < |cs| ==>
      if cs[j].playerId == input.playerId && forall k :: 0 <= k < j ==> cs[k].playerId != input.playerId
      then MovesBy(ar, dt, cs[j], input.moveDir, ds[j])
      else ds[j] == cs[j]
  }

  lemma MovementMovesOne<F>(ar: Arith<F>, dt: F, cs: seq<Character<F>>, input: StepInput<F>)
    ensures OneMoves(ar, dt, cs, input, ApplyMovement(ar, dt, cs, input))
  {
    var i := IndexOfPlayer(cs, input.playerId);
    if i < |cs| { MoveByAxes(ar, dt, cs[i], input.moveDir); }
  }

  function ApplyMovements<F>(ar: Arith<F>, dt: F, cs: seq<Character<F>>, inputs: seq<StepInput<F>>): (r: seq<Character<F>>)
    ensures |r| == |cs|
  {
    if inputs == [] then cs
    else ApplyMovement(ar, dt, ApplyMovements(ar, dt, cs, inputs[..|inputs| - 1]), inputs[|inputs| - 1])
  }

  function Advance<F>(ar: Arith<F>, w: WorldState<F>, inputs: seq<StepInput<F>>): WorldState<F> {
    w.(characters := ApplyMovements(ar, w.dt, w.characters, inputs), tick := w.tick + 1)
  }

  // Canonical bytes and digest.

  function EncodeFloat<F>(ar: Arith<F>, x: F): seq<Byte> { LittleEndian(Canonical(ar.bits(x)), 8) }

  function EncodeCharacter<F>(ar: Arith<F>, c: Character<F>): (bs: seq<Byte>)
    ensures |bs| == 40
  {
    LittleEndian(c.entityId, 8)
    + EncodeFloat(ar, c.position.x) + EncodeFloat(ar, c.position.y)
    + EncodeFloat(ar, c.velocity.x) + EncodeFloat(ar, c.velocity.y)
  }

  function EncodeCharacters<F>(ar: Arith<F>, cs: seq<Character<F>>): (bs: seq<Byte>)
    ensures |bs| == 40 * |cs|
  {
    if cs == [] then [] else EncodeCharacters(ar, cs[..|cs| - 1]) + EncodeCharacter(ar, cs[|cs| - 1])
  }

  function EncodeWorld<F>(ar: Arith<F>, tick: nat, cs: seq<Character<F>>): seq<Byte> {
    LittleEndian(tick, 8) + EncodeCharacters(ar, cs)
  }

  function StateDigest<F>(ar: Arith<F>, w: WorldState<F>): U64 {
    Fnv(OFFSET_BASIS, EncodeWorld(ar, w.tick, w.characters))
  }

  function Snapshots<F>(cs: seq<Character<F>>): seq<EntitySnapshot<F>> {
    Map((c: Character<F>) => c.ToSnapshot(), cs)
  }

  function BaselineOf<F>(ar: Arith<F>, w: WorldState<F>): Baseline<F> {
    Baseline(w.tick, Snapshots(w.characters), StateDigest(ar, w))
  }

  /** Characters in strictly ascending entity id order, all ids already handed out. */
  ghost predicate Ordered<F>(w: WorldState<F>) {
    && (forall i, j :: 0 <= i < j < |w.characters| ==> w.characters[i].entityId < w.characters[j].entityId)
    && (forall i :: 0 <= i < |w.characters| ==> 0 < w.characters[i].entityId < w.nextEntityId)
    && 0 < w.nextEntityId
  }

  class World<F> {
    const ar: Arith<F>
    const tickRateHz: nat
    const dt: F
    const seed: nat
    var tick: nat
    var characters: seq<Character<F>>
    var nextEntityId: nat

    ghost function State(): WorldState<F>
      reads this
    {
      WorldState(tick, tickRateHz, dt, characters, nextEntityId, seed)
    }

    ghost predicate Valid()
      reads this
    {
      Ordered(State())
    }

    constructor (ar: Arith<F>, seed: nat, tickRateHz: nat)
      requires tickRateHz > 0
      ensures Valid() && this.ar == ar
      ensures State() == NewWorld(ar, seed, tickRateHz)
    {
      this.ar := ar;
      this.tick := 0;
      this.tickRateHz := tickRateHz;
      this.dt := ar.div(ar.One(), ar.ofInt(tickRateHz));
      this.characters := [];
      this.nextEntityId := 1;
      this.seed := seed;
    }

    method SpawnCharacter(playerId: PlayerId) returns (entityId: nat)
      requires Valid() && nextEntityId + 1 < 0x1_0000_0000_0000_0000
      modifies this
      ensures Valid()
      ensures entityId == old(nextEntityId)
      ensures State() == Spawn(ar, old(State()), playerId)
    {
      entityId := nextEntityId;
      nextEntityId := nextEntityId + 1;
      characters := characters + [NewCharacter(ar, entityId, playerId)];
      ghost var spawned := Spawn(ar, old(State()), playerId);
      SpawnOrdered(ar, old(State()), playerId);
      assert characters == spawned.characters;
      characters := SortBy(EntityKey, characters);
      assert State() == spawned;
    }

    method CurrentBaseline() returns (b: Baseline<F>)
      requires Valid()
      ensures b == BaselineOf(ar, State())
    {
      var digest := CurrentDigest();
      b := Baseline(tick, Snapshots(characters), digest);
    }

    /** `advance`: the tick must be the world's own and the inputs sorted by player. */
    method AdvanceTick(tick: nat, inputs: seq<StepInput<F>>) returns (snapshot: Baseline<F>)
      requires Valid()
      requires tick == this.tick && tick + 1 < 0x1_0000_0000_0000_0000
      requires SortedBy(PlayerKey, inputs)
      modifies this
      ensures Valid()
      ensures State() == Advance(ar, old(State()), inputs)
      ensures snapshot == BaselineOf(ar, State())
    {
      var i := 0;
      while i < |inputs|
        invariant 0 <= i <= |inputs|
        invariant characters == ApplyMovements(ar, dt, old(characters), inputs[..i])
        invariant this.tick == old(this.tick) && nextEntityId == old(nextEntityId)
      {
        Move(inputs[i]);
        i := i + 1;
        assert inputs[..i][..i - 1] == inputs[..i - 1];
      }
      assert inputs[..i] == inputs;
      this.tick := this.tick + 1;
      AdvanceOrdered(ar, old(State()), inputs);
      snapshot := CurrentBaseline();
    }

    /** `apply_movement`: update the player's character in place, if there is one. */
    method Move(input: StepInput<F>)
      modifies this`characters
      ensures characters == ApplyMovement(ar, dt, old(characters), input)
      ensures OneMoves(ar, dt, old(characters), input, characters)
    {
      MovementMovesOne(ar, dt, characters, input);
      var i := IndexOfPlayer(characters, input.playerId);
      if i < |characters| {
        var c := characters[i];
        var dir := ClampMagnitude(ar, input.moveDir, ar.One());
        var speed := ar.ofInt(MOVE_SPEED);
        c := c.(velocity := Vec2(ar.mul(dir.x, speed), ar.mul(dir.y, speed)));
        c := c.(position := Vec2(ar.add(c.position.x, ar.mul(c.velocity.x, dt)), ar.add(c.position.y, ar.mul(c.velocity.y, dt))));
        characters := characters[i := c];
      }
    }

    /** `state_digest`: feed the hasher field by field, characters in order. */
    method CurrentDigest() returns (digest: U64)
      ensures digest == StateDigest(ar, State())
    {
      var hasher := new Fnv1a64();
      hasher.Update(LittleEndian(tick, 8));
      var cs, i := characters, 0;
      ghost var start := hasher.state;
      while i < |cs|
        invariant 0 <= i <= |cs|
        invariant hasher.state == Fnv(start, EncodeCharacters(ar, cs[..i]))
      {
        HashCharacter(hasher, cs[i]);
        EncodeNext(ar, start, cs, i);
        i := i + 1;
      }
      assert cs[..i] == cs;
      FnvConcat(OFFSET_BASIS, LittleEndian(tick, 8), EncodeCharacters(ar, cs));
      digest := hasher.Finish();
    }

    method HashCharacter(hasher: Fnv1a64, c: Character<F>)
      modifies hasher
      ensures hasher.state == Fnv(old(hasher.state), EncodeCharacter(ar, c))
    {
      hasher.Update(LittleEndian(c.entityId, 8));
      hasher.Update(EncodeFloat(ar, c.position.x));
      hasher.Update(EncodeFloat(ar, c.position.y));
      hasher.Update(EncodeFloat(ar, c.velocity.x));
      hasher.Update(EncodeFloat(ar, c.velocity.y));
      FnvFields(old(hasher.state), LittleEndian(c.entityId, 8),
        EncodeFloat(ar, c.position.x), EncodeFloat(ar, c.position.y),
        EncodeFloat(ar, c.velocity.x), EncodeFloat(ar, c.velocity.y));
    }
  }

  lemma EncodeNext<F>(ar: Arith<F>, s: U64, cs: seq<Character<F>>, i: nat)
    requires i < |cs|
    ensures Fnv(s, EncodeCharacters(ar, cs[..i + 1])) == Fnv(Fnv(s, EncodeCharacters(ar, cs[..i])), EncodeCharacter(ar, cs[i]))
  {
    assert cs[..i + 1][..i] == cs[..i];
    FnvConcat(s, EncodeCharacters(ar, cs[..i]), EncodeCharacter(ar, cs[i]));
  }

  lemma FnvFields(s: U64, a: seq<Byte>, b: seq<Byte>, c: seq<Byte>, d: seq<Byte>, e: seq<Byte>)
    ensures Fnv(s, a + b + c + d + e) == Fnv(Fnv(Fnv(Fnv(Fnv(s, a), b), c), d), e)
  {
    FnvConcat(s, a, b);
    FnvConcat(s, a + b, c);
    FnvConcat(s, a + b + c, d);
    FnvConcat(s, a + b + c + d, e);
  }

  // Ordering by entity id.

  lemma {:induction false} MovementsKeepIdentity<F>(ar: Arith<F>, dt: F, cs: seq<Character<F>>, inputs: seq<StepInput<F>>)
    ensures forall i :: 0 <= i < |cs| ==>
      var c := ApplyMovements(ar, dt, cs, inputs)[i];
      c.entityId == cs[i].entityId && c.playerId == cs[i].playerId
  {
    if inputs == [] {
    } else {
      MovementsKeepIdentity(ar, dt, cs, inputs[..|inputs| - 1]);
    }
  }

  /** Advancing never disturbs the entity order. */
  lemma AdvanceOrdered<F>(ar: Arith<F>, w: WorldState<F>, inputs: seq<StepInput<F>>)
    requires Ordered(w)
    ensures Ordered(Advance(ar, w, inputs))
  {
    MovementsKeepIdentity(ar, w.dt, w.characters, inputs);
  }

  /** Spawning appends a character with a fresh greatest id, so the order needs no repair. */
  lemma SpawnOrdered<F>(ar: Arith<F>, w: WorldState<F>, playerId: PlayerId)
    requires Ordered(w)
    ensures Ordered(Spawn(ar, w, playerId))
    ensures SortBy(EntityKey, Spawn(ar, w, playerId).characters) == Spawn(ar, w, playerId).characters
  {
    SortByIdentity(EntityKey, Spawn(ar, w, playerId).characters);
  }

  // The encoding is injective up to canonicalisation.

  /** Equal as far as the digest may tell: same identity, and floats equal up to zeros and NaNs. */
  ghost predicate SameFloat<F>(ar: Arith<F>, x: F, y: F) {
    var u, v := ar.bits(x), ar.bits(y);
    u == v || (IsNan(u) && IsNan(v)) || (IsZero(u) && IsZero(v))
  }

  ghost predicate SameCharacter<F>(ar: Arith<F>, c: Character<F>, d: Character<F>) {
    && c.entityId == d.entityId
    && SameFloat(ar, c.position.x, d.position.x) && SameFloat(ar, c.position.y, d.position.y)
    && SameFloat(ar, c.velocity.x, d.velocity.x) && SameFloat(ar, c.velocity.y, d.velocity.y)
  }

  ghost predicate SameWorld<F>(ar: Arith<F>, tick: nat, cs: seq<Character<F>>, tick': nat, ds: seq<Character<F>>) {
    tick == tick' && SameCharacters(ar, cs, ds)
  }

  ghost predicate SameCharacters<F>(ar: Arith<F>, cs: seq<Character<F>>, ds: seq<Character<F>>) {
    |cs| == |ds| && forall i :: 0 <= i < |cs| ==> SameCharacter(ar, cs[i], ds[i])
  }

  lemma WordsInjective(u: nat, v: nat)
    requires u < 0x1_0000_0000_0000_0000 && v < 0x1_0000_0000_0000_0000
    ensures LittleEndian(u, 8) == LittleEndian(v, 8) <==> u == v
  {
    Pow2Literals();
    LittleEndianRoundTrip(u, 8);
    LittleEndianRoundTrip(v, 8);
  }

  lemma FloatsInjective<F>(ar: Arith<F>, x: F, y: F)
    ensures EncodeFloat(ar, x) == EncodeFloat(ar, y) <==> SameFloat(ar, x, y)
  {
    CanonicalEquivalence(ar.bits(x), ar.bits(y));
    WordsInjective(Canonical(ar.bits(x)), Canonical(ar.bits(y)));
  }

  lemma FieldsInjective(a: seq<Byte>, b: seq<Byte>, a': seq<Byte>, b': seq<Byte>)
    requires |b| == |b'|
    ensures a + b == a' + b' <==> a == a' && b == b'
  {
    if a + b == a' + b' {
      assert |a| == |a'|;
      assert a == (a + b)[..|a|] && a' == (a' + b')[..|a|];
      assert b == (a + b)[|a|..] && b' == (a' + b')[|a|..];
    }
  }

  lemma CharactersInjective<F>(ar: Arith<F>, c: Character<F>, d: Character<F>)
    requires c.entityId < 0x1_0000_0000_0000_0000 && d.entityId < 0x1_0000_0000_0000_0000
    ensures EncodeCharacter(ar, c) == EncodeCharacter(ar, d) <==> SameCharacter(ar, c, d)
  {
    WordsInjective(c.entityId, d.entityId);
    FloatsInjective(ar, c.position.x, d.position.x);
    FloatsInjective(ar, c.position.y, d.position.y);
    FloatsInjective(ar, c.velocity.x, d.velocity.x);
    FloatsInjective(ar, c.velocity.y, d.velocity.y);
    var c0, d0 := LittleEndian(c.entityId, 8), LittleEndian(d.entityId, 8);
    var c1, d1 := EncodeFloat(ar, c.position.x), EncodeFloat(ar, d.position.x);
    var c2, d2 := EncodeFloat(ar, c.position.y), EncodeFloat(ar, d.position.y);
    var c3, d3 := EncodeFloat(ar, c.velocity.x), EncodeFloat(ar, d.velocity.x);
    var c4, d4 := EncodeFloat(ar, c.velocity.y), EncodeFloat(ar, d.velocity.y);
    FieldsInjective(c0, c1, d0, d1);
    FieldsInjective(c0 + c1, c2, d0 + d1, d2);
    FieldsInjective(c0 + c1 + c2, c3, d0 + d1 + d2, d3);
    FieldsInjective(c0 + c1 + c2 + c3, c4, d0 + d1 + d2 + d3, d4);
  }

  ghost predicate WordIds<F>(cs: seq<Character<F>>) {
    forall i :: 0 <= i < |cs| ==> cs[i].entityId < 0x1_0000_0000_0000_0000
  }

  lemma {:induction false} CharacterListsInjective<F>(ar: Arith<F>, cs: seq<Character<F>>, ds: seq<Character<F>>)
    requires WordIds(cs) && WordIds(ds) && |cs| == |ds|
    ensures EncodeCharacters(ar, cs) == EncodeCharacters(ar, ds) <==> SameCharacters(ar, cs, ds)
  {
    if cs == [] {
    } else {
      var n := |cs| - 1;
      var cs', ds' := cs[..n], ds[..n];
      CharacterListsInjective(ar, cs', ds');
      CharactersInjective(ar, cs[n], ds[n]);
      FieldsInjective(EncodeCharacters(ar, cs'), EncodeCharacter(ar, cs[n]),
        EncodeCharacters(ar, ds'), EncodeCharacter(ar, ds[n]));
      SameLast(ar, cs, ds);
    }
  }

  lemma SameLast<F>(ar: Arith<F>, cs: seq<Character<F>>, ds: seq<Character<F>>)
    requires |cs| == |ds| > 0
    ensures
      var n := |cs| - 1;
      SameCharacters(ar, cs, ds) <==> SameCharacters(ar, cs[..n], ds[..n]) && SameCharacter(ar, cs[n], ds[n])
  {
    var n := |cs| - 1;
    assert forall i :: 0 <= i < n ==> cs[..n][i] == cs[i] && ds[..n][i] == ds[i];
  }

  /**
   The bytes fed to the hasher determine the tick and the entity list in order, up to
   the sign of zero and the payload of NaNs, and nothing finer.
   */
  lemma EncodingInjective<F>(ar: Arith<F>, tick: nat, cs: seq<Character<F>>, tick': nat, ds: seq<Character<F>>)
    requires tick < 0x1_0000_0000_0000_0000 && tick' < 0x1_0000_0000_0000_0000
    requires WordIds(cs) && WordIds(ds)
    ensures EncodeWorld(ar, tick, cs) == EncodeWorld(ar, tick', ds) <==> SameWorld(ar, tick, cs, tick', ds)
  {
    WordsInjective(tick, tick');
    if |cs| == |ds| { CharacterListsInjective(ar, cs, ds); }
    var a, b := LittleEndian(tick, 8), EncodeCharacters(ar, cs);
    var a', b' := LittleEndian(tick', 8), EncodeCharacters(ar, ds);
    if |b| == |b'| {
      FieldsInjective(a, b, a', b');
    } else {
      assert |a + b| != |a' + b'|;
    }
  }

  /** Worlds the encoding does not tell apart have one digest; a one-byte difference always shows. */
  lemma DigestSensitivity<F>(ar: Arith<F>, w: WorldState<F>, v: WorldState<F>)
    requires w.tick < 0x1_0000_0000_0000_0000 && v.tick < 0x1_0000_0000_0000_0000
    requires WordIds(w.characters) && WordIds(v.characters)
    ensures SameWorld(ar, w.tick, w.characters, v.tick, v.characters) ==> StateDigest(ar, w) == StateDigest(ar, v)
    ensures
      var a, b := EncodeWorld(ar, w.tick, w.characters), EncodeWorld(ar, v.tick, v.characters);
      |a| == |b| && (exists i :: 0 <= i < |a| && a[i] != b[i] && forall j :: 0 <= j < |a| && j != i ==> a[j] == b[j])
      ==> StateDigest(ar, w) != StateDigest(ar, v)
  {
    EncodingInjective(ar, w.tick, w.characters, v.tick, v.characters);
    var a, b := EncodeWorld(ar, w.tick, w.characters), EncodeWorld(ar, v.tick, v.characters);
    if |a| == |b| {
      if i :| 0 <= i < |a| && a[i] != b[i] && forall j :: 0 <= j < |a| && j != i ==> a[j] == b[j] {
        OneByteChangesHash(OFFSET_BASIS, a, b, i);
      }
    }
  }
}
