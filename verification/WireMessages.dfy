/**
 The client's messages as field lists, and what decoding a field list means.

 A message is printed as `...Fields` and read by folding `...Assign` over the fields that
 `ParseFields` finds. The round trips and the indifference to unknown fields are proved
 here; the codec's methods (in WireCodec.dfy) are proved to compute these functions.
 */
module WireMessages {
  import opened Words
  import opened Sequences
  import opened Varint
  import opened WireFormat

  // GDScript ints are signed words; doubles are bit patterns.

  datatype ServerWelcome = ServerWelcome(targetTickFloor: I64, tickRateHz: I64, playerId: I64, controlledEntityId: I64)

  datatype EntitySnapshotProto = EntitySnapshotProto(entityId: I64, position: seq<U64>, velocity: seq<U64>)

  datatype JoinBaseline = JoinBaseline(tick: I64, entities: seq<EntitySnapshotProto>, digest: I64)

  datatype InputCmdProto = InputCmdProto(tick: I64, inputSeq: I64, moveDir: seq<U64>)

  datatype SnapshotProto = SnapshotProto(tick: I64, entities: seq<EntitySnapshotProto>, digest: I64, targetTickFloor: I64)

  /** Double lists no longer than any memory holds, so that byte counts are signed words. */
  predicate Sized(vs: seq<U64>) { |vs| < 0x1_0000_0000_0000 }

  predicate SizedEntity(e: EntitySnapshotProto) { Sized(e.position) && Sized(e.velocity) }

  predicate SizedEntities(es: seq<EntitySnapshotProto>) { forall i :: 0 <= i < |es| ==> SizedEntity(es[i]) }

  // Printing. A zero number and an empty list are left out; a list of zeros is not.

  function NumberField(number: int, x: I64): (fs: seq<Field>)
    requires 0 <= number < 16
    ensures AllWellFormed(fs)
  {
    if x == 0 then [] else [Field(number, Number(Pattern(x)))]
  }

  function DoublesField(number: int, vs: seq<U64>): (fs: seq<Field>)
    requires 0 <= number < 16 && Sized(vs)
    ensures AllWellFormed(fs)
  {
    if vs == [] then [] else [Field(number, Delimited(PackDoubles(vs)))]
  }

  function WelcomeFields(m: ServerWelcome): (fs: seq<Field>)
    ensures AllWellFormed(fs)
  {
    NumberField(1, m.targetTickFloor) + NumberField(2, m.tickRateHz) + NumberField(3, m.playerId) + NumberField(4, m.controlledEntityId)
  }

  function EntityFields(e: EntitySnapshotProto): (fs: seq<Field>)
    requires SizedEntity(e)
    ensures AllWellFormed(fs)
  {
    NumberField(1, e.entityId) + DoublesField(2, e.position) + DoublesField(3, e.velocity)
  }

  function EntitiesFields(es: seq<EntitySnapshotProto>): (fs: seq<Field>)
    requires SizedEntities(es)
    ensures AllWellFormed(fs)
  {
    if es == [] then []
    else
      EntityBytesFit(es[|es| - 1]);
      EntitiesFields(es[..|es| - 1]) + [EntityField(es[|es| - 1])]
  }

  function EntityField(e: EntitySnapshotProto): Field
    requires SizedEntity(e)
  {
    Field(2, Delimited(Serialize(EntityFields(e))))
  }

  function InputFields(m: InputCmdProto): (fs: seq<Field>)
    requires Sized(m.moveDir)
    ensures AllWellFormed(fs)
  {
    NumberField(1, m.tick) + NumberField(2, m.inputSeq) + DoublesField(3, m.moveDir)
  }

  function BaselineFields(m: JoinBaseline): (fs: seq<Field>)
    requires SizedEntities(m.entities)
    ensures AllWellFormed(fs)
  {
    NumberField(1, m.tick) + EntitiesFields(m.entities) + NumberField(3, m.digest)
  }

  function SnapshotFields(m: SnapshotProto): (fs: seq<Field>)
    requires SizedEntities(m.entities)
    ensures AllWellFormed(fs)
  {
    NumberField(1, m.tick) + EntitiesFields(m.entities) + NumberField(3, m.digest) + NumberField(4, m.targetTickFloor)
  }

  // Sizes.

  lemma NumberFieldSize(number: int, x: I64)
    requires 0 <= number < 16
    ensures |Serialize(NumberField(number, x))| <= 20
  {
    if x != 0 {
      TenBytes(8 * number);
      TenBytes(Pattern(x));
      SerializeOne(NumberField(number, x)[0]);
    }
  }

  lemma DoublesFieldSize(number: int, vs: seq<U64>)
    requires 0 <= number < 16 && Sized(vs)
    ensures |Serialize(DoublesField(number, vs))| <= 20 + 8 * |vs|
  {
    if vs != [] {
      TenBytes(8 * number + 2);
      TenBytes(8 * |vs|);
      SerializeOne(DoublesField(number, vs)[0]);
    }
  }

  lemma SerializeOne(f: Field)
    requires f.WellFormed()
    ensures Serialize([f]) == f.Encode()
  {
    SerializeCons(f, []);
    assert [f] + [] == [f] && f.Encode() + [] == f.Encode();
  }

  lemma EntityBytesFit(e: EntitySnapshotProto)
    requires SizedEntity(e)
    ensures EntityField(e).WellFormed()
  {
    var a, b, c := NumberField(1, e.entityId), DoublesField(2, e.position), DoublesField(3, e.velocity);
    SerializeConcat(a, b);
    SerializeConcat(a + b, c);
    NumberFieldSize(1, e.entityId);
    DoublesFieldSize(2, e.position);
    DoublesFieldSize(3, e.velocity);
  }

  // Reading: the fold of an assignment over the fields.

  function Fold<M>(assign: (M, Field) -> M, m: M, fs: seq<Field>): M
    decreases |fs|
  {
    if fs == [] then m else Fold(assign, assign(m, fs[0]), fs[1..])
  }

  lemma {:induction false} FoldConcat<M>(assign: (M, Field) -> M, m: M, fs: seq<Field>, gs: seq<Field>)
    ensures Fold(assign, m, fs + gs) == Fold(assign, Fold(assign, m, fs), gs)
    decreases |fs|
  {
    if fs == [] {
      assert fs + gs == gs;
    } else {
      FoldConcat(assign, assign(m, fs[0]), fs[1..], gs);
      assert (fs + gs)[1..] == fs[1..] + gs;
    }
  }

  lemma FoldOne<M>(assign: (M, Field) -> M, m: M, f: Field)
    ensures Fold(assign, m, [f]) == assign(m, f)
  {
    assert [f][1..] == [];
  }

  /** The bytes parse to their end, and every field the message knows has its own wire type. */
  ghost predicate Readable(typed: Field -> bool, bytes: seq<Byte>) {
    ParseFields(bytes).Some? && AllOf(typed, ParseFields(bytes).value)
  }

  ghost predicate AllOf(p: Field -> bool, fs: seq<Field>) {
    forall f :: f in fs ==> p(f)
  }

  function Decode<M>(assign: (M, Field) -> M, initial: M, bytes: seq<Byte>): M
    requires ParseFields(bytes).Some?
  {
    Fold(assign, initial, ParseFields(bytes).value)
  }

  // What each message makes of a field. Later fields overwrite earlier ones; entities are appended.

  predicate WelcomeTyped(f: Field) { 1 <= f.number <= 4 ==> f.payload.Number? }

  function WelcomeAssign(m: ServerWelcome, f: Field): ServerWelcome {
    if !f.payload.Number? then m
    else if f.number == 1 then m.(targetTickFloor := Signed(f.payload.value))
    else if f.number == 2 then m.(tickRateHz := Signed(f.payload.value))
    else if f.number == 3 then m.(playerId := Signed(f.payload.value))
    else if f.number == 4 then m.(controlledEntityId := Signed(f.payload.value))
    else m
  }

  predicate IsDoubles(p: Payload) { p.Delimited? && |p.bytes| % 8 == 0 }

  predicate EntityTyped(f: Field) { (f.number == 1 ==> f.payload.Number?) && (2 <= f.number <= 3 ==> IsDoubles(f.payload)) }

  function EntityAssign(m: EntitySnapshotProto, f: Field): EntitySnapshotProto {
    if f.number == 1 && f.payload.Number? then m.(entityId := Signed(f.payload.value))
    else if f.number == 2 && IsDoubles(f.payload) then m.(position := UnpackDoubles(f.payload.bytes))
    else if f.number == 3 && IsDoubles(f.payload) then m.(velocity := UnpackDoubles(f.payload.bytes))
    else m
  }

  predicate InputTyped(f: Field) { (1 <= f.number <= 2 ==> f.payload.Number?) && (f.number == 3 ==> IsDoubles(f.payload)) }

  function InputAssign(m: InputCmdProto, f: Field): InputCmdProto {
    if f.number == 1 && f.payload.Number? then m.(tick := Signed(f.payload.value))
    else if f.number == 2 && f.payload.Number? then m.(inputSeq := Signed(f.payload.value))
    else if f.number == 3 && IsDoubles(f.payload) then m.(moveDir := UnpackDoubles(f.payload.bytes))
    else m
  }

  const EMPTY_WELCOME := ServerWelcome(0, 0, 0, 0)
  const EMPTY_ENTITY := EntitySnapshotProto(0, [], [])
  const EMPTY_INPUT := InputCmdProto(0, 0, [])
  const EMPTY_BASELINE := JoinBaseline(0, [], 0)
  const EMPTY_SNAPSHOT := SnapshotProto(0, [], 0, 0)

  ghost predicate IsEntity(p: Payload) { p.Delimited? && Readable(EntityTyped, p.bytes) }

  /** The entity that nested bytes hold. */
  function EntityIn(p: Payload): EntitySnapshotProto {
    if p.Delimited? && ParseFields(p.bytes).Some? then Decode(EntityAssign, EMPTY_ENTITY, p.bytes) else EMPTY_ENTITY
  }

  ghost predicate BaselineTyped(f: Field) {
    (f.number == 1 || f.number == 3 ==> f.payload.Number?) && (f.number == 2 ==> IsEntity(f.payload))
  }

  function BaselineAssign(m: JoinBaseline, f: Field): JoinBaseline {
    if f.number == 1 && f.payload.Number? then m.(tick := Signed(f.payload.value))
    else if f.number == 2 then m.(entities := m.entities + [EntityIn(f.payload)])
    else if f.number == 3 && f.payload.Number? then m.(digest := Signed(f.payload.value))
    else m
  }

  ghost predicate SnapshotTyped(f: Field) {
    (f.number == 1 || f.number == 3 || f.number == 4 ==> f.payload.Number?) && (f.number == 2 ==> IsEntity(f.payload))
  }

  function SnapshotAssign(m: SnapshotProto, f: Field): SnapshotProto {
    if f.number == 1 && f.payload.Number? then m.(tick := Signed(f.payload.value))
    else if f.number == 2 then m.(entities := m.entities + [EntityIn(f.payload)])
    else if f.number == 3 && f.payload.Number? then m.(digest := Signed(f.payload.value))
    else if f.number == 4 && f.payload.Number? then m.(targetTickFloor := Signed(f.payload.value))
    else m
  }

  // Round trips.

  lemma FoldNumber<M>(assign: (M, Field) -> M, m: M, number: int, x: I64)
    requires 0 <= number < 16
    ensures Fold(assign, m, NumberField(number, x)) == if x == 0 then m else assign(m, Field(number, Number(Pattern(x))))
  {
    if x != 0 { FoldOne(assign, m, Field(number, Number(Pattern(x)))); }
  }

  lemma FoldDoubles<M>(assign: (M, Field) -> M, m: M, number: int, vs: seq<U64>)
    requires 0 <= number < 16 && Sized(vs)
    ensures Fold(assign, m, DoublesField(number, vs)) == if vs == [] then m else assign(m, Field(number, Delimited(PackDoubles(vs))))
    ensures UnpackDoubles(PackDoubles(vs)) == vs
  {
    DoublesRoundTrip(vs);
    if vs != [] { FoldOne(assign, m, Field(number, Delimited(PackDoubles(vs)))); }
  }

  /** A chain of folds, and of fields all of one kind. */
  lemma Chain<M>(assign: (M, Field) -> M, typed: Field -> bool, m: M, a: seq<Field>, b: seq<Field>, after: M)
    requires Fold(assign, Fold(assign, m, a), b) == after && AllOf(typed, a) && AllOf(typed, b)
    ensures Fold(assign, m, a + b) == after && AllOf(typed, a + b)
  {
    FoldConcat(assign, m, a, b);
  }

  lemma ReadBack<M>(assign: (M, Field) -> M, typed: Field -> bool, initial: M, fs: seq<Field>, m: M)
    requires AllWellFormed(fs) && Fold(assign, initial, fs) == m && AllOf(typed, fs)
    ensures Readable(typed, Serialize(fs)) && Decode(assign, initial, Serialize(fs)) == m
  {
    FieldsRoundTrip(fs);
  }

  /** Every server welcome survives encoding and decoding. */
  lemma WelcomeRoundTrip(m: ServerWelcome)
    ensures Readable(WelcomeTyped, Serialize(WelcomeFields(m)))
    ensures Decode(WelcomeAssign, EMPTY_WELCOME, Serialize(WelcomeFields(m))) == m
  {
    var a, b := NumberField(1, m.targetTickFloor), NumberField(2, m.tickRateHz);
    var c, d := NumberField(3, m.playerId), NumberField(4, m.controlledEntityId);
    var m1 := EMPTY_WELCOME.(targetTickFloor := m.targetTickFloor);
    var m2 := m1.(tickRateHz := m.tickRateHz);
    var m3 := m2.(playerId := m.playerId);
    FoldNumber(WelcomeAssign, EMPTY_WELCOME, 1, m.targetTickFloor);
    FoldNumber(WelcomeAssign, m1, 2, m.tickRateHz);
    Chain(WelcomeAssign, WelcomeTyped, EMPTY_WELCOME, a, b, m2);
    FoldNumber(WelcomeAssign, m2, 3, m.playerId);
    Chain(WelcomeAssign, WelcomeTyped, EMPTY_WELCOME, a + b, c, m3);
    FoldNumber(WelcomeAssign, m3, 4, m.controlledEntityId);
    Chain(WelcomeAssign, WelcomeTyped, EMPTY_WELCOME, a + b + c, d, m);
    ReadBack(WelcomeAssign, WelcomeTyped, EMPTY_WELCOME, WelcomeFields(m), m);
  }

  /** Every entity survives, with empty and all-zero lists told apart. */
  lemma EntityRoundTrip(e: EntitySnapshotProto)
    requires SizedEntity(e)
    ensures Readable(EntityTyped, Serialize(EntityFields(e)))
    ensures Decode(EntityAssign, EMPTY_ENTITY, Serialize(EntityFields(e))) == e
  {
    var a, b, c := NumberField(1, e.entityId), DoublesField(2, e.position), DoublesField(3, e.velocity);
    var e1 := EMPTY_ENTITY.(entityId := e.entityId);
    var e2 := e1.(position := e.position);
    FoldNumber(EntityAssign, EMPTY_ENTITY, 1, e.entityId);
    FoldDoubles(EntityAssign, e1, 2, e.position);
    Chain(EntityAssign, EntityTyped, EMPTY_ENTITY, a, b, e2);
    FoldDoubles(EntityAssign, e2, 3, e.velocity);
    Chain(EntityAssign, EntityTyped, EMPTY_ENTITY, a + b, c, e);
    ReadBack(EntityAssign, EntityTyped, EMPTY_ENTITY, EntityFields(e), e);
  }

  lemma InputRoundTrip(m: InputCmdProto)
    requires Sized(m.moveDir)
    ensures Readable(InputTyped, Serialize(InputFields(m)))
    ensures Decode(InputAssign, EMPTY_INPUT, Serialize(InputFields(m))) == m
  {
    var a, b, c := NumberField(1, m.tick), NumberField(2, m.inputSeq), DoublesField(3, m.moveDir);
    var m1 := EMPTY_INPUT.(tick := m.tick);
    var m2 := m1.(inputSeq := m.inputSeq);
    FoldNumber(InputAssign, EMPTY_INPUT, 1, m.tick);
    FoldNumber(InputAssign, m1, 2, m.inputSeq);
    Chain(InputAssign, InputTyped, EMPTY_INPUT, a, b, m2);
    FoldDoubles(InputAssign, m2, 3, m.moveDir);
    Chain(InputAssign, InputTyped, EMPTY_INPUT, a + b, c, m);
    ReadBack(InputAssign, InputTyped, EMPTY_INPUT, InputFields(m), m);
  }

  lemma NestedEntity(e: EntitySnapshotProto)
    requires SizedEntity(e)
    ensures IsEntity(EntityField(e).payload) && EntityIn(EntityField(e).payload) == e
  {
    EntityRoundTrip(e);
  }

  lemma Rejoin<T>(xs: seq<T>, ys: seq<T>)
    requires ys != []
    ensures xs + ys[..|ys| - 1] + [ys[|ys| - 1]] == xs + ys
  {
  }

  lemma BaselineEntity(m: JoinBaseline, fs: seq<Field>, after: JoinBaseline, e: EntitySnapshotProto)
    requires SizedEntity(e) && Fold(BaselineAssign, m, fs) == after && AllOf(BaselineTyped, fs) && AllOf(BaselineKnows, fs)
    ensures Fold(BaselineAssign, m, fs + [EntityField(e)]) == after.(entities := after.entities + [e])
    ensures AllOf(BaselineTyped, fs + [EntityField(e)]) && AllOf(BaselineKnows, fs + [EntityField(e)])
  {
    NestedEntity(e);
    FoldConcat(BaselineAssign, m, fs, [EntityField(e)]);
    FoldOne(BaselineAssign, after, EntityField(e));
  }

  lemma {:induction false} BaselineEntities(m: JoinBaseline, es: seq<EntitySnapshotProto>)
    requires SizedEntities(es)
    ensures Fold(BaselineAssign, m, EntitiesFields(es)) == m.(entities := m.entities + es)
    ensures AllOf(BaselineTyped, EntitiesFields(es)) && AllOf(BaselineKnows, EntitiesFields(es))
  {
    if es == [] {
      assert m.entities + es == m.entities;
    } else {
      var front, e := es[..|es| - 1], es[|es| - 1];
      var fs := EntitiesFields(front);
      assert EntitiesFields(es) == fs + [EntityField(e)];
      BaselineEntities(m, front);
      BaselineEntity(m, fs, m.(entities := m.entities + front), e);
      Rejoin(m.entities, es);
    }
  }

  lemma BaselineRoundTrip(m: JoinBaseline)
    requires SizedEntities(m.entities)
    ensures Readable(BaselineTyped, Serialize(BaselineFields(m)))
    ensures Decode(BaselineAssign, EMPTY_BASELINE, Serialize(BaselineFields(m))) == m
  {
    var a, b, c := NumberField(1, m.tick), EntitiesFields(m.entities), NumberField(3, m.digest);
    var m1 := EMPTY_BASELINE.(tick := m.tick);
    var m2 := m1.(entities := m.entities);
    FoldNumber(BaselineAssign, EMPTY_BASELINE, 1, m.tick);
    BaselineEntities(m1, m.entities);
    assert m1.entities + m.entities == m.entities;
    Chain(BaselineAssign, BaselineTyped, EMPTY_BASELINE, a, b, m2);
    FoldNumber(BaselineAssign, m2, 3, m.digest);
    Chain(BaselineAssign, BaselineTyped, EMPTY_BASELINE, a + b, c, m);
    ReadBack(BaselineAssign, BaselineTyped, EMPTY_BASELINE, BaselineFields(m), m);
  }

  lemma SnapshotEntity(m: SnapshotProto, fs: seq<Field>, after: SnapshotProto, e: EntitySnapshotProto)
    requires SizedEntity(e) && Fold(SnapshotAssign, m, fs) == after && AllOf(SnapshotTyped, fs) && AllOf(SnapshotKnows, fs)
    ensures Fold(SnapshotAssign, m, fs + [EntityField(e)]) == after.(entities := after.entities + [e])
    ensures AllOf(SnapshotTyped, fs + [EntityField(e)]) && AllOf(SnapshotKnows, fs + [EntityField(e)])
  {
    NestedEntity(e);
    FoldConcat(SnapshotAssign, m, fs, [EntityField(e)]);
    FoldOne(SnapshotAssign, after, EntityField(e));
  }

  lemma {:induction false} SnapshotEntities(m: SnapshotProto, es: seq<EntitySnapshotProto>)
    requires SizedEntities(es)
    ensures Fold(SnapshotAssign, m, EntitiesFields(es)) == m.(entities := m.entities + es)
    ensures AllOf(SnapshotTyped, EntitiesFields(es)) && AllOf(SnapshotKnows, EntitiesFields(es))
  {
    if es == [] {
      assert m.entities + es == m.entities;
    } else {
      var front, e := es[..|es| - 1], es[|es| - 1];
      var fs := EntitiesFields(front);
      assert EntitiesFields(es) == fs + [EntityField(e)];
      SnapshotEntities(m, front);
      SnapshotEntity(m, fs, m.(entities := m.entities + front), e);
      Rejoin(m.entities, es);
    }
  }

  lemma HeadChain(m: SnapshotProto, fs: seq<Field>)
    requires Fold(SnapshotAssign, SnapshotProto(m.tick, [], 0, 0), fs) == SnapshotProto(m.tick, m.entities, 0, 0)
    requires AllOf(SnapshotTyped, fs)
    ensures Fold(SnapshotAssign, EMPTY_SNAPSHOT, NumberField(1, m.tick) + fs) == SnapshotProto(m.tick, m.entities, 0, 0)
    ensures AllOf(SnapshotTyped, NumberField(1, m.tick) + fs)
  {
    FoldNumber(SnapshotAssign, EMPTY_SNAPSHOT, 1, m.tick);
    Chain(SnapshotAssign, SnapshotTyped, EMPTY_SNAPSHOT, NumberField(1, m.tick), fs, SnapshotProto(m.tick, m.entities, 0, 0));
  }

  lemma SnapshotHead(m: SnapshotProto)
    requires SizedEntities(m.entities)
    ensures Fold(SnapshotAssign, EMPTY_SNAPSHOT, NumberField(1, m.tick) + EntitiesFields(m.entities))
         == SnapshotProto(m.tick, m.entities, 0, 0)
    ensures AllOf(SnapshotTyped, NumberField(1, m.tick) + EntitiesFields(m.entities))
  {
    SnapshotEntities(SnapshotProto(m.tick, [], 0, 0), m.entities);
    assert [] + m.entities == m.entities;
    HeadChain(m, EntitiesFields(m.entities));
  }

  /** Every snapshot survives, with any number of entities and any 64-bit patterns. */
  lemma SnapshotRoundTrip(m: SnapshotProto)
    requires SizedEntities(m.entities)
    ensures Readable(SnapshotTyped, Serialize(SnapshotFields(m)))
    ensures Decode(SnapshotAssign, EMPTY_SNAPSHOT, Serialize(SnapshotFields(m))) == m
  {
    var head := NumberField(1, m.tick) + EntitiesFields(m.entities);
    var c, d := NumberField(3, m.digest), NumberField(4, m.targetTickFloor);
    var m2 := SnapshotProto(m.tick, m.entities, 0, 0);
    var m3 := m2.(digest := m.digest);
    SnapshotHead(m);
    FoldNumber(SnapshotAssign, m2, 3, m.digest);
    Chain(SnapshotAssign, SnapshotTyped, EMPTY_SNAPSHOT, head, c, m3);
    FoldNumber(SnapshotAssign, m3, 4, m.targetTickFloor);
    Chain(SnapshotAssign, SnapshotTyped, EMPTY_SNAPSHOT, head + c, d, m);
    ReadBack(SnapshotAssign, SnapshotTyped, EMPTY_SNAPSHOT, SnapshotFields(m), m);
  }

  // Unknown fields.

  /** A field outside the known numbers leaves the message as it is. */
  ghost predicate Ignores<M(!new)>(assign: (M, Field) -> M, known: Field -> bool) {
    forall m: M, f :: !known(f) ==> assign(m, f) == m
  }

  /** Only known numbers have a wire type of their own. */
  ghost predicate Permits(typed: Field -> bool, known: Field -> bool) {
    forall f :: !known(f) ==> typed(f)
  }

  /** Dropping every field that `assign` ignores does not change what is decoded. */
  lemma {:induction false} FoldKnown<M(!new)>(assign: (M, Field) -> M, known: Field -> bool, m: M, fs: seq<Field>)
    requires Ignores(assign, known)
    ensures Fold(assign, m, fs) == Fold(assign, m, Filter(known, fs))
  {
    if fs == [] {
    } else {
      var n := |fs| - 1;
      FoldKnown(assign, known, m, fs[..n]);
      assert fs == fs[..n] + [fs[n]];
      FoldConcat(assign, m, fs[..n], [fs[n]]);
      FoldOne(assign, Fold(assign, m, fs[..n]), fs[n]);
      if known(fs[n]) {
        FoldConcat(assign, m, Filter(known, fs[..n]), [fs[n]]);
        FoldOne(assign, Fold(assign, m, Filter(known, fs[..n])), fs[n]);
      }
    }
  }

  predicate WelcomeKnows(f: Field) { 1 <= f.number <= 4 }
  predicate EntityKnows(f: Field) { 1 <= f.number <= 3 }
  predicate InputKnows(f: Field) { 1 <= f.number <= 3 }
  predicate BaselineKnows(f: Field) { 1 <= f.number <= 3 }
  predicate SnapshotKnows(f: Field) { 1 <= f.number <= 4 }

  /**
   Forward compatibility. Bytes whose known fields are those of an encoded message, with
   any well-formed unknown fields anywhere between them, are readable and decode to it.
   */
  lemma ForwardCompatible<M(!new)>(
    assign: (M, Field) -> M, typed: Field -> bool, known: Field -> bool, initial: M, own: seq<Field>, fs: seq<Field>)
    requires Ignores(assign, known) && Permits(typed, known)
    requires AllWellFormed(own) && AllWellFormed(fs) && Filter(known, fs) == own
    requires Readable(typed, Serialize(own))
    ensures Readable(typed, Serialize(fs))
    ensures Decode(assign, initial, Serialize(fs)) == Decode(assign, initial, Serialize(own))
  {
    FieldsRoundTrip(own);
    FieldsRoundTrip(fs);
    FoldKnown(assign, known, initial, fs);
    forall f | f in fs ensures typed(f) {
      if known(f) { FilterMember(known, fs, f); }
    }
  }

  lemma UnknownIgnored()
    ensures Ignores(WelcomeAssign, WelcomeKnows) && Ignores(EntityAssign, EntityKnows) && Ignores(InputAssign, InputKnows)
    ensures Ignores(BaselineAssign, BaselineKnows) && Ignores(SnapshotAssign, SnapshotKnows)
    ensures Permits(WelcomeTyped, WelcomeKnows) && Permits(EntityTyped, EntityKnows) && Permits(InputTyped, InputKnows)
    ensures Permits(BaselineTyped, BaselineKnows) && Permits(SnapshotTyped, SnapshotKnows)
  {
  }

  lemma WelcomeForward(m: ServerWelcome, fs: seq<Field>)
    requires AllWellFormed(fs) && Filter(WelcomeKnows, fs) == WelcomeFields(m)
    ensures Readable(WelcomeTyped, Serialize(fs)) && Decode(WelcomeAssign, EMPTY_WELCOME, Serialize(fs)) == m
  {
    WelcomeRoundTrip(m);
    UnknownIgnored();
    ForwardCompatible(WelcomeAssign, WelcomeTyped, WelcomeKnows, EMPTY_WELCOME, WelcomeFields(m), fs);
  }

  lemma EntityForward(e: EntitySnapshotProto, fs: seq<Field>)
    requires SizedEntity(e) && AllWellFormed(fs) && Filter(EntityKnows, fs) == EntityFields(e)
    ensures Readable(EntityTyped, Serialize(fs)) && Decode(EntityAssign, EMPTY_ENTITY, Serialize(fs)) == e
  {
    EntityRoundTrip(e);
    UnknownIgnored();
    ForwardCompatible(EntityAssign, EntityTyped, EntityKnows, EMPTY_ENTITY, EntityFields(e), fs);
  }

  lemma InputForward(m: InputCmdProto, fs: seq<Field>)
    requires Sized(m.moveDir) && AllWellFormed(fs) && Filter(InputKnows, fs) == InputFields(m)
    ensures Readable(InputTyped, Serialize(fs)) && Decode(InputAssign, EMPTY_INPUT, Serialize(fs)) == m
  {
    InputRoundTrip(m);
    UnknownIgnored();
    ForwardCompatible(InputAssign, InputTyped, InputKnows, EMPTY_INPUT, InputFields(m), fs);
  }

  lemma BaselineForward(m: JoinBaseline, fs: seq<Field>)
    requires SizedEntities(m.entities) && AllWellFormed(fs) && Filter(BaselineKnows, fs) == BaselineFields(m)
    ensures Readable(BaselineTyped, Serialize(fs)) && Decode(BaselineAssign, EMPTY_BASELINE, Serialize(fs)) == m
  {
    BaselineRoundTrip(m);
    UnknownIgnored();
    ForwardCompatible(BaselineAssign, BaselineTyped, BaselineKnows, EMPTY_BASELINE, BaselineFields(m), fs);
  }

  lemma SnapshotForward(m: SnapshotProto, fs: seq<Field>)
    requires SizedEntities(m.entities) && AllWellFormed(fs) && Filter(SnapshotKnows, fs) == SnapshotFields(m)
    ensures Readable(SnapshotTyped, Serialize(fs)) && Decode(SnapshotAssign, EMPTY_SNAPSHOT, Serialize(fs)) == m
  {
    SnapshotRoundTrip(m);
    UnknownIgnored();
    ForwardCompatible(SnapshotAssign, SnapshotTyped, SnapshotKnows, EMPTY_SNAPSHOT, SnapshotFields(m), fs);
  }

  // Unknown fields at any depth.

  /** Nested entity messages, each with unknown fields of its own. */
  ghost predicate NestedAs(nested: seq<seq<Field>>, es: seq<EntitySnapshotProto>) {
    && |nested| == |es| && SizedEntities(es)
    && forall i :: 0 <= i < |es| ==> NestedOne(nested[i], es[i])
  }

  ghost predicate NestedOne(fs: seq<Field>, e: EntitySnapshotProto)
    requires SizedEntity(e)
  {
    AllWellFormed(fs) && |Serialize(fs)| < 0x8000_0000_0000_0000 && Filter(EntityKnows, fs) == EntityFields(e)
  }

  ghost function NestedField(fs: seq<Field>): Field
    requires AllWellFormed(fs)
  {
    Field(2, Delimited(Serialize(fs)))
  }

  ghost function NestedFields(nested: seq<seq<Field>>): (fs: seq<Field>)
    requires forall i :: 0 <= i < |nested| ==> AllWellFormed(nested[i]) && |Serialize(nested[i])| < 0x8000_0000_0000_0000
    ensures AllWellFormed(fs)
  {
    if nested == [] then []
    else NestedFields(nested[..|nested| - 1]) + [NestedField(nested[|nested| - 1])]
  }

  lemma NestedReads(fs: seq<Field>, e: EntitySnapshotProto)
    requires SizedEntity(e) && NestedOne(fs, e)
    ensures IsEntity(NestedField(fs).payload) && EntityIn(NestedField(fs).payload) == e
  {
    EntityForward(e, fs);
  }

  lemma SnapshotNestedOne(m: SnapshotProto, fs: seq<Field>, after: SnapshotProto, nested: seq<Field>, e: EntitySnapshotProto)
    requires SizedEntity(e) && NestedOne(nested, e)
    requires Fold(SnapshotAssign, m, fs) == after && AllOf(SnapshotTyped, fs)
    ensures Fold(SnapshotAssign, m, fs + [NestedField(nested)]) == after.(entities := after.entities + [e])
    ensures AllOf(SnapshotTyped, fs + [NestedField(nested)])
  {
    NestedReads(nested, e);
    FoldConcat(SnapshotAssign, m, fs, [NestedField(nested)]);
    FoldOne(SnapshotAssign, after, NestedField(nested));
  }

  lemma {:induction false} SnapshotNested(m: SnapshotProto, nested: seq<seq<Field>>, es: seq<EntitySnapshotProto>)
    requires NestedAs(nested, es)
    ensures Fold(SnapshotAssign, m, NestedFields(nested)) == m.(entities := m.entities + es)
    ensures AllOf(SnapshotTyped, NestedFields(nested))
  {
    if es == [] {
      assert m.entities + es == m.entities;
    } else {
      var n := |es| - 1;
      var fs := NestedFields(nested[..n]);
      assert NestedFields(nested) == fs + [NestedField(nested[n])];
      SnapshotNested(m, nested[..n], es[..n]);
      SnapshotNestedOne(m, fs, m.(entities := m.entities + es[..n]), nested[n], es[n]);
      Rejoin(m.entities, es);
    }
  }

  ghost function SnapshotFieldsOver(m: SnapshotProto, nested: seq<seq<Field>>): (fs: seq<Field>)
    requires NestedAs(nested, m.entities)
    ensures AllWellFormed(fs)
  {
    NumberField(1, m.tick) + NestedFields(nested) + NumberField(3, m.digest) + NumberField(4, m.targetTickFloor)
  }

  lemma SnapshotNestedAll(m: SnapshotProto, nested: seq<seq<Field>>, empty: SnapshotProto)
    requires NestedAs(nested, m.entities) && empty == SnapshotProto(m.tick, [], 0, 0)
    ensures Fold(SnapshotAssign, empty, NestedFields(nested)) == SnapshotProto(m.tick, m.entities, 0, 0)
    ensures AllOf(SnapshotTyped, NestedFields(nested))
  {
    SnapshotNested(empty, nested, m.entities);
    assert empty.entities + m.entities == m.entities;
  }

  lemma SnapshotHeadOver(m: SnapshotProto, nested: seq<seq<Field>>)
    requires NestedAs(nested, m.entities)
    ensures Fold(SnapshotAssign, EMPTY_SNAPSHOT, NumberField(1, m.tick) + NestedFields(nested)) == SnapshotProto(m.tick, m.entities, 0, 0)
    ensures AllOf(SnapshotTyped, NumberField(1, m.tick) + NestedFields(nested))
  {
    SnapshotNestedAll(m, nested, SnapshotProto(m.tick, [], 0, 0));
    HeadChain(m, NestedFields(nested));
  }

  lemma SnapshotOver(m: SnapshotProto, nested: seq<seq<Field>>)
    requires NestedAs(nested, m.entities)
    ensures Readable(SnapshotTyped, Serialize(SnapshotFieldsOver(m, nested)))
    ensures Decode(SnapshotAssign, EMPTY_SNAPSHOT, Serialize(SnapshotFieldsOver(m, nested))) == m
  {
    var head := NumberField(1, m.tick) + NestedFields(nested);
    var c, d := NumberField(3, m.digest), NumberField(4, m.targetTickFloor);
    var m2 := SnapshotProto(m.tick, m.entities, 0, 0);
    var m3 := m2.(digest := m.digest);
    SnapshotHeadOver(m, nested);
    FoldNumber(SnapshotAssign, m2, 3, m.digest);
    Chain(SnapshotAssign, SnapshotTyped, EMPTY_SNAPSHOT, head, c, m3);
    FoldNumber(SnapshotAssign, m3, 4, m.targetTickFloor);
    Chain(SnapshotAssign, SnapshotTyped, EMPTY_SNAPSHOT, head + c, d, m);
    ReadBack(SnapshotAssign, SnapshotTyped, EMPTY_SNAPSHOT, SnapshotFieldsOver(m, nested), m);
  }

  /**
   Forward compatibility at every depth: unknown well-formed fields between the fields of
   a snapshot, and between the fields of each nested entity, change nothing.
   */
  lemma SnapshotForwardDeep(m: SnapshotProto, nested: seq<seq<Field>>, fs: seq<Field>)
    requires NestedAs(nested, m.entities) && AllWellFormed(fs) && Filter(SnapshotKnows, fs) == SnapshotFieldsOver(m, nested)
    ensures Readable(SnapshotTyped, Serialize(fs)) && Decode(SnapshotAssign, EMPTY_SNAPSHOT, Serialize(fs)) == m
  {
    SnapshotOver(m, nested);
    UnknownIgnored();
    ForwardCompatible(SnapshotAssign, SnapshotTyped, SnapshotKnows, EMPTY_SNAPSHOT, SnapshotFieldsOver(m, nested), fs);
  }

  lemma BaselineNestedOne(m: JoinBaseline, fs: seq<Field>, after: JoinBaseline, nested: seq<Field>, e: EntitySnapshotProto)
    requires SizedEntity(e) && NestedOne(nested, e)
    requires Fold(BaselineAssign, m, fs) == after && AllOf(BaselineTyped, fs)
    ensures Fold(BaselineAssign, m, fs + [NestedField(nested)]) == after.(entities := after.entities + [e])
    ensures AllOf(BaselineTyped, fs + [NestedField(nested)])
  {
    NestedReads(nested, e);
    FoldConcat(BaselineAssign, m, fs, [NestedField(nested)]);
    FoldOne(BaselineAssign, after, NestedField(nested));
  }

  lemma {:induction false} BaselineNested(m: JoinBaseline, nested: seq<seq<Field>>, es: seq<EntitySnapshotProto>)
    requires NestedAs(nested, es)
    ensures Fold(BaselineAssign, m, NestedFields(nested)) == m.(entities := m.entities + es)
    ensures AllOf(BaselineTyped, NestedFields(nested))
  {
    if es == [] {
      assert m.entities + es == m.entities;
    } else {
      var n := |es| - 1;
      var fs := NestedFields(nested[..n]);
      assert NestedFields(nested) == fs + [NestedField(nested[n])];
      BaselineNested(m, nested[..n], es[..n]);
      BaselineNestedOne(m, fs, m.(entities := m.entities + es[..n]), nested[n], es[n]);
      Rejoin(m.entities, es);
    }
  }

  ghost function BaselineFieldsOver(m: JoinBaseline, nested: seq<seq<Field>>): (fs: seq<Field>)
    requires NestedAs(nested, m.entities)
    ensures AllWellFormed(fs)
  {
    NumberField(1, m.tick) + NestedFields(nested) + NumberField(3, m.digest)
  }

  lemma BaselineNestedAll(m: JoinBaseline, nested: seq<seq<Field>>, empty: JoinBaseline)
    requires NestedAs(nested, m.entities) && empty == JoinBaseline(m.tick, [], 0)
    ensures Fold(BaselineAssign, empty, NestedFields(nested)) == JoinBaseline(m.tick, m.entities, 0)
    ensures AllOf(BaselineTyped, NestedFields(nested))
  {
    BaselineNested(empty, nested, m.entities);
    assert empty.entities + m.entities == m.entities;
  }

  lemma BaselineHeadOver(m: JoinBaseline, nested: seq<seq<Field>>)
    requires NestedAs(nested, m.entities)
    ensures Fold(BaselineAssign, EMPTY_BASELINE, NumberField(1, m.tick) + NestedFields(nested)) == JoinBaseline(m.tick, m.entities, 0)
    ensures AllOf(BaselineTyped, NumberField(1, m.tick) + NestedFields(nested))
  {
    FoldNumber(BaselineAssign, EMPTY_BASELINE, 1, m.tick);
    BaselineNestedAll(m, nested, JoinBaseline(m.tick, [], 0));
    Chain(BaselineAssign, BaselineTyped, EMPTY_BASELINE, NumberField(1, m.tick), NestedFields(nested), JoinBaseline(m.tick, m.entities, 0));
  }

  lemma BaselineOver(m: JoinBaseline, nested: seq<seq<Field>>)
    requires NestedAs(nested, m.entities)
    ensures Readable(BaselineTyped, Serialize(BaselineFieldsOver(m, nested)))
    ensures Decode(BaselineAssign, EMPTY_BASELINE, Serialize(BaselineFieldsOver(m, nested))) == m
  {
    var head := NumberField(1, m.tick) + NestedFields(nested);
    BaselineHeadOver(m, nested);
    FoldNumber(BaselineAssign, JoinBaseline(m.tick, m.entities, 0), 3, m.digest);
    Chain(BaselineAssign, BaselineTyped, EMPTY_BASELINE, head, NumberField(3, m.digest), m);
    ReadBack(BaselineAssign, BaselineTyped, EMPTY_BASELINE, BaselineFieldsOver(m, nested), m);
  }

  /** The same for baselines. */
  lemma BaselineForwardDeep(m: JoinBaseline, nested: seq<seq<Field>>, fs: seq<Field>)
    requires NestedAs(nested, m.entities) && AllWellFormed(fs) && Filter(BaselineKnows, fs) == BaselineFieldsOver(m, nested)
    ensures Readable(BaselineTyped, Serialize(fs)) && Decode(BaselineAssign, EMPTY_BASELINE, Serialize(fs)) == m
  {
    BaselineOver(m, nested);
    UnknownIgnored();
    ForwardCompatible(BaselineAssign, BaselineTyped, BaselineKnows, EMPTY_BASELINE, BaselineFieldsOver(m, nested), fs);
  }

  // Splicing.

  /** In bytes: a field put in between two others is one more field of the list. */
  lemma SplicedBytes(a: seq<Field>, f: Field, b: seq<Field>)
    requires AllWellFormed(a) && AllWellFormed(b) && f.WellFormed()
    ensures AllWellFormed(a + [f] + b)
    ensures Serialize(a + [f] + b) == Serialize(a) + f.Encode() + Serialize(b)
  {
    SerializeOne(f);
    SerializeConcat(a, [f]);
    SerializeConcat(a + [f], b);
  }

  /** An unknown field is what a filter for known ones takes out again. */
  lemma SplicedFilter(known: Field -> bool, a: seq<Field>, f: Field, b: seq<Field>)
    requires AllOf(known, a) && AllOf(known, b) && !known(f)
    ensures Filter(known, a + [f] + b) == a + b
  {
    FilterConcat(known, a + [f], b);
    FilterConcat(known, a, [f]);
    FilterAll(known, a);
    FilterAll(known, b);
    FilterNone(known, [f]);
  }

  /** An unknown field spliced in at any field boundary of an encoded snapshot is skipped. */
  lemma SnapshotSplice(m: SnapshotProto, a: seq<Field>, f: Field, b: seq<Field>)
    requires SizedEntities(m.entities) && a + b == SnapshotFields(m) && f.WellFormed() && !SnapshotKnows(f)
    ensures AllWellFormed(a) && AllWellFormed(b) && Serialize(a) + Serialize(b) == Serialize(SnapshotFields(m))
    ensures
      var bytes := Serialize(a) + f.Encode() + Serialize(b);
      Readable(SnapshotTyped, bytes) && Decode(SnapshotAssign, EMPTY_SNAPSHOT, bytes) == m
  {
    PartsWellFormed(a, b);
    SerializeConcat(a, b);
    SnapshotKnowsOwn(m);
    SplicedBytes(a, f, b);
    PartsOf(SnapshotKnows, a, b);
    SplicedFilter(SnapshotKnows, a, f, b);
    SnapshotForward(m, a + [f] + b);
  }

  lemma SnapshotKnowsOwn(m: SnapshotProto)
    requires SizedEntities(m.entities)
    ensures AllOf(SnapshotKnows, SnapshotFields(m))
  {
    SnapshotEntities(EMPTY_SNAPSHOT, m.entities);
  }

  lemma PartsOf(p: Field -> bool, a: seq<Field>, b: seq<Field>)
    requires AllOf(p, a + b)
    ensures AllOf(p, a) && AllOf(p, b)
  {
    assert forall f :: f in a || f in b ==> f in a + b;
  }

  lemma PartsWellFormed(a: seq<Field>, b: seq<Field>)
    requires AllWellFormed(a + b)
    ensures AllWellFormed(a) && AllWellFormed(b)
  {
    assert forall i :: 0 <= i < |a| ==> a[i] == (a + b)[i];
    assert forall i :: 0 <= i < |b| ==> b[i] == (a + b)[|a| + i];
  }
}
