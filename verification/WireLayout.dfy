/**
 The published layout of the five messages: which field number carries what, in which order,
 and what a decoder makes of each number; with the literal bytes of small messages.

 `...Layout` says what is in an encoded message and `...Reads` what a message read from any
 well-formed bytes holds. Both speak of the parsed fields by number only.
 */
module WireLayout {
  import opened Words
  import opened WireFormat
  import opened WireMessages

  /** The payloads of the fields with this number, in order. */
  function Numbered(fs: seq<Field>, n: int): seq<Payload> {
    if fs == [] then []
    else
      var front, last := Numbered(fs[..|fs| - 1], n), fs[|fs| - 1];
      if last.number == n then front + [last.payload] else front
  }

  ghost predicate InOrder(fs: seq<Field>, low: int, high: int) {
    && (forall i :: 0 <= i < |fs| ==> low <= fs[i].number <= high)
    && (forall i, j :: 0 <= i < j < |fs| ==> fs[i].number <= fs[j].number)
  }

  /** Number n carries x as a varint of its two's complement pattern; a zero is left out. */
  ghost predicate CarriesNumber(fs: seq<Field>, n: int, x: I64) {
    Numbered(fs, n) == if x == 0 then [] else [Number(if x < 0 then x + 0x1_0000_0000_0000_0000 else x)]
  }

  /** Eight bytes for each double, least significant first. */
  ghost predicate HoldsDoubles(bytes: seq<Byte>, vs: seq<U64>) {
    |bytes| == 8 * |vs| && forall i: nat, k: nat :: i < |vs| && k < 8 ==> bytes[8 * i + k] == vs[i] / Pow2(8 * k) % 256
  }

  /** Number n carries the doubles in one length-delimited field; an empty list is left out. */
  ghost predicate CarriesDoubles(fs: seq<Field>, n: int, vs: seq<U64>) {
    if vs == [] then Numbered(fs, n) == []
    else |Numbered(fs, n)| == 1 && Numbered(fs, n)[0].Delimited? && HoldsDoubles(Numbered(fs, n)[0].bytes, vs)
  }

  ghost predicate EntityLayout(bytes: seq<Byte>, e: EntitySnapshotProto) {
    ParseFields(bytes).Some? &&
    var fs := ParseFields(bytes).value;
    InOrder(fs, 1, 3) && CarriesNumber(fs, 1, e.entityId) && CarriesDoubles(fs, 2, e.position) && CarriesDoubles(fs, 3, e.velocity)
  }

  /** Number n carries every entity, in order, each nested in a length-delimited field. */
  ghost predicate CarriesEntities(fs: seq<Field>, n: int, es: seq<EntitySnapshotProto>) {
    && |Numbered(fs, n)| == |es|
    && forall i :: 0 <= i < |es| ==> Numbered(fs, n)[i].Delimited? && EntityLayout(Numbered(fs, n)[i].bytes, es[i])
  }

  ghost predicate WelcomeLayout(bytes: seq<Byte>, m: ServerWelcome) {
    ParseFields(bytes).Some? &&
    var fs := ParseFields(bytes).value;
    && InOrder(fs, 1, 4)
    && CarriesNumber(fs, 1, m.targetTickFloor) && CarriesNumber(fs, 2, m.tickRateHz)
    && CarriesNumber(fs, 3, m.playerId) && CarriesNumber(fs, 4, m.controlledEntityId)
  }

  ghost predicate InputLayout(bytes: seq<Byte>, m: InputCmdProto) {
    ParseFields(bytes).Some? &&
    var fs := ParseFields(bytes).value;
    InOrder(fs, 1, 3) && CarriesNumber(fs, 1, m.tick) && CarriesNumber(fs, 2, m.inputSeq) && CarriesDoubles(fs, 3, m.moveDir)
  }

  ghost predicate BaselineLayout(bytes: seq<Byte>, m: JoinBaseline) {
    ParseFields(bytes).Some? &&
    var fs := ParseFields(bytes).value;
    InOrder(fs, 1, 3) && CarriesNumber(fs, 1, m.tick) && CarriesEntities(fs, 2, m.entities) && CarriesNumber(fs, 3, m.digest)
  }

  ghost predicate SnapshotLayout(bytes: seq<Byte>, m: SnapshotProto) {
    ParseFields(bytes).Some? &&
    var fs := ParseFields(bytes).value;
    && InOrder(fs, 1, 4)
    && CarriesNumber(fs, 1, m.tick) && CarriesEntities(fs, 2, m.entities)
    && CarriesNumber(fs, 3, m.digest) && CarriesNumber(fs, 4, m.targetTickFloor)
  }

  // Printing by number.

  lemma {:induction false} NumberedConcat(fs: seq<Field>, gs: seq<Field>, n: int)
    ensures Numbered(fs + gs, n) == Numbered(fs, n) + Numbered(gs, n)
  {
    if gs == [] {
      assert fs + gs == fs;
    } else {
      var k := |gs| - 1;
      NumberedConcat(fs, gs[..k], n);
      assert (fs + gs)[..|fs| + k] == fs + gs[..k] && (fs + gs)[|fs| + k] == gs[k];
    }
  }

  lemma NumberedOne(f: Field, n: int)
    ensures Numbered([f], n) == if f.number == n then [f.payload] else []
  {
    assert [f][..0] == [];
  }

  lemma {:induction false} NumberedOutside(fs: seq<Field>, low: int, high: int, n: int)
    requires InOrder(fs, low, high) && !(low <= n <= high)
    ensures Numbered(fs, n) == []
  {
    if fs == [] {
    } else {
      NumberedOutside(fs[..|fs| - 1], low, high, n);
    }
  }

  /** Fields up to number k, then fields from number k + 1 on: each number is found in its own part. */
  lemma Parts(a: seq<Field>, b: seq<Field>, k: int, high: int)
    requires InOrder(a, 1, k) && InOrder(b, k + 1, high) && 0 <= k <= high
    ensures InOrder(a + b, 1, high)
    ensures forall n :: 1 <= n <= k ==> Numbered(a + b, n) == Numbered(a, n)
    ensures forall n :: k < n ==> Numbered(a + b, n) == Numbered(b, n)
  {
    forall n ensures Numbered(a + b, n) == Numbered(a, n) + Numbered(b, n) {
      NumberedConcat(a, b, n);
    }
    forall n | n <= k ensures Numbered(b, n) == [] {
      NumberedOutside(b, k + 1, high, n);
    }
    forall n | k < n ensures Numbered(a, n) == [] {
      NumberedOutside(a, 1, k, n);
    }
  }

  lemma NumberPart(n: int, x: I64)
    requires 0 <= n < 16
    ensures InOrder(NumberField(n, x), n, n) && CarriesNumber(NumberField(n, x), n, x)
  {
    if x != 0 { NumberedOne(Field(n, Number(Pattern(x))), n); }
  }

  lemma {:induction false} PackedBytes(vs: seq<U64>)
    ensures HoldsDoubles(PackDoubles(vs), vs)
  {
    if vs == [] {
    } else {
      PackedBytes(vs[1..]);
      forall i: nat, k: nat | i < |vs| && k < 8 ensures PackDoubles(vs)[8 * i + k] == vs[i] / Pow2(8 * k) % 256 {
        if i == 0 {
          LittleEndianByte(vs[0], 8, k);
        } else {
          assert PackDoubles(vs)[8 * i + k] == PackDoubles(vs[1..])[8 * (i - 1) + k];
        }
      }
    }
  }

  lemma DoublesPart(n: int, vs: seq<U64>)
    requires 0 <= n < 16 && Sized(vs)
    ensures InOrder(DoublesField(n, vs), n, n) && CarriesDoubles(DoublesField(n, vs), n, vs)
  {
    if vs != [] {
      NumberedOne(Field(n, Delimited(PackDoubles(vs))), n);
      PackedBytes(vs);
    }
  }

  lemma EntityEncoded(e: EntitySnapshotProto)
    requires SizedEntity(e)
    ensures EntityLayout(Serialize(EntityFields(e)), e)
  {
    var a, b, c := NumberField(1, e.entityId), DoublesField(2, e.position), DoublesField(3, e.velocity);
    NumberPart(1, e.entityId);
    DoublesPart(2, e.position);
    DoublesPart(3, e.velocity);
    Parts(a, b, 1, 2);
    Parts(a + b, c, 2, 3);
    FieldsRoundTrip(EntityFields(e));
  }

  lemma NextEntity(fs: seq<Field>, es: seq<EntitySnapshotProto>, e: EntitySnapshotProto)
    requires SizedEntity(e) && InOrder(fs, 2, 2) && CarriesEntities(fs, 2, es)
    ensures InOrder(fs + [EntityField(e)], 2, 2) && CarriesEntities(fs + [EntityField(e)], 2, es + [e])
  {
    EntityEncoded(e);
    NumberedConcat(fs, [EntityField(e)], 2);
    NumberedOne(EntityField(e), 2);
    var ps, p := Numbered(fs, 2), EntityField(e).payload;
    assert Numbered(fs + [EntityField(e)], 2) == ps + [p];
    forall i | 0 <= i < |es| + 1 ensures (ps + [p])[i].Delimited? && EntityLayout((ps + [p])[i].bytes, (es + [e])[i]) {
      if i < |es| { assert ps[i].Delimited? && EntityLayout(ps[i].bytes, es[i]); }
    }
  }

  lemma {:induction false} EntitiesPart(es: seq<EntitySnapshotProto>)
    requires SizedEntities(es)
    ensures InOrder(EntitiesFields(es), 2, 2) && CarriesEntities(EntitiesFields(es), 2, es)
  {
    if es == [] {
    } else {
      var n := |es| - 1;
      EntitiesPart(es[..n]);
      NextEntity(EntitiesFields(es[..n]), es[..n], es[n]);
      assert es == es[..n] + [es[n]];
    }
  }

  lemma WelcomeEncoded(m: ServerWelcome)
    ensures WelcomeLayout(Serialize(WelcomeFields(m)), m)
  {
    var a, b := NumberField(1, m.targetTickFloor), NumberField(2, m.tickRateHz);
    var c, d := NumberField(3, m.playerId), NumberField(4, m.controlledEntityId);
    NumberPart(1, m.targetTickFloor);
    NumberPart(2, m.tickRateHz);
    NumberPart(3, m.playerId);
    NumberPart(4, m.controlledEntityId);
    Parts(a, b, 1, 2);
    Parts(a + b, c, 2, 3);
    Parts(a + b + c, d, 3, 4);
    FieldsRoundTrip(WelcomeFields(m));
  }

  lemma InputEncoded(m: InputCmdProto)
    requires Sized(m.moveDir)
    ensures InputLayout(Serialize(InputFields(m)), m)
  {
    var a, b, c := NumberField(1, m.tick), NumberField(2, m.inputSeq), DoublesField(3, m.moveDir);
    NumberPart(1, m.tick);
    NumberPart(2, m.inputSeq);
    DoublesPart(3, m.moveDir);
    Parts(a, b, 1, 2);
    Parts(a + b, c, 2, 3);
    FieldsRoundTrip(InputFields(m));
  }

  lemma BaselineEncoded(m: JoinBaseline)
    requires SizedEntities(m.entities)
    ensures BaselineLayout(Serialize(BaselineFields(m)), m)
  {
    var a, b, c := NumberField(1, m.tick), EntitiesFields(m.entities), NumberField(3, m.digest);
    NumberPart(1, m.tick);
    EntitiesPart(m.entities);
    NumberPart(3, m.digest);
    Parts(a, b, 1, 2);
    Parts(a + b, c, 2, 3);
    FieldsRoundTrip(BaselineFields(m));
  }

  lemma SnapshotEncoded(m: SnapshotProto)
    requires SizedEntities(m.entities)
    ensures SnapshotLayout(Serialize(SnapshotFields(m)), m)
  {
    var a, b := NumberField(1, m.tick), EntitiesFields(m.entities);
    var c, d := NumberField(3, m.digest), NumberField(4, m.targetTickFloor);
    NumberPart(1, m.tick);
    EntitiesPart(m.entities);
    NumberPart(3, m.digest);
    NumberPart(4, m.targetTickFloor);
    Parts(a, b, 1, 2);
    Parts(a + b, c, 2, 3);
    Parts(a + b + c, d, 3, 4);
    FieldsRoundTrip(SnapshotFields(m));
  }

  // Reading by number.

  /** The last field of number n decides: a varint's pattern as a signed word, or 0 if there is none. */
  ghost predicate ReadsNumber(fs: seq<Field>, n: int, x: I64) {
    var ps := Numbered(fs, n);
    if ps == [] then x == 0
    else ps[|ps| - 1].Number? && ps[|ps| - 1].value == if x < 0 then x + 0x1_0000_0000_0000_0000 else x
  }

  ghost predicate ReadsDoubles(fs: seq<Field>, n: int, vs: seq<U64>) {
    var ps := Numbered(fs, n);
    if ps == [] then vs == [] else ps[|ps| - 1].Delimited? && HoldsDoubles(ps[|ps| - 1].bytes, vs)
  }

  ghost predicate EntityFrom(fs: seq<Field>, e: EntitySnapshotProto) {
    ReadsNumber(fs, 1, e.entityId) && ReadsDoubles(fs, 2, e.position) && ReadsDoubles(fs, 3, e.velocity)
  }

  ghost predicate EntityReads(bytes: seq<Byte>, e: EntitySnapshotProto) {
    ParseFields(bytes).Some? && EntityFrom(ParseFields(bytes).value, e)
  }

  /** Every field of number n is an entity, in order. */
  ghost predicate ReadsEntities(fs: seq<Field>, n: int, es: seq<EntitySnapshotProto>) {
    var ps := Numbered(fs, n);
    |ps| == |es| && forall i :: 0 <= i < |es| ==> ps[i].Delimited? && EntityReads(ps[i].bytes, es[i])
  }

  ghost predicate WelcomeFrom(fs: seq<Field>, m: ServerWelcome) {
    && ReadsNumber(fs, 1, m.targetTickFloor) && ReadsNumber(fs, 2, m.tickRateHz)
    && ReadsNumber(fs, 3, m.playerId) && ReadsNumber(fs, 4, m.controlledEntityId)
  }

  ghost predicate WelcomeReads(bytes: seq<Byte>, m: ServerWelcome) {
    ParseFields(bytes).Some? && WelcomeFrom(ParseFields(bytes).value, m)
  }

  ghost predicate InputFrom(fs: seq<Field>, m: InputCmdProto) {
    ReadsNumber(fs, 1, m.tick) && ReadsNumber(fs, 2, m.inputSeq) && ReadsDoubles(fs, 3, m.moveDir)
  }

  ghost predicate InputReads(bytes: seq<Byte>, m: InputCmdProto) {
    ParseFields(bytes).Some? && InputFrom(ParseFields(bytes).value, m)
  }

  ghost predicate BaselineFrom(fs: seq<Field>, m: JoinBaseline) {
    ReadsNumber(fs, 1, m.tick) && ReadsEntities(fs, 2, m.entities) && ReadsNumber(fs, 3, m.digest)
  }

  ghost predicate BaselineReads(bytes: seq<Byte>, m: JoinBaseline) {
    ParseFields(bytes).Some? && BaselineFrom(ParseFields(bytes).value, m)
  }

  ghost predicate SnapshotFrom(fs: seq<Field>, m: SnapshotProto) {
    && ReadsNumber(fs, 1, m.tick) && ReadsEntities(fs, 2, m.entities)
    && ReadsNumber(fs, 3, m.digest) && ReadsNumber(fs, 4, m.targetTickFloor)
  }

  ghost predicate SnapshotReads(bytes: seq<Byte>, m: SnapshotProto) {
    ParseFields(bytes).Some? && SnapshotFrom(ParseFields(bytes).value, m)
  }

  lemma {:induction false} UnpackedBytes(bytes: seq<Byte>)
    requires |bytes| % 8 == 0
    ensures HoldsDoubles(bytes, UnpackDoubles(bytes))
  {
    if bytes == [] {
    } else {
      var vs := UnpackDoubles(bytes);
      UnpackedBytes(bytes[8..]);
      assert vs[1..] == UnpackDoubles(bytes[8..]);
      forall i: nat, k: nat | i < |vs| && k < 8 ensures bytes[8 * i + k] == vs[i] / Pow2(8 * k) % 256 {
        if i == 0 {
          ByteOfWord(bytes[..8], k);
          LittleEndianByte(vs[0], 8, k);
        } else {
          assert bytes[8 * i + k] == bytes[8..][8 * (i - 1) + k] && vs[i] == vs[1..][i - 1];
        }
      }
    }
  }

  /** Writing back the number that bytes stand for gives the bytes. */
  lemma {:induction false} BackToBytes(bs: seq<Byte>)
    ensures LittleEndian(FromLittleEndian(bs), |bs|) == bs
  {
    if bs == [] {
    } else {
      BackToBytes(bs[1..]);
      var u, rest := FromLittleEndian(bs), FromLittleEndian(bs[1..]);
      RemainderUnique(u, 256, rest, bs[0]);
      assert bs == [bs[0]] + bs[1..];
    }
  }

  lemma ByteOfWord(bs: seq<Byte>, k: nat)
    requires |bs| == 8 && k < 8
    ensures LittleEndian(FromLittleEndian(bs), 8)[k] == bs[k]
  {
    BackToBytes(bs);
  }

  /** One more field at the end. */
  lemma Snoc<M>(assign: (M, Field) -> M, m: M, fs: seq<Field>, f: Field)
    ensures Fold(assign, m, fs + [f]) == assign(Fold(assign, m, fs), f)
    ensures forall n :: Numbered(fs + [f], n) == Numbered(fs, n) + if f.number == n then [f.payload] else []
  {
    FoldConcat(assign, m, fs, [f]);
    FoldOne(assign, Fold(assign, m, fs), f);
    assert (fs + [f])[..|fs|] == fs;
  }

  lemma {:induction false} WelcomeFold(fs: seq<Field>)
    requires AllOf(WelcomeTyped, fs)
    ensures WelcomeFrom(fs, Fold(WelcomeAssign, EMPTY_WELCOME, fs))
  {
    if fs == [] {
    } else {
      var n := |fs| - 1;
      WelcomeFold(fs[..n]);
      Snoc(WelcomeAssign, EMPTY_WELCOME, fs[..n], fs[n]);
      assert fs == fs[..n] + [fs[n]] && WelcomeTyped(fs[n]);
    }
  }

  lemma {:induction false} EntityFold(fs: seq<Field>)
    requires AllOf(EntityTyped, fs)
    ensures EntityFrom(fs, Fold(EntityAssign, EMPTY_ENTITY, fs))
  {
    if fs == [] {
    } else {
      var n := |fs| - 1;
      EntityFold(fs[..n]);
      Snoc(EntityAssign, EMPTY_ENTITY, fs[..n], fs[n]);
      assert fs == fs[..n] + [fs[n]] && EntityTyped(fs[n]);
      if IsDoubles(fs[n].payload) { UnpackedBytes(fs[n].payload.bytes); }
    }
  }

  lemma {:induction false} InputFold(fs: seq<Field>)
    requires AllOf(InputTyped, fs)
    ensures InputFrom(fs, Fold(InputAssign, EMPTY_INPUT, fs))
  {
    if fs == [] {
    } else {
      var n := |fs| - 1;
      InputFold(fs[..n]);
      Snoc(InputAssign, EMPTY_INPUT, fs[..n], fs[n]);
      assert fs == fs[..n] + [fs[n]] && InputTyped(fs[n]);
      if IsDoubles(fs[n].payload) { UnpackedBytes(fs[n].payload.bytes); }
    }
  }

  lemma NestedReads(p: Payload)
    requires IsEntity(p)
    ensures EntityReads(p.bytes, EntityIn(p))
  {
    EntityFold(ParseFields(p.bytes).value);
  }

  lemma {:induction false} BaselineFold(fs: seq<Field>)
    requires AllOf(BaselineTyped, fs)
    ensures BaselineFrom(fs, Fold(BaselineAssign, EMPTY_BASELINE, fs))
  {
    if fs == [] {
    } else {
      var n := |fs| - 1;
      BaselineFold(fs[..n]);
      Snoc(BaselineAssign, EMPTY_BASELINE, fs[..n], fs[n]);
      assert fs == fs[..n] + [fs[n]] && BaselineTyped(fs[n]);
      if fs[n].number == 2 { NestedReads(fs[n].payload); }
    }
  }

  lemma {:induction false} SnapshotFold(fs: seq<Field>)
    requires AllOf(SnapshotTyped, fs)
    ensures SnapshotFrom(fs, Fold(SnapshotAssign, EMPTY_SNAPSHOT, fs))
  {
    if fs == [] {
    } else {
      var n := |fs| - 1;
      SnapshotFold(fs[..n]);
      Snoc(SnapshotAssign, EMPTY_SNAPSHOT, fs[..n], fs[n]);
      assert fs == fs[..n] + [fs[n]] && SnapshotTyped(fs[n]);
      if fs[n].number == 2 { NestedReads(fs[n].payload); }
    }
  }
}
