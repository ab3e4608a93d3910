/** The literal bytes of messages whose numbers fit seven bits and whose vectors have two components. */
module WireBytes {
  import opened Words
  import opened Varint
  import opened WireFormat
  import opened WireMessages

  /** Seven bits to a byte, least significant first, the top bit set on all but the last. */
  lemma ShortVarints(u: nat)
    ensures u < 128 ==> EncodeVarint(u) == [u]
    ensures 128 <= u < 16384 ==> EncodeVarint(u) == [128 + u % 128, u / 128]
  {
  }

  /** A number from 1 to 127 takes its tag, which is 8 * n, and one byte. */
  lemma NumberBytes(n: int, x: I64)
    requires 0 < n < 16 && 0 < x < 128
    ensures Serialize(NumberField(n, x)) == [8 * n, x]
  {
    SerializeOne(Field(n, Number(x)));
    ShortVarints(8 * n);
    ShortVarints(x);
  }

  /** Fewer than 128 bytes take their tag, which is 8 * n + 2, and their length in front. */
  lemma DelimitedBytes(n: int, bytes: seq<Byte>)
    requires 0 < n < 15 && |bytes| < 128
    ensures Serialize([Field(n, Delimited(bytes))]) == [8 * n + 2, |bytes|] + bytes
  {
    SerializeOne(Field(n, Delimited(bytes)));
    ShortVarints(8 * n + 2);
    ShortVarints(|bytes|);
  }

  /** A vector of two doubles. */
  lemma VectorBytes(n: int, v: seq<U64>)
    requires 0 < n < 15 && |v| == 2
    ensures Serialize(DoublesField(n, v)) == [8 * n + 2, 16] + LittleEndian(v[0], 8) + LittleEndian(v[1], 8)
  {
    DelimitedBytes(n, PackDoubles(v));
    assert PackDoubles(v[1..]) == LittleEndian(v[1], 8) + PackDoubles(v[1..][1..]);
    assert PackDoubles(v) == LittleEndian(v[0], 8) + LittleEndian(v[1], 8);
  }

  lemma Printed3(a: seq<Field>, b: seq<Field>, c: seq<Field>)
    requires AllWellFormed(a) && AllWellFormed(b) && AllWellFormed(c)
    ensures AllWellFormed(a + b + c) && Serialize(a + b + c) == Serialize(a) + Serialize(b) + Serialize(c)
  {
    SerializeConcat(a, b);
    SerializeConcat(a + b, c);
  }

  lemma Printed4(a: seq<Field>, b: seq<Field>, c: seq<Field>, d: seq<Field>)
    requires AllWellFormed(a) && AllWellFormed(b) && AllWellFormed(c) && AllWellFormed(d)
    ensures AllWellFormed(a + b + c + d) && Serialize(a + b + c + d) == Serialize(a) + Serialize(b) + Serialize(c) + Serialize(d)
  {
    Printed3(a, b, c);
    SerializeConcat(a + b + c, d);
  }

  predicate Short(x: I64) { 0 < x < 128 }

  lemma WelcomeBytes(m: ServerWelcome)
    requires Short(m.targetTickFloor) && Short(m.tickRateHz) && Short(m.playerId) && Short(m.controlledEntityId)
    ensures Serialize(WelcomeFields(m)) == [0x08, m.targetTickFloor, 0x10, m.tickRateHz, 0x18, m.playerId, 0x20, m.controlledEntityId]
  {
    NumberBytes(1, m.targetTickFloor);
    NumberBytes(2, m.tickRateHz);
    NumberBytes(3, m.playerId);
    NumberBytes(4, m.controlledEntityId);
    Printed4(NumberField(1, m.targetTickFloor), NumberField(2, m.tickRateHz), NumberField(3, m.playerId), NumberField(4, m.controlledEntityId));
  }

  predicate ShortEntity(e: EntitySnapshotProto) { Short(e.entityId) && |e.position| == 2 && |e.velocity| == 2 }

  lemma EntityBytes(e: EntitySnapshotProto)
    requires ShortEntity(e)
    ensures Serialize(EntityFields(e))
         == [0x08, e.entityId] + ([0x12, 16] + LittleEndian(e.position[0], 8) + LittleEndian(e.position[1], 8))
            + ([0x1A, 16] + LittleEndian(e.velocity[0], 8) + LittleEndian(e.velocity[1], 8))
  {
    NumberBytes(1, e.entityId);
    VectorBytes(2, e.position);
    VectorBytes(3, e.velocity);
    Printed3(NumberField(1, e.entityId), DoublesField(2, e.position), DoublesField(3, e.velocity));
  }

  /** The 38 bytes of such an entity, nested. */
  lemma NestedBytes(e: EntitySnapshotProto)
    requires ShortEntity(e)
    ensures |Serialize(EntityFields(e))| == 38
    ensures Serialize(EntitiesFields([e])) == [0x12, 38] + Serialize(EntityFields(e))
  {
    EntityBytes(e);
    DelimitedBytes(2, Serialize(EntityFields(e)));
    assert EntitiesFields([e][..0]) == [];
    assert EntitiesFields([e]) == [EntityField(e)];
  }

  lemma InputBytes(m: InputCmdProto)
    requires Short(m.tick) && Short(m.inputSeq) && |m.moveDir| == 2
    ensures Serialize(InputFields(m))
         == [0x08, m.tick, 0x10, m.inputSeq] + ([0x1A, 16] + LittleEndian(m.moveDir[0], 8) + LittleEndian(m.moveDir[1], 8))
  {
    NumberBytes(1, m.tick);
    NumberBytes(2, m.inputSeq);
    VectorBytes(3, m.moveDir);
    Printed3(NumberField(1, m.tick), NumberField(2, m.inputSeq), DoublesField(3, m.moveDir));
  }

  lemma BaselineBytes(m: JoinBaseline, e: EntitySnapshotProto)
    requires Short(m.tick) && Short(m.digest) && m.entities == [e] && ShortEntity(e)
    ensures |Serialize(EntityFields(e))| == 38
    ensures Serialize(BaselineFields(m)) == [0x08, m.tick] + ([0x12, 38] + Serialize(EntityFields(e))) + [0x18, m.digest]
  {
    NumberBytes(1, m.tick);
    NestedBytes(e);
    NumberBytes(3, m.digest);
    Printed3(NumberField(1, m.tick), EntitiesFields(m.entities), NumberField(3, m.digest));
  }

  lemma SnapshotBytes(m: SnapshotProto, e: EntitySnapshotProto)
    requires Short(m.tick) && Short(m.digest) && Short(m.targetTickFloor) && m.entities == [e] && ShortEntity(e)
    ensures |Serialize(EntityFields(e))| == 38
    ensures Serialize(SnapshotFields(m))
         == [0x08, m.tick] + ([0x12, 38] + Serialize(EntityFields(e))) + [0x18, m.digest] + [0x20, m.targetTickFloor]
  {
    NumberBytes(1, m.tick);
    NestedBytes(e);
    NumberBytes(3, m.digest);
    NumberBytes(4, m.targetTickFloor);
    Printed4(NumberField(1, m.tick), EntitiesFields(m.entities), NumberField(3, m.digest), NumberField(4, m.targetTickFloor));
  }

  // One command, byte by byte.

  lemma ShiftedOnce(u: nat, v: nat, n: nat)
    requires u == 256 * v && n > 0
    ensures LittleEndian(u, n) == [0] + LittleEndian(v, n - 1)
  {
  }

  lemma ShiftedThrice(u: nat, v: nat, n: nat)
    requires u == 0x100_0000 * v && n > 2
    ensures LittleEndian(u, n) == [0, 0, 0] + LittleEndian(v, n - 3)
  {
    ShiftedOnce(u, 0x1_0000 * v, n);
    ShiftedOnce(0x1_0000 * v, 0x100 * v, n - 1);
    ShiftedOnce(0x100 * v, v, n - 2);
  }

  lemma LastTwo(high: nat, low: Byte, top: Byte)
    requires high == low + 256 * top
    ensures LittleEndian(high, 2) == [low, top]
  {
    BytePeeled(high, top, low, 2);
    BytePeeled(top, 0, top, 1);
  }

  lemma BytePeeled(u: nat, rest: nat, low: Byte, n: nat)
    requires u == low + 256 * rest && n > 0
    ensures LittleEndian(u, n) == [low] + LittleEndian(rest, n - 1)
  {
  }

  /** The pattern of 1.0 is 0x3FF followed by thirteen zeros. */
  lemma OneBytes(one: U64, middle: nat, high: nat)
    requires one == 0x3FF0_0000_0000_0000 && middle == 0x3FF0_00_0000 && high == 0x3FF0
    ensures LittleEndian(one, 8) == [0, 0, 0, 0, 0, 0, 0xF0, 0x3F]
  {
    ShiftedThrice(one, middle, 8);
    ShiftedThrice(middle, high, 5);
    LastTwo(high, 0xF0, 0x3F);
  }

  lemma ZeroBytes(u: nat)
    requires u == 0
    ensures LittleEndian(u, 8) == [0, 0, 0, 0, 0, 0, 0, 0]
  {
    ShiftedThrice(u, u, 8);
    ShiftedThrice(u, u, 5);
    LastTwo(u, 0, 0);
  }

  /** Tick 7, sequence number 1, one step to the right: 22 bytes. */
  lemma RightwardBytes(m: InputCmdProto, one: U64, zero: U64)
    requires m.tick == 7 && m.inputSeq == 1 && m.moveDir == [one, zero] && one == 0x3FF0_0000_0000_0000 && zero == 0
    ensures Serialize(InputFields(m))
         == [0x08, 7, 0x10, 1] + ([0x1A, 16] + [0, 0, 0, 0, 0, 0, 0xF0, 0x3F] + [0, 0, 0, 0, 0, 0, 0, 0])
  {
    InputBytes(m);
    OneBytes(one, 0x3FF0_00_0000, 0x3FF0);
    ZeroBytes(zero);
  }
}
