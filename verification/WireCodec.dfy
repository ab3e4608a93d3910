/** The client's codec: one encoder and one decoder per message. */
module WireCodec {
  import opened Wrappers
  import opened Words
  import opened Varint
  import opened WireFormat
  import opened WireIO
  import opened WireMessages
  import opened WireLayout
  import opened WireBytes

  // Encoders.

  /** What every encoder does with a number: leave it out when zero. */
  method WriteNumber(w: ByteWriter, fieldNumber: I64, value: I64)
    requires 0 <= fieldNumber < 16
    modifies w
    ensures w.bytes == old(w.bytes) + Serialize(NumberField(fieldNumber, value))
  {
    if value != 0 {
      w.WriteTag(fieldNumber, WIRE_TYPE_VARINT);
      w.WriteVarint(value);
      SerializeOne(Field(fieldNumber, Number(Pattern(value))));
    }
  }

  method WritePackedDoubles(w: ByteWriter, fieldNumber: I64, values: seq<U64>)
    requires 0 <= fieldNumber < 16 && Sized(values)
    modifies w
    ensures w.bytes == old(w.bytes) + Serialize(DoublesField(fieldNumber, values))
  {
    if |values| == 0 {
      return;
    }
    w.WriteTag(fieldNumber, WIRE_TYPE_LENGTH_DELIMITED);
    w.WriteVarint(|values| * 8);
    ghost var header := w.bytes;
    var i := 0;
    while i < |values|
      invariant 0 <= i <= |values|
      invariant w.bytes + PackDoubles(values[i..]) == header + PackDoubles(values)
    {
      w.WriteDouble(values[i]);
      assert values[i..][1..] == values[i + 1..];
      i := i + 1;
    }
    assert w.bytes == header + PackDoubles(values);
    DelimitedBytes(old(w.bytes), fieldNumber, PackDoubles(values));
  }

  /** A length-delimited field is its tag, its length and its bytes. */
  lemma DelimitedBytes(before: seq<Byte>, number: int, bytes: seq<Byte>)
    requires 0 <= number < 16 && |bytes| < 0x8000_0000_0000_0000
    ensures before + EncodeVarint(8 * number + WIRE_TYPE_LENGTH_DELIMITED) + EncodeVarint(|bytes|) + bytes
         == before + Field(number, Delimited(bytes)).Encode()
    ensures Serialize([Field(number, Delimited(bytes))]) == Field(number, Delimited(bytes)).Encode()
  {
    SerializeOne(Field(number, Delimited(bytes)));
    var tag, length := EncodeVarint(8 * number + WIRE_TYPE_LENGTH_DELIMITED), EncodeVarint(|bytes|);
    assert Field(number, Delimited(bytes)).Encode() == tag + (length + bytes);
    assert before + tag + length + bytes == before + (tag + (length + bytes));
  }

  method WriteDelimited(w: ByteWriter, fieldNumber: I64, bytes: seq<Byte>)
    requires 0 <= fieldNumber < 16 && |bytes| < 0x8000_0000_0000_0000
    modifies w
    ensures w.bytes == old(w.bytes) + Field(fieldNumber, Delimited(bytes)).Encode()
  {
    DelimitedBytes(w.bytes, fieldNumber, bytes);
    w.WriteTag(fieldNumber, WIRE_TYPE_LENGTH_DELIMITED);
    w.WriteVarint(|bytes|);
    w.WriteBytes(bytes);
  }

  /** The nested message of one entity, as the loops over `entities` write it. */
  method WriteEntity(w: ByteWriter, entity: EntitySnapshotProto)
    requires SizedEntity(entity)
    modifies w
    ensures w.bytes == old(w.bytes) + EntityField(entity).Encode()
  {
    var entityBytes := EncodeEntitySnapshotProto(entity);
    EntityBytesFit(entity);
    WriteDelimited(w, 2, entityBytes);
  }

  method WriteEntities(w: ByteWriter, entities: seq<EntitySnapshotProto>)
    requires SizedEntities(entities)
    modifies w
    ensures w.bytes == old(w.bytes) + Serialize(EntitiesFields(entities))
  {
    var i := 0;
    while i < |entities|
      invariant 0 <= i <= |entities| && SizedEntities(entities[..i])
      invariant w.bytes == old(w.bytes) + Serialize(EntitiesFields(entities[..i]))
    {
      NextEntity(old(w.bytes), entities, i);
      WriteEntity(w, entities[i]);
      i := i + 1;
    }
    assert entities[..i] == entities;
  }

  lemma NextEntity(before: seq<Byte>, entities: seq<EntitySnapshotProto>, i: nat)
    requires i < |entities| && SizedEntities(entities)
    ensures SizedEntities(entities[..i]) && SizedEntities(entities[..i + 1])
    ensures before + Serialize(EntitiesFields(entities[..i])) + EntityField(entities[i]).Encode()
         == before + Serialize(EntitiesFields(entities[..i + 1]))
  {
    var done, f := EntitiesFields(entities[..i]), EntityField(entities[i]);
    assert entities[..i + 1][..i] == entities[..i];
    EntityBytesFit(entities[i]);
    SerializeConcat(done, [f]);
    SerializeOne(f);
    Associate(before, Serialize(done), f.Encode());
  }

  method EncodeServerWelcome(msg: ServerWelcome) returns (bytes: seq<Byte>)
    ensures bytes == Serialize(WelcomeFields(msg)) && WelcomeLayout(bytes, msg)
    ensures Short(msg.targetTickFloor) && Short(msg.tickRateHz) && Short(msg.playerId) && Short(msg.controlledEntityId) ==>
      bytes == [0x08, msg.targetTickFloor, 0x10, msg.tickRateHz, 0x18, msg.playerId, 0x20, msg.controlledEntityId]
  {
    WelcomeEncoded(msg);
    if Short(msg.targetTickFloor) && Short(msg.tickRateHz) && Short(msg.playerId) && Short(msg.controlledEntityId) {
      WelcomeBytes(msg);
    }
    var w := new ByteWriter();
    WriteNumber(w, 1, msg.targetTickFloor);
    WriteNumber(w, 2, msg.tickRateHz);
    WriteNumber(w, 3, msg.playerId);
    WriteNumber(w, 4, msg.controlledEntityId);
    bytes := w.bytes;
    Serialize4(NumberField(1, msg.targetTickFloor), NumberField(2, msg.tickRateHz),
      NumberField(3, msg.playerId), NumberField(4, msg.controlledEntityId));
  }

  method EncodeEntitySnapshotProto(msg: EntitySnapshotProto) returns (bytes: seq<Byte>)
    requires SizedEntity(msg)
    ensures bytes == Serialize(EntityFields(msg)) && EntityLayout(bytes, msg)
    ensures ShortEntity(msg) ==>
      bytes == [0x08, msg.entityId] + ([0x12, 16] + LittleEndian(msg.position[0], 8) + LittleEndian(msg.position[1], 8))
               + ([0x1A, 16] + LittleEndian(msg.velocity[0], 8) + LittleEndian(msg.velocity[1], 8))
  {
    EntityEncoded(msg);
    if ShortEntity(msg) {
      EntityBytes(msg);
    }
    var w := new ByteWriter();
    WriteNumber(w, 1, msg.entityId);
    WritePackedDoubles(w, 2, msg.position);
    WritePackedDoubles(w, 3, msg.velocity);
    bytes := w.bytes;
    Serialize3(NumberField(1, msg.entityId), DoublesField(2, msg.position), DoublesField(3, msg.velocity));
  }

  method EncodeJoinBaseline(msg: JoinBaseline) returns (bytes: seq<Byte>)
    requires SizedEntities(msg.entities)
    ensures bytes == Serialize(BaselineFields(msg)) && BaselineLayout(bytes, msg)
    ensures Short(msg.tick) && Short(msg.digest) && |msg.entities| == 1 && ShortEntity(msg.entities[0]) ==>
      bytes == [0x08, msg.tick] + ([0x12, 38] + Serialize(EntityFields(msg.entities[0]))) + [0x18, msg.digest]
  {
    BaselineEncoded(msg);
    if Short(msg.tick) && Short(msg.digest) && |msg.entities| == 1 && ShortEntity(msg.entities[0]) {
      BaselineBytes(msg, msg.entities[0]);
    }
    var w := new ByteWriter();
    WriteNumber(w, 1, msg.tick);
    WriteEntities(w, msg.entities);
    WriteNumber(w, 3, msg.digest);
    bytes := w.bytes;
    Serialize3(NumberField(1, msg.tick), EntitiesFields(msg.entities), NumberField(3, msg.digest));
  }

  method EncodeInputCmdProto(msg: InputCmdProto) returns (bytes: seq<Byte>)
    requires Sized(msg.moveDir)
    ensures bytes == Serialize(InputFields(msg)) && InputLayout(bytes, msg)
    ensures Short(msg.tick) && Short(msg.inputSeq) && |msg.moveDir| == 2 ==>
      bytes == [0x08, msg.tick, 0x10, msg.inputSeq] + ([0x1A, 16] + LittleEndian(msg.moveDir[0], 8) + LittleEndian(msg.moveDir[1], 8))
  {
    InputEncoded(msg);
    if Short(msg.tick) && Short(msg.inputSeq) && |msg.moveDir| == 2 {
      InputBytes(msg);
    }
    var w := new ByteWriter();
    WriteNumber(w, 1, msg.tick);
    WriteNumber(w, 2, msg.inputSeq);
    WritePackedDoubles(w, 3, msg.moveDir);
    bytes := w.bytes;
    Serialize3(NumberField(1, msg.tick), NumberField(2, msg.inputSeq), DoublesField(3, msg.moveDir));
  }

  method EncodeSnapshotProto(msg: SnapshotProto) returns (bytes: seq<Byte>)
    requires SizedEntities(msg.entities)
    ensures bytes == Serialize(SnapshotFields(msg)) && SnapshotLayout(bytes, msg)
    ensures Short(msg.tick) && Short(msg.digest) && Short(msg.targetTickFloor) && |msg.entities| == 1 && ShortEntity(msg.entities[0]) ==>
      bytes == [0x08, msg.tick] + ([0x12, 38] + Serialize(EntityFields(msg.entities[0]))) + [0x18, msg.digest] + [0x20, msg.targetTickFloor]
  {
    SnapshotEncoded(msg);
    if Short(msg.tick) && Short(msg.digest) && Short(msg.targetTickFloor) && |msg.entities| == 1 && ShortEntity(msg.entities[0]) {
      SnapshotBytes(msg, msg.entities[0]);
    }
    var w := new ByteWriter();
    WriteNumber(w, 1, msg.tick);
    WriteEntities(w, msg.entities);
    WriteNumber(w, 3, msg.digest);
    WriteNumber(w, 4, msg.targetTickFloor);
    bytes := w.bytes;
    Serialize4(NumberField(1, msg.tick), EntitiesFields(msg.entities), NumberField(3, msg.digest), NumberField(4, msg.targetTickFloor));
  }

  lemma Serialize3(a: seq<Field>, b: seq<Field>, c: seq<Field>)
    requires AllWellFormed(a) && AllWellFormed(b) && AllWellFormed(c)
    ensures AllWellFormed(a + b + c)
    ensures [] + Serialize(a) + Serialize(b) + Serialize(c) == Serialize(a + b + c)
  {
    SerializeConcat(a, b);
    SerializeConcat(a + b, c);
    assert [] + Serialize(a) == Serialize(a);
  }

  lemma Serialize4(a: seq<Field>, b: seq<Field>, c: seq<Field>, d: seq<Field>)
    requires AllWellFormed(a) && AllWellFormed(b) && AllWellFormed(c) && AllWellFormed(d)
    ensures AllWellFormed(a + b + c + d)
    ensures [] + Serialize(a) + Serialize(b) + Serialize(c) + Serialize(d) == Serialize(a + b + c + d)
  {
    Serialize3(a, b, c);
    SerializeConcat(a + b + c, d);
  }

  // Decoders. Each reads tags until the bytes end.

  /** The next field of what is left to read. */
  ghost function Head(rest: seq<Byte>): Field
    requires rest != [] && ParseFields(rest).Some?
  {
    ParseField(rest).value.0
  }

  ghost function HeadLength(rest: seq<Byte>): (n: nat)
    requires rest != [] && ParseFields(rest).Some?
    ensures 1 <= n <= |rest|
  {
    ParseField(rest).value.1
  }

  lemma FieldParts(bs: seq<Byte>)
    requires ParseField(bs).Some?
    ensures VarintAt(bs).Some?
    ensures
      var tag := VarintAt(bs).value;
      && ParseField(bs).value.0.number == TagNumber(tag.0)
      && ParsePayload(tag.0 % 8, bs[tag.1..]) == Some((ParseField(bs).value.0.payload, ParseField(bs).value.1 - tag.1))
  {
  }

  lemma HeadParts(rest: seq<Byte>)
    requires rest != [] && ParseFields(rest).Some?
    ensures VarintAt(rest).Some?
    ensures
      var tag := VarintAt(rest).value;
      && Head(rest).number == TagNumber(tag.0)
      && ParsePayload(tag.0 % 8, rest[tag.1..]) == Some((Head(rest).payload, HeadLength(rest) - tag.1))
  {
    FieldParts(rest);
  }

  lemma TailFields(rest: seq<Byte>)
    requires rest != [] && ParseFields(rest).Some?
    ensures ParseFields(rest[HeadLength(rest)..]).Some?
    ensures ParseFields(rest).value == [Head(rest)] + ParseFields(rest[HeadLength(rest)..]).value
  {
  }

  lemma NextReadable<M>(assign: (M, Field) -> M, typed: Field -> bool, m: M, rest: seq<Byte>)
    requires rest != [] && Readable(typed, rest)
    ensures typed(Head(rest)) && Readable(typed, rest[HeadLength(rest)..])
    ensures Decode(assign, assign(m, Head(rest)), rest[HeadLength(rest)..]) == Decode(assign, m, rest)
  {
    TailFields(rest);
    var fs, gs := ParseFields(rest).value, ParseFields(rest[HeadLength(rest)..]).value;
    assert fs[0] == Head(rest) && fs[1..] == gs;
    assert Head(rest) in fs && forall f :: f in gs ==> f in fs;
  }

  /** The reader has read the tag of the first field of `rest`. */
  ghost predicate AtPayload(r: ByteReader, rest: seq<Byte>)
    reads r
  {
    && rest != [] && ParseFields(rest).Some? && VarintAt(rest).Some?
    && r.pos <= |r.bytes| && r.Rest() == rest[VarintAt(rest).value.1..]
  }

  /** The reader is just behind the first field of `rest`. */
  ghost predicate AtNext(r: ByteReader, rest: seq<Byte>)
    reads r
    requires rest != [] && ParseFields(rest).Some?
  {
    r.pos <= |r.bytes| && r.Rest() == rest[HeadLength(rest)..]
  }

  method ReadHeadTag(r: ByteReader, ghost rest: seq<Byte>) returns (fieldNumber: I64, wireType: I64)
    requires r.pos < |r.bytes| && rest == r.Rest() && ParseFields(rest).Some?
    modifies r
    ensures AtPayload(r, rest) && r.pos > old(r.pos)
    ensures fieldNumber == Head(rest).number && wireType == Head(rest).payload.WireType()
  {
    HeadParts(rest);
    fieldNumber, wireType := r.ReadTag();
  }

  /** Moving `n` bytes past the tag arrives behind the field if the payload has `n` bytes. */
  lemma Behind(bytes: seq<Byte>, pos: nat, rest: seq<Byte>, n: nat)
    requires rest != [] && ParseFields(rest).Some? && VarintAt(rest).Some?
    requires pos <= |bytes| && bytes[pos..] == rest[VarintAt(rest).value.1..]
    requires n == HeadLength(rest) - VarintAt(rest).value.1
    ensures pos + n <= |bytes| && bytes[pos + n..] == rest[HeadLength(rest)..]
  {
    assert bytes[pos + n..] == bytes[pos..][n..];
    assert rest[HeadLength(rest)..] == rest[VarintAt(rest).value.1..][n..];
  }

  method ReadNumber(r: ByteReader, ghost rest: seq<Byte>) returns (x: I64)
    requires AtPayload(r, rest) && Head(rest).payload.Number?
    modifies r
    ensures AtNext(r, rest) && r.pos >= old(r.pos) && x == Signed(Head(rest).payload.value)
  {
    HeadParts(rest);
    ghost var pos := r.pos;
    x := r.ReadVarint();
    Behind(r.bytes, pos, rest, r.pos - pos);
  }

  method SkipUnknown(r: ByteReader, wireType: I64, ghost rest: seq<Byte>)
    requires AtPayload(r, rest) && wireType == Head(rest).payload.WireType()
    modifies r
    ensures AtNext(r, rest) && r.pos >= old(r.pos)
  {
    HeadParts(rest);
    ghost var pos := r.pos;
    r.SkipField(wireType);
    Behind(r.bytes, pos, rest, r.pos - pos);
  }

  /** The parts of a length-delimited payload. */
  lemma DelimitedParts(wireType: nat, bs: seq<Byte>)
    requires ParsePayload(wireType, bs).Some? && ParsePayload(wireType, bs).value.0.Delimited?
    ensures VarintAt(bs).Some? && VarintAt(bs).value.0 < 0x8000_0000_0000_0000
    ensures
      var n, length := VarintAt(bs).value.1, VarintAt(bs).value.0;
      && n + length <= |bs| && ParsePayload(wireType, bs).value.1 == n + length
      && ParsePayload(wireType, bs).value.0.bytes == bs[n..][..length]
  {
  }

  /** Where a length-delimited payload's length and bytes lie behind its tag. */
  lemma DelimitedAt(bytes: seq<Byte>, pos: nat, rest: seq<Byte>)
    requires rest != [] && ParseFields(rest).Some? && VarintAt(rest).Some? && Head(rest).payload.Delimited?
    requires pos <= |bytes| && bytes[pos..] == rest[VarintAt(rest).value.1..]
    ensures VarintAt(bytes[pos..]).Some?
    ensures
      var length, n := VarintAt(bytes[pos..]).value.0, VarintAt(bytes[pos..]).value.1;
      && length < 0x8000_0000_0000_0000 && length == |Head(rest).payload.bytes| && pos + n + length <= |bytes|
      && bytes[pos + n..][..length] == Head(rest).payload.bytes
      && bytes[pos + n + length..] == rest[HeadLength(rest)..]
  {
    HeadParts(rest);
    DelimitedParts(VarintAt(rest).value.0 % 8, bytes[pos..]);
    var length, n := VarintAt(bytes[pos..]).value.0, VarintAt(bytes[pos..]).value.1;
    assert bytes[pos..][n..] == bytes[pos + n..];
    Behind(bytes, pos, rest, n + length);
  }

  /** Reads the length and leaves the reader at the payload's bytes. */
  method ReadLength(r: ByteReader, ghost rest: seq<Byte>) returns (length: I64)
    requires AtPayload(r, rest) && Head(rest).payload.Delimited?
    modifies r
    ensures 0 <= length && length == |Head(rest).payload.bytes| && old(r.pos) <= r.pos && r.pos + length <= |r.bytes|
    ensures r.Rest()[..length] == Head(rest).payload.bytes
    ensures r.bytes[r.pos + length..] == rest[HeadLength(rest)..]
  {
    DelimitedAt(r.bytes, r.pos, rest);
    length := r.ReadVarint();
  }

  method ReadDelimited(r: ByteReader, ghost rest: seq<Byte>) returns (bytes: seq<Byte>)
    requires AtPayload(r, rest) && Head(rest).payload.Delimited?
    modifies r
    ensures AtNext(r, rest) && r.pos >= old(r.pos) && bytes == Head(rest).payload.bytes
  {
    var length := ReadLength(r, rest);
    bytes := r.ReadBytes(length);
  }

  method ReadPackedDoubles(r: ByteReader, ghost rest: seq<Byte>) returns (result: seq<U64>)
    requires AtPayload(r, rest) && IsDoubles(Head(rest).payload)
    modifies r
    ensures AtNext(r, rest) && r.pos >= old(r.pos) && result == UnpackDoubles(Head(rest).payload.bytes)
  {
    var length := ReadLength(r, rest);
    result := ReadDoubles(r, length / 8);
  }

  method ReadDoubles(r: ByteReader, count: nat) returns (result: seq<U64>)
    requires r.pos + 8 * count <= |r.bytes|
    modifies r
    ensures r.pos == old(r.pos) + 8 * count
    ensures result == UnpackDoubles(old(r.Rest())[..8 * count])
  {
    result := [];
    ghost var payload, start := r.Rest()[..8 * count], r.pos;
    var i := 0;
    while i < count
      invariant 0 <= i <= count && r.pos == start + 8 * i
      invariant result + UnpackDoubles(payload[8 * i..]) == UnpackDoubles(payload)
    {
      NextDouble(payload, i);
      Window(r.bytes, start, 8 * count, 8 * i);
      var v := r.ReadDouble();
      result := result + [v];
      i := i + 1;
    }
    assert UnpackDoubles(payload[8 * i..]) == [];
  }

  /** The eight bytes at an offset of a window are eight bytes of the whole. */
  lemma Window(bytes: seq<Byte>, start: nat, length: nat, offset: nat)
    requires offset + 8 <= length && start + length <= |bytes|
    ensures bytes[start..][..length][offset..][..8] == bytes[start + offset..][..8]
  {
    assert bytes[start..][..length][offset..] == bytes[start + offset..start + length];
    assert bytes[start + offset..start + length][..8] == bytes[start + offset..start + offset + 8];
    assert bytes[start + offset..][..8] == bytes[start + offset..start + offset + 8];
  }

  lemma NextDouble(payload: seq<Byte>, i: nat)
    requires |payload| % 8 == 0 && 8 * i < |payload|
    ensures UnpackDoubles(payload[8 * i..]) == [DoubleAt(payload[8 * i..])] + UnpackDoubles(payload[8 * (i + 1)..])
  {
    assert payload[8 * i..][8..] == payload[8 * (i + 1)..];
  }

  method DecodeServerWelcome(bytes: seq<Byte>) returns (msg: ServerWelcome)
    requires Readable(WelcomeTyped, bytes)
    ensures msg == Decode(WelcomeAssign, EMPTY_WELCOME, bytes) && WelcomeReads(bytes, msg)
  {
    WelcomeFold(ParseFields(bytes).value);
    msg := EMPTY_WELCOME;
    var r := new ByteReader(bytes);
    while r.HasMore()
      invariant r.pos <= |bytes| && Readable(WelcomeTyped, r.Rest())
      invariant Decode(WelcomeAssign, msg, r.Rest()) == Decode(WelcomeAssign, EMPTY_WELCOME, bytes)
      decreases |bytes| - r.pos
    {
      ghost var rest := r.Rest();
      NextReadable(WelcomeAssign, WelcomeTyped, msg, rest);
      msg := DecodeWelcomeField(r, rest, msg);
    }
  }

  method DecodeWelcomeField(r: ByteReader, ghost rest: seq<Byte>, was: ServerWelcome) returns (msg: ServerWelcome)
    requires r.pos < |r.bytes| && rest == r.Rest() && ParseFields(rest).Some? && WelcomeTyped(Head(rest))
    modifies r
    ensures AtNext(r, rest) && r.pos > old(r.pos)
    ensures msg == WelcomeAssign(was, Head(rest))
  {
    msg := was;
    var fieldNumber, wireType := ReadHeadTag(r, rest);
    match fieldNumber {
      case 1 =>
        var x := ReadNumber(r, rest);
        msg := msg.(targetTickFloor := x);
      case 2 =>
        var x := ReadNumber(r, rest);
        msg := msg.(tickRateHz := x);
      case 3 =>
        var x := ReadNumber(r, rest);
        msg := msg.(playerId := x);
      case 4 =>
        var x := ReadNumber(r, rest);
        msg := msg.(controlledEntityId := x);
      case _ =>
        SkipUnknown(r, wireType, rest);
    }
  }

  method DecodeEntitySnapshotProto(bytes: seq<Byte>) returns (msg: EntitySnapshotProto)
    requires Readable(EntityTyped, bytes)
    ensures msg == Decode(EntityAssign, EMPTY_ENTITY, bytes) && EntityReads(bytes, msg)
  {
    EntityFold(ParseFields(bytes).value);
    msg := EMPTY_ENTITY;
    var r := new ByteReader(bytes);
    while r.HasMore()
      invariant r.pos <= |bytes| && Readable(EntityTyped, r.Rest())
      invariant Decode(EntityAssign, msg, r.Rest()) == Decode(EntityAssign, EMPTY_ENTITY, bytes)
      decreases |bytes| - r.pos
    {
      ghost var rest := r.Rest();
      NextReadable(EntityAssign, EntityTyped, msg, rest);
      msg := DecodeEntityField(r, rest, msg);
    }
  }

  method DecodeEntityField(r: ByteReader, ghost rest: seq<Byte>, was: EntitySnapshotProto) returns (msg: EntitySnapshotProto)
    requires r.pos < |r.bytes| && rest == r.Rest() && ParseFields(rest).Some? && EntityTyped(Head(rest))
    modifies r
    ensures AtNext(r, rest) && r.pos > old(r.pos)
    ensures msg == EntityAssign(was, Head(rest))
  {
    msg := was;
    var fieldNumber, wireType := ReadHeadTag(r, rest);
    match fieldNumber {
      case 1 =>
        var x := ReadNumber(r, rest);
        msg := msg.(entityId := x);
      case 2 =>
        var vs := ReadPackedDoubles(r, rest);
        msg := msg.(position := vs);
      case 3 =>
        var vs := ReadPackedDoubles(r, rest);
        msg := msg.(velocity := vs);
      case _ =>
        SkipUnknown(r, wireType, rest);
    }
  }

  method DecodeJoinBaseline(bytes: seq<Byte>) returns (msg: JoinBaseline)
    requires Readable(BaselineTyped, bytes)
    ensures msg == Decode(BaselineAssign, EMPTY_BASELINE, bytes) && BaselineReads(bytes, msg)
  {
    BaselineFold(ParseFields(bytes).value);
    msg := EMPTY_BASELINE;
    var r := new ByteReader(bytes);
    while r.HasMore()
      invariant r.pos <= |bytes| && Readable(BaselineTyped, r.Rest())
      invariant Decode(BaselineAssign, msg, r.Rest()) == Decode(BaselineAssign, EMPTY_BASELINE, bytes)
      decreases |bytes| - r.pos
    {
      ghost var rest := r.Rest();
      NextReadable(BaselineAssign, BaselineTyped, msg, rest);
      msg := DecodeBaselineField(r, rest, msg);
    }
  }

  method DecodeBaselineField(r: ByteReader, ghost rest: seq<Byte>, was: JoinBaseline) returns (msg: JoinBaseline)
    requires r.pos < |r.bytes| && rest == r.Rest() && ParseFields(rest).Some? && BaselineTyped(Head(rest))
    modifies r
    ensures AtNext(r, rest) && r.pos > old(r.pos)
    ensures msg == BaselineAssign(was, Head(rest))
  {
    msg := was;
    var fieldNumber, wireType := ReadHeadTag(r, rest);
    match fieldNumber {
      case 1 =>
        var x := ReadNumber(r, rest);
        msg := msg.(tick := x);
      case 2 =>
        var nested := ReadDelimited(r, rest);
        var entity := DecodeEntitySnapshotProto(nested);
        msg := msg.(entities := msg.entities + [entity]);
      case 3 =>
        var x := ReadNumber(r, rest);
        msg := msg.(digest := x);
      case _ =>
        SkipUnknown(r, wireType, rest);
    }
  }

  method DecodeInputCmdProto(bytes: seq<Byte>) returns (msg: InputCmdProto)
    requires Readable(InputTyped, bytes)
    ensures msg == Decode(InputAssign, EMPTY_INPUT, bytes) && InputReads(bytes, msg)
  {
    InputFold(ParseFields(bytes).value);
    msg := EMPTY_INPUT;
    var r := new ByteReader(bytes);
    while r.HasMore()
      invariant r.pos <= |bytes| && Readable(InputTyped, r.Rest())
      invariant Decode(InputAssign, msg, r.Rest()) == Decode(InputAssign, EMPTY_INPUT, bytes)
      decreases |bytes| - r.pos
    {
      ghost var rest := r.Rest();
      NextReadable(InputAssign, InputTyped, msg, rest);
      msg := DecodeInputField(r, rest, msg);
    }
  }

  method DecodeInputField(r: ByteReader, ghost rest: seq<Byte>, was: InputCmdProto) returns (msg: InputCmdProto)
    requires r.pos < |r.bytes| && rest == r.Rest() && ParseFields(rest).Some? && InputTyped(Head(rest))
    modifies r
    ensures AtNext(r, rest) && r.pos > old(r.pos)
    ensures msg == InputAssign(was, Head(rest))
  {
    msg := was;
    var fieldNumber, wireType := ReadHeadTag(r, rest);
    match fieldNumber {
      case 1 =>
        var x := ReadNumber(r, rest);
        msg := msg.(tick := x);
      case 2 =>
        var x := ReadNumber(r, rest);
        msg := msg.(inputSeq := x);
      case 3 =>
        var vs := ReadPackedDoubles(r, rest);
        msg := msg.(moveDir := vs);
      case _ =>
        SkipUnknown(r, wireType, rest);
    }
  }

  method DecodeSnapshotProto(bytes: seq<Byte>) returns (msg: SnapshotProto)
    requires Readable(SnapshotTyped, bytes)
    ensures msg == Decode(SnapshotAssign, EMPTY_SNAPSHOT, bytes) && SnapshotReads(bytes, msg)
  {
    SnapshotFold(ParseFields(bytes).value);
    msg := EMPTY_SNAPSHOT;
    var r := new ByteReader(bytes);
    while r.HasMore()
      invariant r.pos <= |bytes| && Readable(SnapshotTyped, r.Rest())
      invariant Decode(SnapshotAssign, msg, r.Rest()) == Decode(SnapshotAssign, EMPTY_SNAPSHOT, bytes)
      decreases |bytes| - r.pos
    {
      ghost var rest := r.Rest();
      NextReadable(SnapshotAssign, SnapshotTyped, msg, rest);
      msg := DecodeSnapshotField(r, rest, msg);
    }
  }

  method DecodeSnapshotField(r: ByteReader, ghost rest: seq<Byte>, was: SnapshotProto) returns (msg: SnapshotProto)
    requires r.pos < |r.bytes| && rest == r.Rest() && ParseFields(rest).Some? && SnapshotTyped(Head(rest))
    modifies r
    ensures AtNext(r, rest) && r.pos > old(r.pos)
    ensures msg == SnapshotAssign(was, Head(rest))
  {
    msg := was;
    var fieldNumber, wireType := ReadHeadTag(r, rest);
    match fieldNumber {
      case 1 =>
        var x := ReadNumber(r, rest);
        msg := msg.(tick := x);
      case 2 =>
        var nested := ReadDelimited(r, rest);
        var entity := DecodeEntitySnapshotProto(nested);
        msg := msg.(entities := msg.entities + [entity]);
      case 3 =>
        var x := ReadNumber(r, rest);
        msg := msg.(digest := x);
      case 4 =>
        var x := ReadNumber(r, rest);
        msg := msg.(targetTickFloor := x);
      case _ =>
        SkipUnknown(r, wireType, rest);
    }
  }
}
