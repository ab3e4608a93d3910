/**
 The wire format as a list of fields.

 `Serialize` prints a list of fields and `ParseFields` reads one back; the message codec
 is stated in terms of them. Protocol Buffers "Encoding", sections "Base 128 Varints",
 "Length-Delimited Records" and "Packed Repeated Fields".
 */
module WireFormat {
  import opened Wrappers
  import opened Words
  import opened Varint

  const WIRE_TYPE_VARINT := 0
  const WIRE_TYPE_FIXED64 := 1
  const WIRE_TYPE_LENGTH_DELIMITED := 2
  const WIRE_TYPE_FIXED32 := 5

  datatype Payload =
    | Number(value: U64)
    | Fixed64(raw: seq<Byte>)
    | Delimited(bytes: seq<Byte>)
    | Fixed32(raw: seq<Byte>)
  {
    function WireType(): (w: nat)
      ensures w < 8
    {
      match this
      case Number(_) => WIRE_TYPE_VARINT
      case Fixed64(_) => WIRE_TYPE_FIXED64
      case Delimited(_) => WIRE_TYPE_LENGTH_DELIMITED
      case Fixed32(_) => WIRE_TYPE_FIXED32
    }

    function Encode(): seq<Byte> {
      match this
      case Number(u) => EncodeVarint(u)
      case Fixed64(raw) => raw
      case Delimited(bytes) => EncodeVarint(|bytes|) + bytes
      case Fixed32(raw) => raw
    }

    predicate WellFormed() {
      match this
      case Number(_) => true
      case Fixed64(raw) => |raw| == 8
      case Delimited(bytes) => |bytes| < 0x8000_0000_0000_0000
      case Fixed32(raw) => |raw| == 4
    }
  }

  datatype Field = Field(number: int, payload: Payload) {
    predicate WellFormed() { 0 <= number < 0x1000_0000_0000_0000 && payload.WellFormed() }

    function Tag(): nat
      requires number >= 0
    {
      8 * number + payload.WireType()
    }

    function Encode(): (bs: seq<Byte>)
      requires number >= 0
      ensures bs != []
    {
      EncodeVarint(Tag()) + payload.Encode()
    }
  }

  predicate AllWellFormed(fs: seq<Field>) {
    forall i :: 0 <= i < |fs| ==> fs[i].WellFormed()
  }

  function Serialize(fs: seq<Field>): seq<Byte>
    requires AllWellFormed(fs)
  {
    if fs == [] then [] else fs[0].Encode() + Serialize(fs[1..])
  }

  /** The field number a tag carries: `tag >> 3` on the signed word. */
  function TagNumber(tag: U64): int { Signed(tag) / 8 }

  /** The payload of the given wire type at the head of `bs`, and its length. */
  function ParsePayload(wireType: nat, bs: seq<Byte>): (r: Option<(Payload, nat)>)
    ensures r.Some? ==> r.value.1 <= |bs| && r.value.0.WellFormed() && r.value.0.WireType() == wireType
  {
    if wireType == WIRE_TYPE_VARINT then
      var v := VarintAt(bs);
      if v.None? then None else Some((Number(v.value.0), v.value.1))
    else if wireType == WIRE_TYPE_FIXED64 then
      if |bs| < 8 then None else Some((Fixed64(bs[..8]), 8))
    else if wireType == WIRE_TYPE_LENGTH_DELIMITED then
      var v := VarintAt(bs);
      if v.None? || v.value.0 >= 0x8000_0000_0000_0000 || v.value.1 + v.value.0 > |bs| then None
      else Some((Delimited(bs[v.value.1..v.value.1 + v.value.0]), v.value.1 + v.value.0))
    else if wireType == WIRE_TYPE_FIXED32 then
      if |bs| < 4 then None else Some((Fixed32(bs[..4]), 4))
    else None
  }

  /** The field at the head of `bs`, and its length. */
  function ParseField(bs: seq<Byte>): (r: Option<(Field, nat)>)
    ensures r.Some? ==> 1 <= r.value.1 <= |bs|
  {
    var tag := VarintAt(bs);
    if tag.None? then None
    else
      var payload := ParsePayload(tag.value.0 % 8, bs[tag.value.1..]);
      if payload.None? then None
      else Some((Field(TagNumber(tag.value.0), payload.value.0), tag.value.1 + payload.value.1))
  }

  /** All of `bs` as fields, if it is well formed to its last byte. */
  function ParseFields(bs: seq<Byte>): Option<seq<Field>>
    decreases |bs|
  {
    if bs == [] then Some([])
    else
      var head := ParseField(bs);
      if head.None? then None
      else
        var rest := ParseFields(bs[head.value.1..]);
        if rest.None? then None else Some([head.value.0] + rest.value)
  }

  // Printing and parsing are inverse.

  lemma PayloadRoundTrip(p: Payload, rest: seq<Byte>)
    requires p.WellFormed()
    ensures ParsePayload(p.WireType(), p.Encode() + rest) == Some((p, |p.Encode()|))
  {
    match p {
      case Number(u) => VarintRoundTrip(u, rest);
      case Fixed64(raw) => assert (raw + rest)[..8] == raw;
      case Fixed32(raw) => assert (raw + rest)[..4] == raw;
      case Delimited(bytes) =>
        var n := |EncodeVarint(|bytes|)|;
        var all := p.Encode() + rest;
        assert all == EncodeVarint(|bytes|) + (bytes + rest);
        VarintRoundTrip(|bytes|, bytes + rest);
        assert all[n..n + |bytes|] == bytes;
    }
  }

  lemma TagParts(number: nat, wireType: nat)
    requires number < 0x1000_0000_0000_0000 && wireType < 8
    ensures TagNumber(8 * number + wireType) == number && (8 * number + wireType) % 8 == wireType
  {
  }

  lemma Associate<T>(a: seq<T>, b: seq<T>, c: seq<T>)
    ensures (a + b) + c == a + (b + c)
  {
  }

  lemma Drop<T>(a: seq<T>, b: seq<T>)
    ensures (a + b)[|a|..] == b
  {
  }

  lemma FieldOf(bs: seq<Byte>, tag: U64, n: nat, p: Payload, k: nat)
    requires VarintAt(bs) == Some((tag, n)) && ParsePayload(tag % 8, bs[n..]) == Some((p, k))
    ensures ParseField(bs) == Some((Field(TagNumber(tag), p), n + k))
  {
  }

  lemma FieldRoundTrip(f: Field, rest: seq<Byte>)
    requires f.WellFormed()
    ensures ParseField(f.Encode() + rest) == Some((f, |f.Encode()|))
  {
    var tag, payload := EncodeVarint(f.Tag()), f.payload.Encode();
    Associate(tag, payload, rest);
    VarintRoundTrip(f.Tag(), payload + rest);
    Drop(tag, payload + rest);
    TagParts(f.number, f.payload.WireType());
    PayloadRoundTrip(f.payload, rest);
    FieldOf(f.Encode() + rest, f.Tag(), |tag|, f.payload, |payload|);
  }

  lemma ParseCons(f: Field, tail: seq<Byte>, fs: seq<Field>)
    requires f.WellFormed() && ParseFields(tail) == Some(fs)
    ensures ParseFields(f.Encode() + tail) == Some([f] + fs)
  {
    FieldRoundTrip(f, tail);
    Drop(f.Encode(), tail);
  }

  lemma SerializeCons(f: Field, fs: seq<Field>)
    requires f.WellFormed() && AllWellFormed(fs)
    ensures AllWellFormed([f] + fs) && Serialize([f] + fs) == f.Encode() + Serialize(fs)
  {
    assert ([f] + fs)[1..] == fs;
  }

  lemma Uncons<T>(xs: seq<T>)
    requires xs != []
    ensures xs == [xs[0]] + xs[1..]
  {
  }

  /** Printed fields followed by parseable bytes parse to the fields followed by theirs. */
  lemma {:induction false} ParseAfter(fs: seq<Field>, rest: seq<Byte>, hs: seq<Field>)
    requires AllWellFormed(fs) && ParseFields(rest) == Some(hs)
    ensures ParseFields(Serialize(fs) + rest) == Some(fs + hs)
  {
    if fs == [] {
      assert Serialize(fs) + rest == rest && fs + hs == hs;
    } else {
      var f, gs := fs[0], fs[1..];
      Uncons(fs);
      ParseAfter(gs, rest, hs);
      ParseCons(f, Serialize(gs) + rest, gs + hs);
      Associate(f.Encode(), Serialize(gs), rest);
      Associate([f], gs, hs);
    }
  }

  /** Parsing what was printed gives back exactly the fields, to the last byte. */
  lemma FieldsRoundTrip(fs: seq<Field>)
    requires AllWellFormed(fs)
    ensures ParseFields(Serialize(fs)) == Some(fs)
  {
    ParseAfter(fs, [], []);
    assert Serialize(fs) + [] == Serialize(fs) && fs + [] == fs;
  }

  lemma {:induction false} SerializeConcat(fs: seq<Field>, gs: seq<Field>)
    requires AllWellFormed(fs) && AllWellFormed(gs)
    ensures AllWellFormed(fs + gs) && Serialize(fs + gs) == Serialize(fs) + Serialize(gs)
  {
    if fs == [] {
      assert fs + gs == gs && Serialize(fs) + Serialize(gs) == Serialize(gs);
    } else {
      var f, rest := fs[0], fs[1..];
      Uncons(fs);
      SerializeConcat(rest, gs);
      SerializeCons(f, rest + gs);
      SerializeCons(f, rest);
      Associate([f], rest, gs);
      Associate(f.Encode(), Serialize(rest), Serialize(gs));
    }
  }

  // Packed doubles: eight bytes each, least significant first.

  function PackDoubles(vs: seq<U64>): (bs: seq<Byte>)
    ensures |bs| == 8 * |vs|
  {
    if vs == [] then [] else LittleEndian(vs[0], 8) + PackDoubles(vs[1..])
  }

  function UnpackDoubles(bs: seq<Byte>): (vs: seq<U64>)
    requires |bs| % 8 == 0
    ensures |vs| == |bs| / 8
  {
    if bs == [] then [] else [DoubleAt(bs)] + UnpackDoubles(bs[8..])
  }

  /** The double at the head of `bs`, as a bit pattern. */
  function DoubleAt(bs: seq<Byte>): U64
    requires |bs| >= 8
  {
    FromLittleEndianBounded(bs[..8]);
    Pow2Literals();
    FromLittleEndian(bs[..8])
  }

  lemma {:induction false} DoublesRoundTrip(vs: seq<U64>)
    ensures UnpackDoubles(PackDoubles(vs)) == vs
  {
    if vs == [] {
    } else {
      var bs := PackDoubles(vs);
      assert bs[..8] == LittleEndian(vs[0], 8) && bs[8..] == PackDoubles(vs[1..]);
      Pow2Literals();
      LittleEndianRoundTrip(vs[0], 8);
      DoublesRoundTrip(vs[1..]);
    }
  }
}
