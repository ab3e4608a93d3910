/** The client's byte writer and byte reader. */
module WireIO {
  import opened Wrappers
  import opened Words
  import opened Varint
  import opened WireFormat

  class ByteWriter {
    var bytes: seq<Byte>

    constructor ()
      ensures bytes == []
    {
      bytes := [];
    }

    method WriteVarint(value: I64)
      modifies this
      ensures bytes == old(bytes) + EncodeVarint(Pattern(value))
    {
      var remaining := value;
      while true
        invariant bytes + EncodeVarint(Pattern(remaining)) == old(bytes) + EncodeVarint(Pattern(value))
        decreases Pattern(remaining)
      {
        WriteStep(remaining, bytes);
        var byte := And(remaining, 0x7F);
        remaining := UnsignedShr(remaining, 7);
        if remaining != 0 {
          bytes := bytes + [Or(byte, 0x80)];
        } else {
          bytes := bytes + [byte];
          break;
        }
      }
    }

    method WriteTag(fieldNumber: I64, wireType: I64)
      requires 0 <= fieldNumber < 0x1000_0000_0000_0000 && 0 <= wireType < 8
      modifies this
      ensures bytes == old(bytes) + EncodeVarint(8 * fieldNumber + wireType)
    {
      TagWord(fieldNumber, wireType);
      WriteVarint(Or(ShiftLeft(fieldNumber, 3), wireType));
    }

    method WriteDouble(value: U64)
      modifies this
      ensures bytes == old(bytes) + LittleEndian(value, 8)
    {
      bytes := bytes + LittleEndian(value, 8);
    }

    method WriteBytes(more: seq<Byte>)
      modifies this
      ensures bytes == old(bytes) + more
    {
      bytes := bytes + more;
    }
  }

  class ByteReader {
    const bytes: seq<Byte>
    var pos: nat

    /** What is left to read. */
    ghost function Rest(): seq<Byte>
      reads this
      requires pos <= |bytes|
    {
      bytes[pos..]
    }

    constructor (bytes: seq<Byte>)
      ensures this.bytes == bytes && pos == 0
    {
      this.bytes := bytes;
      pos := 0;
    }

    predicate HasMore()
      reads this
    {
      pos < |bytes|
    }

    /** Reads exactly the varint at the reader's position, whatever bytes follow it. */
    method ReadVarint() returns (result: I64)
      requires pos <= |bytes| && VarintAt(Rest()).Some?
      modifies this
      ensures VarintAt(old(Rest())) == Some((Pattern(result), pos - old(pos)))
      ensures old(pos) < pos <= |bytes|
    {
      ghost var rest, n, i := Rest(), VarintAt(Rest()).value.1, 0;
      result := 0;
      var shift := 0;
      while true
        invariant i < n && pos == old(pos) + i && shift == 7 * i
        invariant Pattern(result) == GroupSum(rest[..i]) < Pow2(7 * i)
        decreases n - i
      {
        var b := bytes[pos];
        pos := pos + 1;
        ReadStep(rest, i, result);
        result := Or(result, ShiftLeft(And(b, 0x7F), shift));
        i := i + 1;
        if And(b, 0x80) == 0 {
          break;
        }
        shift := shift + 7;
      }
    }

    method ReadTag() returns (fieldNumber: I64, wireType: I64)
      requires pos <= |bytes| && VarintAt(Rest()).Some?
      modifies this
      ensures
        var tag := VarintAt(old(Rest())).value;
        fieldNumber == TagNumber(tag.0) && wireType == tag.0 % 8 && pos == old(pos) + tag.1
      ensures old(pos) < pos <= |bytes|
    {
      var tag := ReadVarint();
      TagFields(tag);
      fieldNumber, wireType := ShiftRight(tag, 3), And(tag, 0x07);
    }

    method ReadDouble() returns (v: U64)
      requires pos + 8 <= |bytes|
      modifies this
      ensures v == DoubleAt(old(Rest())) && pos == old(pos) + 8
    {
      v := DoubleAt(bytes[pos..]);
      pos := pos + 8;
    }

    method ReadBytes(length: I64) returns (result: seq<Byte>)
      requires 0 <= length && pos + length <= |bytes|
      modifies this
      ensures result == old(Rest())[..length] && pos == old(pos) + length
    {
      result := bytes[pos..pos + length];
      pos := pos + length;
    }

    /** Steps over the payload of a field whose tag has been read. */
    method SkipField(wireType: I64)
      requires pos <= |bytes| && wireType >= 0 && ParsePayload(wireType, Rest()).Some?
      modifies this
      ensures pos == old(pos) + ParsePayload(wireType, old(Rest())).value.1
    {
      if wireType == WIRE_TYPE_VARINT {
        var _ := ReadVarint();
      } else if wireType == WIRE_TYPE_FIXED64 {
        pos := pos + 8;
      } else if wireType == WIRE_TYPE_LENGTH_DELIMITED {
        var length := ReadVarint();
        pos := pos + length;
      } else if wireType == WIRE_TYPE_FIXED32 {
        pos := pos + 4;
      } else {
        assert false;
      }
    }
  }

  /** One turn of the writing loop: seven bits move from the value to the bytes. */
  lemma WriteStep(value: I64, done: seq<Byte>)
    ensures
      var byte, next := And(value, 0x7F), UnsignedShr(value, 7);
      && 0 <= byte < 128 && 0 <= Or(byte, 0x80) < 256
      && (next == 0 ==> done + [byte] == done + EncodeVarint(Pattern(value)))
      && (next != 0 ==> Pattern(next) < Pattern(value))
      && (next != 0 ==> done + [Or(byte, 0x80)] + EncodeVarint(Pattern(next)) == done + EncodeVarint(Pattern(value)))
  {
    var u := Pattern(value);
    LowSeven(value);
    SevenBits(value);
    SetContinuation(u % 128);
    if u / 128 != 0 {
      assert EncodeVarint(u) == [128 + u % 128] + EncodeVarint(u / 128);
    }
  }

  lemma SevenBits(value: I64)
    ensures Pattern(UnsignedShr(value, 7)) == Pattern(value) / 128
  {
    Pow2Literals();
    UnsignedShrIsLogical(value, 7);
  }

  lemma TagWord(fieldNumber: I64, wireType: I64)
    requires 0 <= fieldNumber < 0x1000_0000_0000_0000 && 0 <= wireType < 8
    ensures Or(ShiftLeft(fieldNumber, 3), wireType) == 8 * fieldNumber + wireType
  {
    TagNumberShift(fieldNumber);
    OrPattern(ShiftLeft(fieldNumber, 3), wireType);
    OrPattern(wireType, ShiftLeft(fieldNumber, 3));
    OrSymmetric(8 * fieldNumber, wireType, 64);
    Pow2Literals();
    OrAbove(wireType, ShiftLeft(fieldNumber, 3), 3, fieldNumber);
  }

  lemma TagNumberShift(fieldNumber: I64)
    requires 0 <= fieldNumber < 0x1000_0000_0000_0000
    ensures ShiftLeft(fieldNumber, 3) == 8 * fieldNumber
  {
    Pow2Literals();
  }

  lemma TagFields(tag: I64)
    ensures ShiftRight(tag, 3) == TagNumber(Pattern(tag)) && And(tag, 0x07) == Pattern(tag) % 8
  {
    Pow2Literals();
    AndLowMask(Pattern(tag), 3, 64);
  }

  lemma {:induction false} AndBit(a: nat, j: nat, k: nat)
    requires j < k
    ensures AndBits(a, Pow2(j), k) == a / Pow2(j) % 2 * Pow2(j)
  {
    if j == 0 {
      AndZero(a / 2, k - 1);
    } else {
      var h := Pow2(j - 1);
      AndBit(a / 2, j - 1, k - 1);
      HalveQuotient(a, h);
    }
  }

  lemma TopBit(b: Byte)
    ensures b / 128 % 2 * 128 == 0 <==> b < 128
  {
  }

  /** The continuation bit of a byte. */
  lemma HighBit(b: Byte)
    ensures And(b, 0x80) == 0 <==> b < 128
  {
    SmallPowers();
    AndBit(b, 7, 64);
    TopBit(b);
  }

  lemma {:induction false} GroupSumBound(bs: seq<Byte>)
    ensures GroupSum(bs) < Pow2(7 * |bs|)
  {
    if bs == [] {
    } else {
      var n := |bs| - 1;
      GroupSumBound(bs[..n]);
      Pow2Add(7, 7 * n);
      Pow2Literals();
      GroupBelow(bs[n] % 128, Pow2(7 * n));
    }
  }

  lemma GroupBelow(g: nat, p: nat)
    requires g < 128
    ensures g * p + p <= 128 * p
  {
  }

  /** One turn of the reading loop in terms of patterns. */
  lemma AddGroup(rest: seq<Byte>, i: nat, partial: I64)
    requires i < |rest| && i <= 9 && Pattern(partial) == GroupSum(rest[..i]) < Pow2(7 * i)
    ensures Pattern(Or(partial, ShiftLeft(rest[i] % 128, 7 * i))) == GroupSum(rest[..i + 1]) % 0x1_0000_0000_0000_0000
  {
    assert rest[..i + 1][..i] == rest[..i];
    OrGroup(partial, rest[i] % 128, 7 * i);
  }

  /** Fewer than ten groups stay below 64 bits. */
  lemma PartialSum(bs: seq<Byte>)
    requires |bs| <= 9
    ensures GroupSum(bs) < Pow2(7 * |bs|) && GroupSum(bs) < 0x1_0000_0000_0000_0000
  {
    GroupSumBound(bs);
    Pow2Add(7 * |bs|, 63 - 7 * |bs|);
    MulAtLeast(Pow2(7 * |bs|), Pow2(63 - 7 * |bs|));
    Pow2Literals();
  }

  /** One turn of the reading loop: the next group joins the result. */
  lemma ReadStep(rest: seq<Byte>, i: nat, partial: I64)
    requires VarintAt(rest).Some? && i < VarintAt(rest).value.1
    requires Pattern(partial) == GroupSum(rest[..i]) < Pow2(7 * i)
    ensures
      var next, n := Or(partial, ShiftLeft(And(rest[i], 0x7F), 7 * i)), VarintAt(rest).value.1;
      && (And(rest[i], 0x80) == 0 <==> i + 1 == n)
      && (i + 1 == n ==> Pattern(next) == VarintAt(rest).value.0)
      && (i + 1 < n ==> Pattern(next) == GroupSum(rest[..i + 1]) < Pow2(7 * (i + 1)))
  {
    LowSeven(rest[i]);
    HighBit(rest[i]);
    AddGroup(rest, i, partial);
    if i + 1 < VarintAt(rest).value.1 { PartialSum(rest[..i + 1]); }
  }
}
