/**
 Where each field of the world lies in the bytes that are hashed, byte by byte, and the
 digest of the empty world.
 */
module Layout {
  import opened Words
  import opened Float64
  import opened Digest
  import opened Simulation

  /** The eight bytes from `at` on hold u, least significant byte first. */
  ghost predicate Holds(bytes: seq<Byte>, at: nat, u: nat) {
    at + 8 <= |bytes| && forall k: nat :: k < 8 ==> bytes[at + k] == u / Pow2(8 * k) % 256
  }

  lemma WordHolds(before: seq<Byte>, u: nat, after: seq<Byte>)
    ensures Holds(before + LittleEndian(u, 8) + after, |before|, u)
  {
    forall k: nat | k < 8 ensures (before + LittleEndian(u, 8) + after)[|before| + k] == u / Pow2(8 * k) % 256 {
      LittleEndianByte(u, 8, k);
    }
  }

  lemma Shifted(bytes: seq<Byte>, before: seq<Byte>, after: seq<Byte>, at: nat, u: nat)
    requires Holds(bytes, at, u)
    ensures Holds(before + bytes + after, |before| + at, u)
  {
    forall k: nat | k < 8 ensures (before + bytes + after)[|before| + at + k] == u / Pow2(8 * k) % 256 {
      assert (before + bytes + after)[|before| + at + k] == bytes[at + k];
    }
  }

  /** The five words of a character. */
  ghost predicate HoldsCharacter<F>(ar: Arith<F>, bytes: seq<Byte>, at: nat, c: Character<F>) {
    && Holds(bytes, at, c.entityId)
    && Holds(bytes, at + 8, Canonical(ar.bits(c.position.x))) && Holds(bytes, at + 16, Canonical(ar.bits(c.position.y)))
    && Holds(bytes, at + 24, Canonical(ar.bits(c.velocity.x))) && Holds(bytes, at + 32, Canonical(ar.bits(c.velocity.y)))
  }

  lemma WordAlone(u: nat)
    ensures Holds(LittleEndian(u, 8), 0, u)
  {
    WordHolds([], u, []);
    assert [] + LittleEndian(u, 8) + [] == LittleEndian(u, 8);
  }

  lemma FiveParts(p: seq<Byte>, q: seq<Byte>, r: seq<Byte>, s: seq<Byte>, t: seq<Byte>, a: nat, b: nat, c: nat, d: nat, e: nat)
    requires |p| == |q| == |r| == |s| == |t| == 8
    requires Holds(p, 0, a) && Holds(q, 0, b) && Holds(r, 0, c) && Holds(s, 0, d) && Holds(t, 0, e)
    ensures
      var bs := p + q + r + s + t;
      Holds(bs, 0, a) && Holds(bs, 8, b) && Holds(bs, 16, c) && Holds(bs, 24, d) && Holds(bs, 32, e)
  {
    Shifted(p, [], q + r + s + t, 0, a);
    Shifted(q, p, r + s + t, 0, b);
    Shifted(r, p + q, s + t, 0, c);
    Shifted(s, p + q + r, t, 0, d);
    Shifted(t, p + q + r + s, [], 0, e);
    var bs := p + q + r + s + t;
    assert bs == [] + p + (q + r + s + t) && bs == p + q + (r + s + t);
    assert bs == p + q + r + (s + t) && bs == p + q + r + s + t + [];
  }

  lemma FloatAlone<F>(ar: Arith<F>, x: F)
    ensures |EncodeFloat(ar, x)| == 8 && Holds(EncodeFloat(ar, x), 0, Canonical(ar.bits(x)))
  {
    WordAlone(Canonical(ar.bits(x)));
  }

  lemma CharacterLayout<F>(ar: Arith<F>, c: Character<F>)
    ensures HoldsCharacter(ar, EncodeCharacter(ar, c), 0, c)
  {
    WordAlone(c.entityId);
    FloatAlone(ar, c.position.x);
    FloatAlone(ar, c.position.y);
    FloatAlone(ar, c.velocity.x);
    FloatAlone(ar, c.velocity.y);
    FiveParts(LittleEndian(c.entityId, 8), EncodeFloat(ar, c.position.x), EncodeFloat(ar, c.position.y),
      EncodeFloat(ar, c.velocity.x), EncodeFloat(ar, c.velocity.y),
      c.entityId, Canonical(ar.bits(c.position.x)), Canonical(ar.bits(c.position.y)),
      Canonical(ar.bits(c.velocity.x)), Canonical(ar.bits(c.velocity.y)));
  }

  lemma CharacterShifted<F>(ar: Arith<F>, bytes: seq<Byte>, before: seq<Byte>, after: seq<Byte>, at: nat, c: Character<F>)
    requires HoldsCharacter(ar, bytes, at, c)
    ensures HoldsCharacter(ar, before + bytes + after, |before| + at, c)
  {
    Shifted(bytes, before, after, at, c.entityId);
    Shifted(bytes, before, after, at + 8, Canonical(ar.bits(c.position.x)));
    Shifted(bytes, before, after, at + 16, Canonical(ar.bits(c.position.y)));
    Shifted(bytes, before, after, at + 24, Canonical(ar.bits(c.velocity.x)));
    Shifted(bytes, before, after, at + 32, Canonical(ar.bits(c.velocity.y)));
  }

  /** The same behind other bytes, and before other bytes. */
  lemma CharacterBehind<F>(ar: Arith<F>, bytes: seq<Byte>, before: seq<Byte>, at: nat, c: Character<F>)
    requires HoldsCharacter(ar, bytes, at, c)
    ensures HoldsCharacter(ar, before + bytes, |before| + at, c)
  {
    CharacterShifted(ar, bytes, before, [], at, c);
    assert before + bytes + [] == before + bytes;
  }

  lemma CharacterBefore<F>(ar: Arith<F>, bytes: seq<Byte>, after: seq<Byte>, at: nat, c: Character<F>)
    requires HoldsCharacter(ar, bytes, at, c)
    ensures HoldsCharacter(ar, bytes + after, at, c)
  {
    CharacterShifted(ar, bytes, [], after, at, c);
    assert [] + bytes + after == bytes + after;
  }

  lemma {:induction false} CharactersLayout<F>(ar: Arith<F>, cs: seq<Character<F>>, i: nat)
    requires i < |cs|
    ensures HoldsCharacter(ar, EncodeCharacters(ar, cs), 40 * i, cs[i])
  {
    var n := |cs| - 1;
    var front, last := EncodeCharacters(ar, cs[..n]), EncodeCharacter(ar, cs[n]);
    if i == n {
      CharacterLayout(ar, cs[n]);
      CharacterBehind(ar, last, front, 0, cs[n]);
    } else {
      CharactersLayout(ar, cs[..n], i);
      CharacterBefore(ar, front, last, 40 * i, cs[i]);
    }
  }

  /**
   The hashed bytes: the tick in bytes 0 to 7, and character i from byte 8 + 40 * i on, its
   id, its position x and y and its velocity x and y, every word least significant byte
   first; and nothing else.
   */
  lemma EncodingLayout<F>(ar: Arith<F>, w: WorldState<F>, bytes: seq<Byte>)
    requires bytes == EncodeWorld(ar, w.tick, w.characters)
    ensures StateDigest(ar, w) == Fnv(0xcbf29ce484222325, bytes)
    ensures |bytes| == 8 + 40 * |w.characters| && Holds(bytes, 0, w.tick)
    ensures forall i :: 0 <= i < |w.characters| ==>
      var c, at := w.characters[i], 8 + 40 * i;
      && Holds(bytes, at, c.entityId)
      && Holds(bytes, at + 8, Canonical(ar.bits(c.position.x))) && Holds(bytes, at + 16, Canonical(ar.bits(c.position.y)))
      && Holds(bytes, at + 24, Canonical(ar.bits(c.velocity.x))) && Holds(bytes, at + 32, Canonical(ar.bits(c.velocity.y)))
  {
    var head, tail := LittleEndian(w.tick, 8), EncodeCharacters(ar, w.characters);
    WordHolds([], w.tick, tail);
    assert [] + head + tail == bytes;
    forall i | 0 <= i < |w.characters| ensures HoldsCharacter(ar, bytes, 8 + 40 * i, w.characters[i]) {
      CharactersLayout(ar, w.characters, i);
      CharacterBehind(ar, tail, head, 40 * i, w.characters[i]);
    }
  }

  // The empty world.

  /** One more zero byte multiplies by the prime; q is what the product has above 64 bits. */
  lemma ZeroStep(s: U64, bytes: seq<Byte>, t: U64, q: nat, next: U64, more: seq<Byte>)
    requires Fnv(s, bytes) == t && t * 0x100000001b3 == 0x1_0000_0000_0000_0000 * q + next && more == bytes + [0]
    ensures Fnv(s, more) == next
  {
    assert more[..|bytes|] == bytes;
    StepMultiplies(t);
    RemainderUnique(t * 0x100000001b3, 0x1_0000_0000_0000_0000, q, next);
  }

  lemma ZeroTick(tick: nat)
    requires tick == 0
    ensures forall k: nat :: k < 8 ==> LittleEndian(tick, 8)[k] == 0
  {
    forall k: nat | k < 8 ensures LittleEndian(tick, 8)[k] == 0 {
      LittleEndianByte(tick, 8, k);
      ZeroDivided(tick, Pow2(8 * k));
    }
  }

  lemma ZeroDivided(u: nat, d: nat)
    requires u == 0 && d > 0
    ensures u / d == 0
  {
  }

  lemma FourZeros(s: U64, zeros: seq<Byte>)
    requires s == 0xcbf29ce484222325 && |zeros| == 4 && forall i :: 0 <= i < 4 ==> zeros[i] == 0
    ensures Fnv(s, zeros) == 0x4d25767f9dce13f5
  {
    ZeroStep(s, zeros[..0], 0xcbf29ce484222325, 0xcbf29ce5de, 0xaf63bd4c8601b7df, zeros[..1]);
    ZeroStep(s, zeros[..1], 0xaf63bd4c8601b7df, 0xaf63bd4db0, 0x8328807b4eb6fed, zeros[..2]);
    ZeroStep(s, zeros[..2], 0x8328807b4eb6fed, 0x8328807c2, 0xd94d12186c0f2fb7, zeros[..3]);
    ZeroStep(s, zeros[..3], 0xd94d12186c0f2fb7, 0xd94d1219dd, 0x4d25767f9dce13f5, zeros[..4]);
    assert zeros[..4] == zeros;
  }

  lemma FourMoreZeros(s: U64, zeros: seq<Byte>)
    requires s == 0x4d25767f9dce13f5 && |zeros| == 4 && forall i :: 0 <= i < 4 ==> zeros[i] == 0
    ensures Fnv(s, zeros) == 0xa8c7f832281a39c5
  {
    ZeroStep(s, zeros[..0], 0x4d25767f9dce13f5, 0x4d25768020, 0xe4bc4fd9252be94f, zeros[..1]);
    ZeroStep(s, zeros[..1], 0xe4bc4fd9252be94f, 0xe4bc4fdaa9, 0xd7e4fcfa299d713d, zeros[..2]);
    ZeroStep(s, zeros[..2], 0xd7e4fcfa299d713d, 0xd7e4fcfb98, 0x778b1a14b6876aa7, zeros[..3]);
    ZeroStep(s, zeros[..3], 0x778b1a14b6876aa7, 0x778b1a1581, 0xa8c7f832281a39c5, zeros[..4]);
    assert zeros[..4] == zeros;
  }

  lemma EightZeros(s: U64, zeros: seq<Byte>)
    requires s == 0xcbf29ce484222325 && |zeros| == 8 && forall i :: 0 <= i < 8 ==> zeros[i] == 0
    ensures Fnv(s, zeros) == 0xa8c7f832281a39c5
  {
    FourZeros(s, zeros[..4]);
    FourMoreZeros(Fnv(s, zeros[..4]), zeros[4..]);
    FnvConcat(s, zeros[..4], zeros[4..]);
    assert zeros[..4] + zeros[4..] == zeros;
  }

  /** A fresh world's digest is that of eight zero bytes. */
  lemma EmptyWorldDigest<F>(ar: Arith<F>, seed: nat, tickRateHz: nat)
    ensures StateDigest(ar, NewWorld(ar, seed, tickRateHz)) == 0xa8c7f832281a39c5
  {
    var w := NewWorld(ar, seed, tickRateHz);
    ZeroTick(w.tick);
    EightZeros(OFFSET_BASIS, LittleEndian(w.tick, 8));
    assert EncodeWorld(ar, w.tick, w.characters) == LittleEndian(w.tick, 8);
  }
}
