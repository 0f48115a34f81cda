/** What the definitions of the standard yield, told without them: bit by bit, byte by byte, and number by number. */
module Sha1Meaning {
  import opened Bits
  import opened Sha1Standard
  import opened Sha1Round

  /** The constant of a round is the whole part of 2^30 times the root of 2, 3, 5 or 10. */
  lemma ConstantIsRoot(t: nat)
    requires t < 80
    ensures var n, k: nat := if t < 20 then 2 else if t < 40 then 3 else if t < 60 then 5 else 10, K(t);
      k * k <= n * 0x1000_0000_0000_0000 < (k + 1) * (k + 1)
  {
  }

  /** The bytes of the initial hash value, from the low end of each word on, count up, down and down again. */
  lemma StartCounts(i: nat)
    requires i < 4
    ensures START.a / Pow2(8 * i) % 0x100 == 0x01 + 0x22 * i
    ensures START.b / Pow2(8 * i) % 0x100 == 0x89 + 0x22 * i
    ensures START.c / Pow2(8 * i) % 0x100 == 0xfe - 0x22 * i
    ensures START.d / Pow2(8 * i) % 0x100 == 0x76 - 0x22 * i
    ensures START.e / Pow2(8 * i) % 0x100 == 0xf0 - 0x0f * i
  {
    hide Pow2;
    Pow2Bytes();
    if i == 0 {
    } else if i == 1 {
    } else if i == 2 {
    } else {
      assert i == 3;
    }
  }

  lemma Pow2Bytes()
    ensures Pow2(0) == 1 && Pow2(8) == 0x100 && Pow2(16) == 0x1_0000 && Pow2(24) == 0x100_0000
  {
    assert Pow2(4) == 16;
    assert Pow2(8) == 0x100;
    assert Pow2(12) == 0x1000;
    assert Pow2(16) == 0x1_0000;
    assert Pow2(20) == 0x10_0000;
  }

  /** Bit i of a number. */
  function Bit(x: nat, i: nat): (b: nat)
    ensures b < 2
  {
    x / Pow2(i) % 2
  }

  lemma LowBit(x: nat)
    ensures Bit(x, 0) == x % 2
  {
    assert Pow2(0) == 1;
  }

  lemma BitOfHalf(x: nat, i: nat)
    requires i > 0
    ensures Bit(x, i) == Bit(x / 2, i - 1)
  {
    HalfDiv(x, Pow2(i - 1));
  }

  lemma {:induction false} AndBit(x: nat, y: nat, i: nat)
    ensures Bit(And(x, y), i) == if Bit(x, i) == 1 && Bit(y, i) == 1 then 1 else 0
    decreases i
  {
    hide And, Bit;
    AndHalf(x, y);
    if i > 0 {
      BitOfHalf(x, i);
      BitOfHalf(y, i);
      BitOfHalf(And(x, y), i);
      AndBit(x / 2, y / 2, i - 1);
    } else {
      LowBit(x);
      LowBit(y);
      LowBit(And(x, y));
    }
  }

  lemma {:induction false} XorBit(x: nat, y: nat, i: nat)
    ensures Bit(Xor(x, y), i) == if Bit(x, i) == Bit(y, i) then 0 else 1
    decreases i
  {
    hide Xor, Bit;
    XorHalf(x, y);
    if i > 0 {
      BitOfHalf(x, i);
      BitOfHalf(y, i);
      BitOfHalf(Xor(x, y), i);
      XorBit(x / 2, y / 2, i - 1);
    } else {
      LowBit(x);
      LowBit(y);
      LowBit(Xor(x, y));
    }
  }

  lemma {:induction false} NotBit(x: nat, k: nat, i: nat)
    requires x < Pow2(k) && i < k
    ensures Bit(Pow2(k) - 1 - x, i) == 1 - Bit(x, i)
    decreases i
  {
    hide Bit;
    NotHalf(x, k);
    if i > 0 {
      BitOfHalf(x, i);
      BitOfHalf(Pow2(k) - 1 - x, i);
      NotBit(x / 2, k - 1, i - 1);
    } else {
      LowBit(x);
      LowBit(Pow2(k) - 1 - x);
    }
  }

  /** In every bit the first function of the rounds chooses, the second and fourth add, the third takes the majority. */
  lemma LogicBits(t: nat, x: word, y: word, z: word, i: nat)
    requires t < 80 && i < 32
    ensures var p, q, r := Bit(x, i), Bit(y, i), Bit(z, i);
      Bit(Logic(t, x, y, z), i) ==
        if t < 20 then (if p == 1 then q else r)
        else if 40 <= t < 60 then (if p + q + r >= 2 then 1 else 0)
        else (p + q + r) % 2
  {
    hide And, Xor, Or, Bit;
    if t < 20 {
      ChBit(x, y, z, i);
    } else if 40 <= t < 60 {
      MajBit(x, y, z, i);
    } else {
      XorBit(x, y, i);
      XorBit(Xor(x, y), z, i);
    }
  }

  lemma ChBit(x: word, y: word, z: word, i: nat)
    requires i < 32
    ensures Bit(Ch(x, y, z), i) == if Bit(x, i) == 1 then Bit(y, i) else Bit(z, i)
  {
    hide And, Xor, Or, Bit;
    Pow2Of32();
    NotBit(x, 32, i);
    AndBit(x, y, i);
    AndBit(Not32(x), z, i);
    XorBit(And(x, y), And(Not32(x), z), i);
  }

  lemma MajBit(x: word, y: word, z: word, i: nat)
    ensures Bit(Maj(x, y, z), i) == if Bit(x, i) + Bit(y, i) + Bit(z, i) >= 2 then 1 else 0
  {
    hide And, Xor, Or, Bit;
    AndBit(x, y, i);
    AndBit(x, z, i);
    AndBit(y, z, i);
    XorBit(And(x, y), And(x, z), i);
    XorBit(Xor(And(x, y), And(x, z)), And(y, z), i);
  }

  lemma Scaled(x: nat, p: nat, q: nat)
    requires p > 0 && q > 0 && x < p * q
    ensures x * p % (p * q) == p * (x % q) && x / q < p
  {
    var h, r := x / q, x % q;
    assert x == q * h + r;
    assert x * p == p * q * h + p * r;
    assert p * r < p * q;
    ModUnique(x * p, p * q, h, p * r);
  }

  /** A rotation to the left multiplies, and what overflows comes in at the low end. */
  lemma RotIsCyclic(x: word, k: nat)
    requires 0 < k < 32
    ensures Rot32(x, k) == x * Pow2(k) % 0x1_0000_0000 + x / Pow2(32 - k)
  {
    hide Or, Shl, Shr, Wrap, Pow2;
    var p, q := Pow2(k), Pow2(32 - k);
    Pow2Sum(k, 32 - k);
    Pow2Of32();
    Scaled(x, p, q);
    ShlIsTimes(x, k);
    WrapIsMod(Shl(x, k));
    ShrIsDiv(x, 32 - k);
    ShlIsTimes(x % q, k);
    OrDisjoint(x % q, k, x / q);
  }

  /** The bytes of a block, the first of each four the most significant one. */
  lemma {:induction false} WordsAreBigEndian(block: seq<byte>, n: nat, j: nat)
    requires 4 * n <= |block| && j < n
    ensures var b := (i: int) requires 0 <= i < |block| => block[i] as int;
      Words(block, n)[j] == 0x100_0000 * b(4 * j) + 0x1_0000 * b(4 * j + 1) + 0x100 * b(4 * j + 2) + b(4 * j + 3)
  {
    if j < n - 1 { WordsAreBigEndian(block, n - 1, j); }
  }

  /** Byte i of a number of n bytes. */
  lemma {:induction false} BytesAreDigits(v: nat, n: nat, i: nat)
    requires i < n
    ensures BigEndian(v, n)[n - 1 - i] == v / Pow2(8 * i) % 0x100
  {
    if i == 0 {
      assert Pow2(0) == 1;
    } else {
      BytesAreDigits(v / 256, n - 1, i - 1);
      Pow2Sum(8, 8 * (i - 1));
      Pow2Bytes();
      DivDiv(v, 256, Pow2(8 * (i - 1)));
    }
  }

  lemma DivDiv(x: nat, p: nat, q: nat)
    requires p > 0 && q > 0
    ensures p * q > 0 && x / p / q == x / (p * q)
  {
    var h, r := x / p, x % p;
    var g, s := h / q, h % q;
    TwoDigits(p, q, g, s, r);
    assert x == p * h + r && h == q * g + s;
    ModUnique(x, p * q, g, p * s + r);
  }

  lemma TwoDigits(p: nat, q: nat, g: nat, s: nat, r: nat)
    requires s < q && r < p
    ensures p * (q * g + s) + r == p * q * g + (p * s + r) && p * s + r < p * q
  {
    assert p * (q * g + s) == p * (q * g) + p * s;
    assert p * (q * g) == p * q * g;
    assert p * s + p == p * (s + 1) <= p * q;
  }

  /** A padded message: the message, a one bit, zeros, and its length in bits, in blocks of 64 bytes and no more. */
  lemma PaddingMeans(msg: seq<byte>)
    ensures var p := Padded(msg);
      && |p| % 64 == 0 && |msg| + 9 <= |p| < |msg| + 73
      && p[..|msg|] == msg && p[|msg|] == 0x80
      && (forall i :: |msg| < i < |p| - 8 ==> p[i] == 0)
      && forall i: nat :: i < 8 ==> p[|p| - 1 - i] == 8 * |msg| / Pow2(8 * i) % 0x100
  {
    hide BigEndian;
    var p := Padded(msg);
    ZerosAreZero(Gap(|msg|));
    var z, b := Zeros(Gap(|msg|)), BigEndian(8 * |msg|, 8);
    assert p == msg + [0x80] + z + b;
    forall i: nat | i < 8 ensures p[|p| - 1 - i] == 8 * |msg| / Pow2(8 * i) % 0x100 {
      BytesAreDigits(8 * |msg|, 8, i);
      assert p[|p| - 1 - i] == b[7 - i];
    }
  }

  lemma {:induction false} ZerosAreZero(n: nat)
    ensures forall i :: 0 <= i < n ==> Zeros(n)[i] == 0
  {
    if n > 0 { ZerosAreZero(n - 1); }
  }

  /** One block: what eighty rounds make of the hash value is added to it word by word, modulo 2^32. */
  lemma BlockMeans(h: Five, block: seq<byte>)
    requires |block| == 64
    ensures var v, g := Rounds(Schedule(Words(block, 16)), h, 80), Compress(h, block);
      && g.a == (h.a + v.a) % 0x1_0000_0000 && g.b == (h.b + v.b) % 0x1_0000_0000
      && g.c == (h.c + v.c) % 0x1_0000_0000 && g.d == (h.d + v.d) % 0x1_0000_0000
      && g.e == (h.e + v.e) % 0x1_0000_0000
  {
    hide Rounds, Words;
    var v := Rounds(Schedule(Words(block, 16)), h, 80);
    WrapIsMod(h.a + v.a);
    WrapIsMod(h.b + v.b);
    WrapIsMod(h.c + v.c);
    WrapIsMod(h.d + v.d);
    WrapIsMod(h.e + v.e);
  }

  /** The digest: the five words of the hash value, the first byte of each the most significant one. */
  lemma DigestMeans(h: Five, j: nat, i: nat)
    requires j < 5 && i < 4
    ensures |DigestBytes(h)| == 20
    ensures DigestBytes(h)[4 * j + 3 - i] == [h.a, h.b, h.c, h.d, h.e][j] / Pow2(8 * i) % 0x100
  {
    hide BigEndian;
    BytesAreDigits([h.a, h.b, h.c, h.d, h.e][j], 4, i);
  }
}
