/** Bitwise operators of C on unsigned integers, as functions on naturals, and powers of two. */
module Bits {
  const TWO32 := 0x1_0000_0000

  type byte = x: nat | x < 0x100

  /** A 32-bit machine word; sums and differences of words wrap around. */
  type word = x: nat | x < TWO32

  function Min(a: nat, b: nat): nat {
    if a < b then a else b
  }

  /** What 32 bits keep of a number. */
  function Wrap(n: nat): word {
    if n < TWO32 then n else Wrap(n - TWO32)
  }

  lemma {:induction false} WrapIsMod(n: nat)
    ensures Wrap(n) == n % TWO32
  {
    if n >= TWO32 { WrapIsMod(n - TWO32); }
  }

  lemma {:induction false} WrapAdd(n: nat, m: nat)
    ensures Wrap(Wrap(n) + m) == Wrap(n + m)
  {
    if n >= TWO32 { WrapAdd(n - TWO32, m); }
  }

  function Add32(x: word, y: nat): word {
    Wrap(x + y)
  }

  function Sub32(x: word, y: word): word {
    Wrap(x + (TWO32 - y))
  }

  function Pow2(k: nat): (p: nat)
    ensures p >= 1
  {
    if k == 0 then 1 else 2 * Pow2(k - 1)
  }

  ghost predicate IsPow2(n: nat) {
    exists k: nat :: n == Pow2(k)
  }

  /** The `&` operator. */
  function And(x: nat, y: nat): (r: nat)
    ensures r <= x && r <= y
  {
    if x == 0 || y == 0 then 0 else 2 * And(x / 2, y / 2) + (if x % 2 == 1 && y % 2 == 1 then 1 else 0)
  }

  /** The `|` operator. */
  function Or(x: nat, y: nat): (r: nat)
    ensures r >= x && r >= y
    decreases x + y
  {
    if x == 0 then y else if y == 0 then x
    else 2 * Or(x / 2, y / 2) + (if x % 2 == 1 || y % 2 == 1 then 1 else 0)
  }

  /** The `^` operator. */
  function Xor(x: nat, y: nat): nat
    decreases x + y
  {
    if x == 0 then y else if y == 0 then x
    else 2 * Xor(x / 2, y / 2) + (if x % 2 != y % 2 then 1 else 0)
  }

  lemma {:induction false} XorBound(x: nat, y: nat, k: nat)
    requires x < Pow2(k) && y < Pow2(k)
    ensures Xor(x, y) < Pow2(k)
    decreases k
  {
    if k > 0 && x > 0 && y > 0 { XorBound(x / 2, y / 2, k - 1); }
  }

  lemma {:induction false} OrBound(x: nat, y: nat, k: nat)
    requires x < Pow2(k) && y < Pow2(k)
    ensures Or(x, y) < Pow2(k)
    decreases k
  {
    if k > 0 && x > 0 && y > 0 { OrBound(x / 2, y / 2, k - 1); }
  }

  lemma Pow2Of32()
    ensures Pow2(32) == TWO32
  {
    assert Pow2(8) == 0x100;
    assert Pow2(16) == 0x1_0000;
    assert Pow2(24) == 0x100_0000;
  }

  function Xor32(x: word, y: word): (r: word)
  {
    Pow2Of32();
    XorBound(x, y, 32);
    Xor(x, y)
  }

  /** The `>>` operator. */
  function Shr(x: nat, k: nat): (r: nat)
    ensures r <= x
    decreases k
  {
    if k == 0 then x else Shr(x / 2, k - 1)
  }

  lemma {:induction false} ShrShr(x: nat, a: nat, b: nat)
    ensures Shr(Shr(x, a), b) == Shr(x, a + b)
    decreases a
  {
    if a != 0 { ShrShr(x / 2, a - 1, b); }
  }

  lemma {:induction false} ShrOr(x: nat, y: nat, s: nat)
    ensures Shr(Or(x, y), s) == Or(Shr(x, s), Shr(y, s))
    decreases s
  {
    if s != 0 {
      assert Or(x, y) / 2 == Or(x / 2, y / 2);
      ShrOr(x / 2, y / 2, s - 1);
    }
  }

  lemma {:induction false} ShrOnes(n: nat, s: nat)
    ensures Shr(Pow2(n) - 1, s) == if s <= n then Pow2(n - s) - 1 else 0
    decreases s
  {
    if s != 0 {
      if n == 0 { ShrOnes(0, s - 1); } else { ShrOnes(n - 1, s - 1); }
    }
  }

  /** A number that is m ones followed by t arbitrary bits becomes m + t ones. */
  lemma {:induction false} OrLowOnes(y: nat, m: nat, t: nat)
    requires Shr(y, t) == Pow2(m) - 1
    ensures Or(y, Pow2(t) - 1) == Pow2(m + t) - 1
    decreases t
  {
    if t != 0 {
      OrLowOnes(y / 2, m, t - 1);
    }
  }

  /** The `<<` operator, without a width. */
  function Shl(x: nat, k: nat): (r: nat)
    ensures r >= x
  {
    if k == 0 then x else 2 * Shl(x, k - 1)
  }

  lemma {:induction false} ShlIsTimes(x: nat, k: nat)
    ensures Shl(x, k) == x * Pow2(k)
  {
    if k != 0 { ShlIsTimes(x, k - 1); }
  }

  /** Or with a number whose bits do not overlap is addition. */
  lemma {:induction false} OrDisjoint(x: nat, k: nat, y: nat)
    requires y < Pow2(k)
    ensures Or(Shl(x, k), y) == Shl(x, k) + y
    decreases k
  {
    if k != 0 {
      OrDisjoint(x, k - 1, y / 2);
    }
  }

  /** Rotation of a 32-bit word to the left. */
  function Rot32(x: word, k: nat): word
    requires 0 < k < 32
  {
    Pow2Of32();
    OrBound(Wrap(Shl(x, k)), Shr(x, 32 - k), 32);
    Or(Wrap(Shl(x, k)), Shr(x, 32 - k))
  }

  /** Masking with 2^k - 1 is the remainder modulo 2^k. */
  lemma {:induction false} AndMod(x: nat, k: nat)
    ensures And(x, Pow2(k) - 1) == x % Pow2(k)
  {
    if k != 0 {
      var p := Pow2(k - 1);
      AndMod(x / 2, k - 1);
      ModDouble(x, p);
      assert (2 * p - 1) / 2 == p - 1 && (2 * p - 1) % 2 == 1;
    }
  }

  lemma ModDouble(x: nat, p: nat)
    requires p > 0
    ensures x % (2 * p) == 2 * (x / 2 % p) + x % 2
  {
    var h := x / 2;
    var q, r := h / p, h % p;
    assert h == p * q + r;
    ModUnique(x, 2 * p, q, 2 * r + x % 2);
  }

  lemma ModUnique(x: nat, d: nat, q: nat, r: nat)
    requires x == d * q + r && r < d
    ensures x % d == r && x / d == q
  {
    var k: int := x / d - q;
    assert d * k == r - x % d;
    assert k >= 1 ==> d * k >= d;
    assert k <= -1 ==> d * k <= -1 * d;
  }

  lemma {:induction false} ShrIsDiv(x: nat, k: nat)
    ensures Shr(x, k) == x / Pow2(k)
    decreases k
  {
    if k != 0 {
      ShrIsDiv(x / 2, k - 1);
      ModDouble(x, Pow2(k - 1));
      HalfDiv(x, Pow2(k - 1));
    }
  }

  lemma HalfDiv(x: nat, p: nat)
    requires p > 0
    ensures x / 2 / p == x / (2 * p)
  {
    var q, r := x / 2 / p, x / 2 % p;
    assert x / 2 == p * q + r;
    ModUnique(x, 2 * p, q, 2 * r + x % 2);
  }

  lemma {:induction false} Pow2Sum(k: nat, l: nat)
    ensures Pow2(k) * Pow2(l) == Pow2(k + l)
  {
    if k != 0 { Pow2Sum(k - 1, l); }
  }

  // The operators on the low bit and on the rest.

  lemma XorHalf(x: nat, y: nat)
    ensures Xor(x, y) / 2 == Xor(x / 2, y / 2) && Xor(x, y) % 2 == if x % 2 == y % 2 then 0 else 1
  {
  }

  lemma AndHalf(x: nat, y: nat)
    ensures And(x, y) / 2 == And(x / 2, y / 2) && And(x, y) % 2 == if x % 2 == 1 && y % 2 == 1 then 1 else 0
  {
  }

  lemma OrHalf(x: nat, y: nat)
    ensures Or(x, y) / 2 == Or(x / 2, y / 2) && Or(x, y) % 2 == if x % 2 == 1 || y % 2 == 1 then 1 else 0
  {
  }

  lemma NotHalf(x: nat, k: nat)
    requires k > 0 && x < Pow2(k)
    ensures (Pow2(k) - 1 - x) / 2 == Pow2(k - 1) - 1 - x / 2 && (Pow2(k) - 1 - x) % 2 == 1 - x % 2
  {
  }
}
