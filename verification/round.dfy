/** The rounding of a table size to a power of two by smearing the leading bit. */
module Rounding {
  import opened Bits

  /** `size --; size |= size >> 1; ...; size |= size >> 16; size ++`. */
  function RoundUp(size: nat): nat
    requires size > 0
  {
    SmearTo16(size - 1) + 1
  }

  function SmearTo16(x: nat): nat {
    Smear(Smear(Smear(Smear(Smear(x, 1), 2), 4), 8), 16)
  }

  function Smear(x: nat, s: nat): nat {
    Or(x, Shr(x, s))
  }

  /** The m leading bits of the n-bit number x are ones. */
  ghost predicate LeadingOnes(x: nat, n: nat, m: nat) {
    m <= n && Shr(x, n - m) == Pow2(m) - 1
  }

  lemma {:induction false} ShiftedRun(x: nat, n: nat, m: nat, t: nat)
    requires LeadingOnes(x, n, m) && t <= m && t + m <= n
    ensures Shr(Shr(x, m), n - m - t) == Pow2(t) - 1
  {
    ShrShr(x, m, n - m - t);
    ShrShr(x, n - m, m - t);
    ShrOnes(m, m - t);
  }

  /** One smearing step doubles the run of leading ones. */
  lemma {:induction false} SmearDoubles(x: nat, n: nat, m: nat, t: nat)
    requires LeadingOnes(x, n, m) && t <= m && t + m <= n
    ensures LeadingOnes(Smear(x, m), n, t + m)
  {
    var s := n - m - t;
    var y := Shr(x, s);
    ShiftedRun(x, n, m, t);
    ShrShr(x, s, t);
    OrLowOnes(y, m, t);
    calc {
      Shr(Smear(x, m), s);
      { ShrOr(x, Shr(x, m), s); }
      Or(y, Shr(Shr(x, m), s));
      Pow2(m + t) - 1;
    }
  }

  lemma {:induction false} SmearFull(n: nat, s: nat)
    ensures Smear(Pow2(n) - 1, s) == Pow2(n) - 1
  {
    ShrOnes(n, s);
    var t := if s <= n then n - s else 0;
    ShrOnes(n, t);
    OrLowOnes(Pow2(n) - 1, n - t, t);
  }

  lemma {:induction false} LeadingBit(x: nat) returns (k: nat)
    requires x > 0
    ensures Shr(x, k) == 1 && Pow2(k) <= x < Pow2(k + 1)
  {
    if x == 1 {
      k := 0;
    } else {
      var k' := LeadingBit(x / 2);
      k := k' + 1;
    }
  }

  /** One step, whether or not the run of ones already fills the number. */
  lemma {:induction false} SmearStep(x: nat, n: nat, s: nat)
    requires LeadingOnes(x, n, Min(s, n))
    ensures LeadingOnes(Smear(x, s), n, Min(2 * s, n))
  {
    if s < n {
      SmearDoubles(x, n, s, Min(s, n - s));
    } else {
      SmearFull(n, s);
    }
  }

  lemma {:induction false} Pow2Mono(a: nat, b: nat)
    requires a <= b
    ensures Pow2(a) <= Pow2(b)
    decreases b
  {
    if a < b { Pow2Mono(a, b - 1); }
  }

  lemma SmearAll(x: nat, n: nat)
    requires 1 <= n <= 32 && LeadingOnes(x, n, 1)
    ensures SmearTo16(x) == Pow2(n) - 1
  {
    var a := Smear(x, 1);
    var b := Smear(a, 2);
    var c := Smear(b, 4);
    var d := Smear(c, 8);
    SmearStep(x, n, 1);
    SmearStep(a, n, 2);
    SmearStep(b, n, 4);
    SmearStep(c, n, 8);
    SmearStep(d, n, 16);
    assert Shr(SmearTo16(x), 0) == SmearTo16(x);
  }

  lemma RoundUpAbove(x: nat) returns (n: nat)
    requires 0 < x < TWO32
    ensures n > 0 && Pow2(n - 1) <= x < Pow2(n) && SmearTo16(x) == Pow2(n) - 1
  {
    var k := LeadingBit(x);
    n := k + 1;
    if k >= 32 { Pow2Mono(32, k); Pow2Of32(); }
    SmearAll(x, n);
  }

  /** The rounding yields the least power of two that is not below the size. */
  lemma RoundUpIsLeastPower(size: nat) returns (k: nat)
    requires 0 < size <= TWO32
    ensures RoundUp(size) == Pow2(k) && size <= Pow2(k) && (k == 0 || Pow2(k - 1) < size)
  {
    if size == 1 {
      k := 0;
    } else {
      k := RoundUpAbove(size - 1);
    }
  }
}
