/** Numerals: the value of a sequence of digits, most significant first. */
module Numerals {

  function Pow(b: nat, e: nat): nat {
    if e == 0 then 1 else b * Pow(b, e - 1)
  }

  function Val(b: nat, ds: seq<nat>): nat {
    if ds == [] then 0 else Val(b, ds[..|ds| - 1]) * b + ds[|ds| - 1]
  }

  ghost predicate Digits(b: nat, ds: seq<nat>) {
    forall i :: 0 <= i < |ds| ==> ds[i] < b
  }

  /** No leading zero. */
  ghost predicate Minimal(ds: seq<nat>) {
    ds != [] ==> ds[0] != 0
  }

  function Zeros(n: nat): (z: seq<nat>)
    ensures |z| == n && forall i :: 0 <= i < n ==> z[i] == 0
  {
    seq(n, _ => 0)
  }

  lemma PowPositive(b: nat, e: nat)
    requires b > 0
    ensures Pow(b, e) > 0
  {
  }

  lemma {:induction false} PowAdd(b: nat, e: nat, f: nat)
    ensures Pow(b, e + f) == Pow(b, e) * Pow(b, f)
  {
    if e != 0 {
      PowAdd(b, e - 1, f);
      MulAssoc(b, Pow(b, e - 1), Pow(b, f));
    }
  }

  lemma MulAssoc(x: int, y: int, z: int)
    ensures (x * y) * z == x * (y * z)
  {
  }

  lemma MulMono(x: nat, y: nat, z: nat)
    requires x <= y
    ensures x * z <= y * z && z * x <= z * y
  {
  }

  lemma {:induction false} PowMono(b: nat, e: nat, f: nat)
    requires b > 0 && e <= f
    ensures Pow(b, e) <= Pow(b, f)
    decreases f
  {
    if e < f {
      PowMono(b, e, f - 1);
      MulMono(1, b, Pow(b, f - 1));
    }
  }

  lemma {:induction false} ValAppend(b: nat, x: seq<nat>, y: seq<nat>)
    ensures Val(b, x + y) == Val(b, x) * Pow(b, |y|) + Val(b, y)
  {
    if y == [] {
      assert x + y == x;
    } else {
      var y', d := y[..|y| - 1], y[|y| - 1];
      assert (x + y)[..|x + y| - 1] == x + y';
      ValAppend(b, x, y');
      AppendStep(b, Val(b, x), Pow(b, |y'|), Val(b, y'), d);
    }
  }

  lemma AppendStep(b: int, v: int, p: int, w: int, d: int)
    ensures (v * p + w) * b + d == v * (b * p) + (w * b + d)
  {
  }

  lemma ValCons(b: nat, d: nat, y: seq<nat>)
    ensures Val(b, [d] + y) == d * Pow(b, |y|) + Val(b, y)
  {
    ValAppend(b, [d], y);
    assert Val(b, [d]) == d;
  }

  lemma ValSnoc(b: nat, x: seq<nat>, d: nat)
    ensures Val(b, x + [d]) == Val(b, x) * b + d
  {
    assert (x + [d])[..|x|] == x;
  }

  lemma {:induction false} ValZeros(b: nat, ds: seq<nat>)
    requires forall i :: 0 <= i < |ds| ==> ds[i] == 0
    ensures Val(b, ds) == 0
  {
    if ds != [] { ValZeros(b, ds[..|ds| - 1]); }
  }

  /** Leading zeros do not change the value. */
  lemma ValLeadingZeros(b: nat, z: seq<nat>, ds: seq<nat>)
    requires forall i :: 0 <= i < |z| ==> z[i] == 0
    ensures Val(b, z + ds) == Val(b, ds)
  {
    ValAppend(b, z, ds);
    ValZeros(b, z);
  }

  lemma {:induction false} ValBound(b: nat, ds: seq<nat>)
    requires b > 0 && Digits(b, ds)
    ensures Val(b, ds) < Pow(b, |ds|)
  {
    if ds != [] {
      var x, d := ds[..|ds| - 1], ds[|ds| - 1];
      ValBound(b, x);
      BoundStep(b, Val(b, x), Pow(b, |x|), d);
    }
  }

  lemma BoundStep(b: nat, v: nat, p: nat, d: nat)
    requires v < p && d < b
    ensures v * b + d < b * p
  {
    MulMono(v + 1, p, b);
    assert (v + 1) * b == v * b + b;
  }

  /** A numeral without leading zero is at least the power of its length less one. */
  lemma {:induction false} ValAtLeast(b: nat, ds: seq<nat>)
    requires b > 0 && ds != [] && ds[0] != 0
    ensures Val(b, ds) >= Pow(b, |ds| - 1)
  {
    assert ds == [ds[0]] + ds[1..];
    ValCons(b, ds[0], ds[1..]);
    MulMono(1, ds[0], Pow(b, |ds| - 1));
  }

  lemma ValSkipZeros(b: nat, ds: seq<nat>, z: nat)
    requires z <= |ds| && forall i :: 0 <= i < z ==> ds[i] == 0
    ensures Val(b, ds[z..]) == Val(b, ds)
  {
    assert ds == ds[..z] + ds[z..];
    ValLeadingZeros(b, ds[..z], ds[z..]);
  }

  /** A numeral is below the power of its length without leading zeros. */
  lemma UpperBound(b: nat, ds: seq<nat>, z: nat)
    requires b > 0 && Digits(b, ds) && z <= |ds| && forall i :: 0 <= i < z ==> ds[i] == 0
    ensures Val(b, ds) < Pow(b, |ds| - z)
  {
    assert ds == ds[..z] + ds[z..];
    ValLeadingZeros(b, ds[..z], ds[z..]);
    ValBound(b, ds[z..]);
  }

  /** And at least that power with one factor less. */
  lemma LowerBound(b: nat, ds: seq<nat>, z: nat)
    requires b > 0 && z < |ds| && (forall i :: 0 <= i < z ==> ds[i] == 0) && ds[z] != 0
    ensures Val(b, ds) >= Pow(b, |ds| - z - 1)
  {
    assert ds == ds[..z] + ds[z..];
    ValLeadingZeros(b, ds[..z], ds[z..]);
    ValAtLeast(b, ds[z..]);
  }

  lemma {:induction false} PowBaseMono(a: nat, b: nat, e: nat)
    requires a <= b
    ensures Pow(a, e) <= Pow(b, e)
  {
    if e != 0 {
      PowBaseMono(a, b, e - 1);
      MulMono(a, b, Pow(a, e - 1));
      MulMono(Pow(a, e - 1), Pow(b, e - 1), b);
    }
  }

  /** Of two numerals with the same value, the one in the larger base and of the same length has as many
      leading zeros. */
  lemma ZerosCompare(a: nat, x: seq<nat>, z: nat, b: nat, y: seq<nat>, k: nat)
    requires 0 < a <= b && |x| <= |y| && Digits(a, x) && Val(a, x) == Val(b, y) && z <= |x| && k <= |y|
    requires forall i :: 0 <= i < z ==> x[i] == 0
    requires (forall i :: 0 <= i < k ==> y[i] == 0) && (k < |y| ==> y[k] != 0)
    ensures z <= k
  {
    UpperBound(a, x, z);
    PowBaseMono(a, b, |x| - z);
    if k < |y| { LowerBound(b, y, k); }
    if k < z { PowMono(b, |x| - z, |y| - k - 1); }
  }

  /** The last digit only decides between numbers that agree before it. */
  lemma LessStep(b: nat, v: nat, d: nat, w: nat)
    requires d < b
    ensures v < w ==> v * b + d < w * b
  {
    if v < w {
      MulMono(v + 1, w, b);
      assert (v + 1) * b == v * b + b;
    }
  }

  lemma DivModUnique(b: nat, v: nat, d: nat, w: nat, e: nat)
    requires d < b && e < b && v * b + d == w * b + e
    ensures v == w && d == e
  {
    LessStep(b, v, d, w);
    LessStep(b, w, e, v);
  }

  /** Numerals without leading zero are determined by their value. */
  lemma {:induction false} MinimalUnique(b: nat, x: seq<nat>, y: seq<nat>)
    requires b > 0 && Digits(b, x) && Digits(b, y) && Minimal(x) && Minimal(y) && Val(b, x) == Val(b, y)
    ensures x == y
    decreases |x|
  {
    if x == [] {
      if y != [] { ValAtLeast(b, y); PowPositive(b, |y| - 1); }
    } else if y == [] {
      ValAtLeast(b, x);
      PowPositive(b, |x| - 1);
    } else {
      var x', d := x[..|x| - 1], x[|x| - 1];
      var y', e := y[..|y| - 1], y[|y| - 1];
      DivModUnique(b, Val(b, x'), d, Val(b, y'), e);
      MinimalUnique(b, x', y');
      assert x == x' + [d] && y == y' + [e];
    }
  }
}
