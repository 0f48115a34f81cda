/**
 * The compression of one block: sixteen words used as a ring, eighty rounds that rotate the roles of five variables.
 */
module Sha1Round {
  import opened Bits
  import opened Sha1Standard

  // The logical functions in the form the source computes them.

  function F1(x: word, y: word, z: word): word {
    Xor32(z, And(x, Xor32(y, z)))
  }

  function F2(x: word, y: word, z: word): word {
    Xor32(Xor32(x, y), z)
  }

  function F3(x: word, y: word, z: word): word {
    Or32(And(x, y), And(z, Or32(x, y)))
  }

  lemma ZeroForms()
    ensures Xor(0, 0) == 0 && And(0, 0) == 0 && Or(0, 0) == 0 && Pow2(0) == 1
  {
  }

  lemma {:induction false} ChForm(x: nat, y: nat, z: nat, k: nat)
    requires x < Pow2(k) && y < Pow2(k) && z < Pow2(k)
    ensures Xor(z, And(x, Xor(y, z))) == Xor(And(x, y), And(Pow2(k) - 1 - x, z))
    decreases k
  {
    hide And, Xor;
    if k == 0 {
      ZeroForms();
    } else {
      ChForm(x / 2, y / 2, z / 2, k - 1);
      XorHalf(y, z);
      AndHalf(x, Xor(y, z));
      XorHalf(z, And(x, Xor(y, z)));
      AndHalf(x, y);
      NotHalf(x, k);
      AndHalf(Pow2(k) - 1 - x, z);
      XorHalf(And(x, y), And(Pow2(k) - 1 - x, z));
    }
  }

  lemma {:induction false} MajForm(x: nat, y: nat, z: nat, k: nat)
    requires x < Pow2(k) && y < Pow2(k) && z < Pow2(k)
    ensures Or(And(x, y), And(z, Or(x, y))) == Xor(Xor(And(x, y), And(x, z)), And(y, z))
    decreases k
  {
    hide And, Xor, Or;
    if k == 0 {
      ZeroForms();
    } else {
      MajForm(x / 2, y / 2, z / 2, k - 1);
      OrHalf(x, y);
      AndHalf(x, y);
      AndHalf(z, Or(x, y));
      OrHalf(And(x, y), And(z, Or(x, y)));
      AndHalf(x, z);
      AndHalf(y, z);
      XorHalf(And(x, y), And(x, z));
      XorHalf(Xor(And(x, y), And(x, z)), And(y, z));
    }
  }

  /** The forms of the source are the functions of the standard. */
  lemma FormsAreStandard(x: word, y: word, z: word)
    ensures F1(x, y, z) == Ch(x, y, z) && F2(x, y, z) == Parity(x, y, z) && F3(x, y, z) == Maj(x, y, z)
  {
    hide And, Xor, Or;
    Pow2Of32();
    ChForm(x, y, z, 32);
    MajForm(x, y, z, 32);
  }

  lemma {:induction false} XorComm(x: nat, y: nat)
    ensures Xor(x, y) == Xor(y, x)
    decreases x
  {
    if x != 0 && y != 0 { XorComm(x / 2, y / 2); }
  }

  lemma {:induction false} XorAssoc(x: nat, y: nat, z: nat)
    ensures Xor(Xor(x, y), z) == Xor(x, Xor(y, z))
    decreases x + y + z
  {
    if x != 0 && y != 0 && z != 0 {
      XorAssoc(x / 2, y / 2, z / 2);
      XorHalf(x, y);
      XorHalf(y, z);
      XorHalf(Xor(x, y), z);
      XorHalf(x, Xor(y, z));
    }
  }

  // The schedule in a ring of sixteen words.

  /** The latest index below t that shares slot j of the ring. */
  function Latest(t: nat, j: nat): nat
    requires j < 16 <= t
  {
    j + 16 * ((t - 1 - j) / 16)
  }

  lemma LatestBack(t: nat, d: nat)
    requires 1 <= d <= 16 <= t
    ensures Latest(t, (t - d) % 16) == t - d
  {
  }

  lemma LatestNext(t: nat, j: nat)
    requires j < 16 <= t
    ensures Latest(t + 1, j) == if j == t % 16 then t else Latest(t, j)
  {
    var q, r := (t - 1 - j) / 16, (t - 1 - j) % 16;
    assert t == j + 16 * q + r + 1;
    if r == 15 {
      assert t == j + 16 * (q + 1);
    } else {
      assert (t - j) / 16 == q;
    }
  }

  /** The ring holds the sixteen latest words of the schedule; before round 16, the block. */
  ghost predicate Ring(x: array<word>, v: nat -> word, t: nat)
    reads x
  {
    x.Length == 16 && t >= 16 && forall j :: 0 <= j < 16 ==> x[j] == v(Latest(t, j))
  }

  lemma RingBack(x: array<word>, v: nat -> word, t: nat, d: nat)
    requires Ring(x, v, t) && 1 <= d <= 16
    ensures x[(t - d) % 16] == v(t - d)
  {
    LatestBack(t, d);
  }

  /** The order of the four words does not matter. */
  lemma XorOrder(p: word, q: word, r: word, s: word)
    ensures Xor32(Xor32(Xor32(p, q), r), s) == Xor32(Xor32(Xor32(s, r), q), p)
  {
    XorComm(Xor(Xor(p, q), r), s);
    XorComm(Xor(p, q), r);
    XorComm(p, q);
    XorAssoc(s, r, Xor(q, p));
    XorAssoc(Xor(s, r), q, p);
  }

  /** One step of the schedule, in the order of the source. */
  ghost predicate Follows(v: nat -> word, t: nat) {
    t >= 16 ==> v(t) == Rot32(Xor32(Xor32(Xor32(v(t - 16), v(t - 14)), v(t - 8)), v(t - 3)), 1)
  }

  lemma ScheduleFollows(m: seq<word>, t: nat)
    requires |m| == 16
    ensures Follows(Schedule(m), t)
  {
    if t >= 16 {
      XorOrder(W(m, t - 16), W(m, t - 14), W(m, t - 8), W(m, t - 3));
    }
  }

  method StoreWord(x: array<word>, t: nat, w: word, ghost v: nat -> word)
    requires Ring(x, v, t) && w == v(t)
    modifies x
    ensures Ring(x, v, t + 1)
  {
    x[t % 16] := w;
    forall j | 0 <= j < 16 ensures x[j] == v(Latest(t + 1, j)) {
      LatestNext(t, j);
    }
  }

  /** `x[(i - d) & 0xf]`; sixteen rounds back is slot `i & 0xf` itself. */
  method WordBack(x: array<word>, t: nat, d: nat, ghost v: nat -> word) returns (w: word)
    requires Ring(x, v, t) && 1 <= d <= 16
    ensures w == v(t - d) == x[(t - d) % 16]
  {
    RingBack(x, v, t, d);
    w := x[(t - d) % 16];
  }

  /** The macro `M`: the word sixteen rounds back makes room for the new one. */
  method NextWord(x: array<word>, t: nat, ghost v: nat -> word) returns (w: word)
    requires Ring(x, v, t) && Follows(v, t)
    modifies x
    ensures Ring(x, v, t + 1) && w == v(t)
    ensures w ==
      old(Rot32(Xor32(Xor32(Xor32(x[(t - 16) % 16], x[(t - 14) % 16]), x[(t - 8) % 16]), x[(t - 3) % 16]), 1))
  {
    hide Rot32, Xor32, Latest;
    var p := WordBack(x, t, 16, v);
    var q := WordBack(x, t, 14, v);
    var r := WordBack(x, t, 8, v);
    var s := WordBack(x, t, 3, v);
    w := Rot32(Xor32(Xor32(Xor32(p, q), r), s), 1);
    StoreWord(x, t, w, v);
  }

  lemma SumOrder(p: word, f: word, e: word, k: word, w: word)
    ensures Wrap(e + (Add32(p, f) + k + w)) == Wrap(p + f + e + k + w)
  {
    WrapAdd(p + f, e + k + w);
  }

  const K1: word := 0x5a827999
  const K2: word := 0x6ed9eba1
  const K3: word := 0x8f1bbcdc
  const K4: word := 0xca62c1d6

  /** The macro `R`: only the fifth and the second variable change, and the roles move round instead of the values. */
  method R(a: word, b: word, c: word, d: word, e: word, f: (word, word, word) -> word, k: word, m: word)
    returns (e': word, b': word)
    ensures e' == (Rot32(a, 5) + f(b, c, d) + e + k + m) % 0x1_0000_0000 && b' == Rot32(b, 30)
  {
    SumOrder(Rot32(a, 5), f(b, c, d), e, k, m);
    WrapIsMod(Rot32(a, 5) + f(b, c, d) + e + k + m);
    e' := Wrap(e + (Add32(Rot32(a, 5), f(b, c, d)) + k + m));
    b' := Rot32(b, 30);
  }

  /** With the function and the constant of its time the macro is a round of the standard. */
  lemma IsRound(h: Five, t: nat, w: word, f: word, e: word)
    requires f == Logic(t, h.b, h.c, h.d) && e == (Rot32(h.a, 5) + f + h.e + K(t) + w) % 0x1_0000_0000
    ensures Round(h, t, w) == Five(e, h.a, Rot32(h.b, 30), h.c, h.d)
  {
    WrapIsMod(Rot32(h.a, 5) + f + h.e + K(t) + w);
  }

  /** The function and the constant that the source passes in round t. */
  method RoundAt(t: nat, a: word, b: word, c: word, d: word, e: word, w: word) returns (e': word, b': word)
    ensures Five(e', a, b', c, d) == Round(Five(a, b, c, d, e), t, w)
  {
    hide Rot32, Ch, Parity, Maj, F1, F2, F3, Round;
    FormsAreStandard(b, c, d);
    if t < 20 {
      e', b' := R(a, b, c, d, e, F1, K1, w);
    } else if t < 40 {
      e', b' := R(a, b, c, d, e, F2, K2, w);
    } else if t < 60 {
      e', b' := R(a, b, c, d, e, F3, K3, w);
    } else {
      e', b' := R(a, b, c, d, e, F2, K4, w);
    }
    IsRound(Five(a, b, c, d, e), t, w, Logic(t, b, c, d), e');
  }

  /** The ring before round t. */
  ghost predicate Ready(x: array<word>, v: nat -> word, t: nat)
    reads x
  {
    Ring(x, v, if t < 16 then 16 else t)
  }

  /** The last argument of `R`: a word of the block, or the next word of the schedule. */
  method TakeWord(x: array<word>, t: nat, ghost v: nat -> word) returns (w: word)
    requires Ready(x, v, t) && Follows(v, t)
    modifies x
    ensures Ready(x, v, t + 1) && w == v(t)
  {
    if t < 16 {
      RingBack(x, v, 16, 16 - t);
      w := x[t];
    } else {
      w := NextWord(x, t, v);
    }
  }

  /** One round, on the variables in the roles they have in it. */
  method OneRound(t: nat, a: word, b: word, c: word, d: word, e: word, x: array<word>, ghost v: nat -> word,
                  ghost h: Five)
    returns (e': word, b': word)
    requires Ready(x, v, t) && Follows(v, t) && Five(a, b, c, d, e) == Rounds(v, h, t)
    modifies x
    ensures Ready(x, v, t + 1) && Five(e', a, b', c, d) == Rounds(v, h, t + 1)
  {
    var w := TakeWord(x, t, v);
    e', b' := RoundAt(t, a, b, c, d, e, w);
  }

  /** Five rounds bring every variable back to its role. */
  method FiveRounds(t: nat, a0: word, b0: word, c0: word, d0: word, e0: word, x: array<word>, ghost v: nat -> word,
                    ghost h: Five)
    returns (a: word, b: word, c: word, d: word, e: word)
    requires Ready(x, v, t) && Five(a0, b0, c0, d0, e0) == Rounds(v, h, t)
    requires forall s: nat :: Follows(v, s)
    modifies x
    ensures Ready(x, v, t + 5) && Five(a, b, c, d, e) == Rounds(v, h, t + 5)
  {
    hide Rounds, Ready, Follows;
    a, b, c, d, e := a0, b0, c0, d0, e0;
    e, b := OneRound(t, a, b, c, d, e, x, v, h);
    d, a := OneRound(t + 1, e, a, b, c, d, x, v, h);
    c, e := OneRound(t + 2, d, e, a, b, c, x, v, h);
    b, d := OneRound(t + 3, c, d, e, a, b, x, v, h);
    a, c := OneRound(t + 4, b, c, d, e, a, x, v, h);
  }
}
