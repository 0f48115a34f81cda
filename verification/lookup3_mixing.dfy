/** The two mixing macros of the bucket hash: line by line as the source has them, and undone. */
module Lookup3Mixing {
  import opened Bits
  import opened Lookup3

  /** `mix`, one assignment after the other. */
  lemma MixIsTheMacro(a: word, b: word, c: word)
    ensures
      var a1 := Xor32(Sub32(a, c), Rot32(c, 4));
      var c1 := Add32(c, b);
      var b1 := Xor32(Sub32(b, a1), Rot32(a1, 6));
      var a2 := Add32(a1, c1);
      var c2 := Xor32(Sub32(c1, b1), Rot32(b1, 8));
      var b2 := Add32(b1, a2);
      var a3 := Xor32(Sub32(a2, c2), Rot32(c2, 16));
      var c3 := Add32(c2, b2);
      var b3 := Xor32(Sub32(b2, a3), Rot32(a3, 19));
      var a4 := Add32(a3, c3);
      var c4 := Xor32(Sub32(c3, b3), Rot32(b3, 4));
      var b4 := Add32(b3, a4);
      Mix(State(a, b, c)) == State(a4, b4, c4)
  {
    hide Rot32, Add32, Sub32, Xor32;
  }

  /** `final`, one assignment after the other; its result is c. */
  lemma FinalIsTheMacro(a: word, b: word, c: word)
    ensures
      var c1 := Sub32(Xor32(c, b), Rot32(b, 14));
      var a1 := Sub32(Xor32(a, c1), Rot32(c1, 11));
      var b1 := Sub32(Xor32(b, a1), Rot32(a1, 25));
      var c2 := Sub32(Xor32(c1, b1), Rot32(b1, 16));
      var a2 := Sub32(Xor32(a1, c2), Rot32(c2, 4));
      var b2 := Sub32(Xor32(b1, a2), Rot32(a2, 14));
      Final(State(a, b, c)) == Sub32(Xor32(c2, b2), Rot32(b2, 24))
  {
    hide Rot32, Sub32, Xor32;
    var c1 := Sub32(Xor32(c, b), Rot32(b, 14));
    var a1 := Sub32(Xor32(a, c1), Rot32(c1, 11));
    var b1 := Sub32(Xor32(b, a1), Rot32(a1, 25));
    var c2 := Sub32(Xor32(c1, b1), Rot32(b1, 16));
    assert FinalLines(State(c, a, b), 7) == FinalLines(State(b, c1, a1), 5);
    assert FinalLines(State(b, c1, a1), 5) == FinalLines(State(a1, b1, c2), 3);
  }

  // Both can be undone, so that no difference between two states is lost.

  lemma {:induction false} XorCancels(x: nat, y: nat)
    ensures Xor(Xor(x, y), y) == x
    decreases x + y
  {
    if x != 0 && y != 0 {
      XorCancels(x / 2, y / 2);
      XorHalf(x, y);
      XorHalf(Xor(x, y), y);
    } else {
      XorZero(x);
      XorZero(y);
    }
  }

  lemma {:induction false} XorZero(x: nat)
    ensures Xor(x, 0) == x && Xor(0, x) == x && Xor(x, x) == 0
  {
    if x != 0 { XorZero(x / 2); }
  }

  lemma SumCancels(x: word, y: word)
    ensures Sub32(Add32(x, y), y) == x && Add32(Sub32(x, y), y) == x
  {
    WrapIsMod(x + y);
    WrapIsMod(Add32(x, y) + (TWO32 - y));
    WrapIsMod(x + (TWO32 - y));
    WrapIsMod(Sub32(x, y) + y);
  }

  /** Undoes the last n lines of `mix`. */
  function UnmixLines(s: State, n: nat): State
    requires n <= |MIX|
  {
    if n == 0 then s
    else
      var r := UnmixLines(s, n - 1);
      var c := Sub32(r.b, r.a);
      State(Add32(Xor32(r.c, Rot32(c, MIX[|MIX| - n])), c), r.a, c)
  }

  lemma {:induction false} MixLinesUndone(s: State, n: nat)
    requires n <= |MIX|
    ensures UnmixLines(MixLines(s, n), n) == s
    decreases n
  {
    hide Rot32, Add32, Sub32, Xor32;
    if n > 0 {
      var k := Rot32(s.c, MIX[|MIX| - n]);
      MixLinesUndone(State(s.b, Add32(s.c, s.b), Xor32(Sub32(s.a, s.c), k)), n - 1);
      SumCancels(s.c, s.b);
      Xor32Cancels(Sub32(s.a, s.c), k);
      SumCancels(s.a, s.c);
    }
  }

  lemma Xor32Cancels(x: word, y: word)
    ensures Xor32(Xor32(x, y), y) == x
  {
    XorCancels(x, y);
  }

  /** Undoes the last n lines of `final`. */
  function UnfinalLines(s: State, n: nat): State
    requires n <= |FINAL|
  {
    if n == 0 then s
    else
      var r := UnfinalLines(s, n - 1);
      State(Xor32(Add32(r.c, Rot32(r.b, FINAL[|FINAL| - n])), r.b), r.a, r.b)
  }

  lemma {:induction false} FinalLinesUndone(s: State, n: nat)
    requires n <= |FINAL|
    ensures UnfinalLines(FinalLines(s, n), n) == s
    decreases n
  {
    hide Rot32, Add32, Sub32, Xor32;
    if n > 0 {
      var k := Rot32(s.c, FINAL[|FINAL| - n]);
      FinalLinesUndone(State(s.b, s.c, Sub32(Xor32(s.a, s.c), k)), n - 1);
      SumCancels(Xor32(s.a, s.c), k);
      Xor32Cancels(s.a, s.c);
    }
  }

  /** `mix` takes different states to different states. */
  lemma MixIsInjective(s: State, t: State)
    requires Mix(s) == Mix(t)
    ensures s == t
  {
    hide MixLines, UnmixLines;
    MixLinesUndone(s, |MIX|);
    MixLinesUndone(t, |MIX|);
  }

  /** So does `final`: the hash is one of the three registers that it leaves. */
  lemma FinalLosesNothing(s: State, t: State)
    requires FinalLines(s, |FINAL|) == FinalLines(t, |FINAL|)
    ensures s == t
  {
    hide FinalLines, UnfinalLines;
    FinalLinesUndone(s, |FINAL|);
    FinalLinesUndone(t, |FINAL|);
  }

  // The ends of the hash.

  /** The hash of the empty key is the golden ratio and the seed; no mixing takes place. */
  lemma EmptyKey(initval: word)
    ensures Hash([], initval) == (0x9e3779b9 + initval) % 0x1_0000_0000
  {
    WrapIsMod(GOLDEN);
    WrapIsMod(GOLDEN + initval);
  }

  /** A key of up to twelve bytes: its three words, the first byte of each the lowest, are added and finished off. */
  lemma ShortKey(k: seq<byte>, initval: word)
    requires 0 < |k| <= 12
    ensures
      var x := (0x9e3779b9 + |k| + initval) % 0x1_0000_0000;
      Hash(k, initval) == Final(State(Add32(x, WordAt(k, 0)), Add32(x, WordAt(k, 4)), Add32(x, WordAt(k, 8))))
  {
    hide Final, WordAt;
    WrapAdd(GOLDEN + |k|, initval);
    WrapIsMod(GOLDEN + |k| + initval);
  }

  /** A word in memory, the lowest byte first; behind the end of the key zeros are read. */
  lemma WordIsLittleEndian(k: seq<byte>, i: nat)
    ensures var b := (j: nat) => if i + j < |k| then k[i + j] as int else 0;
      WordAt(k, i) == b(0) + 0x100 * b(1) + 0x1_0000 * b(2) + 0x100_0000 * b(3)
  {
  }
}
