/** The bucket hash: one function of the bytes, computed by three loops that suit different alignments. */
module Lookup3 {
  import opened Bits

  datatype State = State(a: word, b: word, c: word)

  const GOLDEN: word := 0x9e3779b9

  const MIX: seq<nat> := [4, 6, 8, 16, 19, 4]
  const FINAL: seq<nat> := [14, 11, 25, 16, 4, 14, 24]

  /** The last n lines of `mix`: each is the first one with the roles of the registers moved round. */
  function MixLines(s: State, n: nat): State
    requires n <= |MIX|
    decreases n
  {
    if n == 0 then s
    else
      var a := Xor32(Sub32(s.a, s.c), Rot32(s.c, MIX[|MIX| - n]));
      MixLines(State(s.b, Add32(s.c, s.b), a), n - 1)
  }

  /** The last n lines of `final`, on the registers in the order c, a, b. */
  function FinalLines(s: State, n: nat): State
    requires n <= |FINAL|
    decreases n
  {
    if n == 0 then s
    else FinalLines(State(s.b, s.c, Sub32(Xor32(s.a, s.c), Rot32(s.c, FINAL[|FINAL| - n]))), n - 1)
  }

  function Mix(s: State): State {
    MixLines(s, |MIX|)
  }

  function Final(s: State): word {
    FinalLines(State(s.c, s.a, s.b), |FINAL|).c
  }

  /** The i-th byte of a key, zero from its end on. */
  function At(k: seq<byte>, i: nat): byte {
    if i < |k| then k[i] else 0
  }

  /** A 32-bit little-endian word. */
  function Word(b0: byte, b1: byte, b2: byte, b3: byte): word {
    b0 + 0x100 * b1 + 0x1_0000 * b2 + 0x100_0000 * b3
  }

  function WordAt(k: seq<byte>, i: nat): word {
    Word(At(k, i), At(k, i + 1), At(k, i + 2), At(k, i + 3))
  }

  /** The twelve bytes at the front of a key, zero-padded, added to the state. */
  function Absorb(s: State, k: seq<byte>): State {
    State(Add32(s.a, WordAt(k, 0)), Add32(s.b, WordAt(k, 4)), Add32(s.c, WordAt(k, 8)))
  }

  function Start(len: nat, initval: word): State {
    var x := Add32(Add32(GOLDEN, len), initval);
    State(x, x, x)
  }

  /** How blocks are mixed in and how the last one is finished off; the three loops do not depend on it. */
  datatype Mixer = Mixer(mix: State -> State, final: State -> word)

  function Rest(m: Mixer, s: State, k: seq<byte>): word
    decreases |k|
  {
    if k == [] then s.c
    else if |k| <= 12 then (m.final)(Absorb(s, k))
    else Rest(m, (m.mix)(Absorb(s, k[..12])), k[12..])
  }

  /** The hash of a key: whole blocks mixed in, the zero-padded last one finished off. */
  function HashBy(m: Mixer, k: seq<byte>, initval: word): word {
    Rest(m, Start(|k|, initval), k)
  }

  function Hash(k: seq<byte>, initval: word): word {
    HashBy(Mixer(Mix, Final), k, initval)
  }

  // What the three loops read from memory.

  function Read32(mem: seq<byte>, p: nat): word
    requires p + 4 <= |mem|
  {
    Word(mem[p], mem[p + 1], mem[p + 2], mem[p + 3])
  }

  function Read16(mem: seq<byte>, p: nat): word
    requires p + 2 <= |mem|
  {
    mem[p] + Up1(mem[p + 1])
  }

  /** A whole block in memory, as the three words read from it. */
  lemma BlockWords(m: Mixer, s: State, mem: seq<byte>, p: nat, len: nat)
    requires 12 < len && p + len <= |mem|
    ensures Rest(m, s, mem[p..p + len]) ==
      Rest(m,
           (m.mix)(State(Add32(s.a, Read32(mem, p)), Add32(s.b, Read32(mem, p + 4)), Add32(s.c, Read32(mem, p + 8)))),
           mem[p + 12..p + len])
  {
    var k := mem[p..p + len];
    assert k[12..] == mem[p + 12..p + len];
    assert forall i :: 0 <= i < 12 ==> At(k[..12], i) == mem[p + i];
    assert Absorb(s, k[..12]) ==
      State(Add32(s.a, Read32(mem, p)), Add32(s.b, Read32(mem, p + 4)), Add32(s.c, Read32(mem, p + 8)));
  }

  /** The n bytes at p, zero-padded to a word. */
  function Part(mem: seq<byte>, p: nat, n: nat): word
    requires p + n <= |mem|
  {
    WordAt(mem[p..p + n], 0)
  }

  /** The last block as its up to three partial words. */
  lemma LastWords(s: State, mem: seq<byte>, p: nat, len: nat)
    requires 0 < len <= 12 && p + len <= |mem|
    ensures Absorb(s, mem[p..p + len]) == State(
      Add32(s.a, Part(mem, p, Min(len, 4))),
      if len > 4 then Add32(s.b, Part(mem, p + 4, Min(len - 4, 4))) else s.b,
      if len > 8 then Add32(s.c, Part(mem, p + 8, len - 8)) else s.c)
  {
    PartOf(s.a, mem, p, len, 0);
    PartOf(s.b, mem, p, len, 4);
    PartOf(s.c, mem, p, len, 8);
  }

  lemma PartOf(x: word, mem: seq<byte>, p: nat, len: nat, i: nat)
    requires p + len <= |mem|
    ensures Add32(x, WordAt(mem[p..p + len], i)) == if len > i then Add32(x, Part(mem, p + i, Min(len - i, 4))) else x
  {
    var k := mem[p..p + len];
    if len > i {
      var k' := mem[p + i..p + i + Min(len - i, 4)];
      assert forall j :: 0 <= j < 4 ==> At(k, i + j) == At(k', j);
    }
  }

  /** A byte moved up by one, two or three byte positions. */
  function Up1(b: nat): nat { 0x100 * b }

  function Up2(b: nat): nat { 0x1_0000 * b }

  function Up3(b: nat): nat { 0x100_0000 * b }

  lemma PartBytes(mem: seq<byte>, p: nat, n: nat)
    requires 0 < n <= 4 && p + n <= |mem|
    ensures Part(mem, p, n) == mem[p] + (if n > 1 then Up1(mem[p + 1]) else 0)
      + (if n > 2 then Up2(mem[p + 2]) else 0) + (if n > 3 then Up3(mem[p + 3]) else 0)
  {
    var k := mem[p..p + n];
    assert forall i :: 0 <= i < n ==> At(k, i) == mem[p + i];
  }

  lemma LowBytes(w: word, n: nat)
    requires 0 < n < 4
    ensures And(w, if n == 3 then 0xffffff else if n == 2 then 0xffff else 0xff) ==
      w % (if n == 3 then 0x100_0000 else if n == 2 then 0x1_0000 else 0x100)
  {
    assert Pow2(8) == 0x100;
    assert Pow2(16) == 0x1_0000;
    assert Pow2(24) == 0x100_0000;
    AndMod(w, 8 * n);
  }

  lemma PartMasked(mem: seq<byte>, p: nat, n: nat)
    requires 0 < n < 4 && p + 4 <= |mem|
    ensures Part(mem, p, n) == And(Read32(mem, p), if n == 3 then 0xffffff else if n == 2 then 0xffff else 0xff)
  {
    LowBytes(Read32(mem, p), n);
    PartBytes(mem, p, n);
    LowPart(mem[p], mem[p + 1], mem[p + 2], mem[p + 3]);
  }

  lemma Low8(low: nat, high: nat)
    requires low < 0x100
    ensures (low + 0x100 * high) % 0x100 == low
  {
  }

  lemma Low16(low: nat, high: nat)
    requires low < 0x1_0000
    ensures (low + 0x1_0000 * high) % 0x1_0000 == low
  {
  }

  lemma Low24(low: nat, high: nat)
    requires low < 0x100_0000
    ensures (low + 0x100_0000 * high) % 0x100_0000 == low
  {
  }

  lemma LowPart(b0: byte, b1: byte, b2: byte, b3: byte)
    ensures Word(b0, b1, b2, b3) % 0x100 == b0
    ensures Word(b0, b1, b2, b3) % 0x1_0000 == b0 + Up1(b1)
    ensures Word(b0, b1, b2, b3) % 0x100_0000 == b0 + Up1(b1) + Up2(b2)
  {
    Low8(b0, b1 + 0x100 * b2 + 0x1_0000 * b3);
    Low16(b0 + 0x100 * b1, b2 + 0x100 * b3);
    Low24(b0 + 0x100 * b1 + 0x1_0000 * b2, b3);
  }

  /** The given number of words at p holds the len bytes there and can be read. */
  predicate WordsFit(mem: seq<byte>, p: nat, len: nat, words: nat) {
    len <= 4 * words && p + 4 * words <= |mem|
  }

  /** A partial word read whole and masked; what lies behind the key in memory does not matter. */
  method AddPart32(mem: seq<byte>, p: nat, n: nat, x: word) returns (y: word)
    requires 0 < n <= 4 && p + 4 <= |mem|
    ensures y == Add32(x, Part(mem, p, n))
  {
    if n == 4 {
      PartBytes(mem, p, n);
      return Add32(x, Read32(mem, p));
    }
    PartMasked(mem, p, n);
    y := Add32(x, And(Read32(mem, p), if n == 3 then 0xffffff else if n == 2 then 0xffff else 0xff));
  }

  /** A partial word as a half word and a byte, the byte first. */
  method AddPart16(mem: seq<byte>, p: nat, n: nat, x: word) returns (y: word)
    requires 0 < n <= 4 && p + n <= |mem|
    ensures y == Add32(x, Part(mem, p, n))
  {
    PartBytes(mem, p, n);
    if n == 4 {
      y := Add32(x, Read16(mem, p) + Up2(Read16(mem, p + 2)));
    } else if n == 1 {
      y := Add32(x, mem[p]);
    } else {
      y := x;
      if n == 3 {
        y := Add32(y, Up2(mem[p + 2]));
        AddAdd(x, Up2(mem[p + 2]), Read16(mem, p));
      }
      y := Add32(y, Read16(mem, p));
    }
  }

  /** Sums modulo 2^32 may be taken one term at a time. */
  lemma AddAdd(x: word, y: nat, z: nat)
    ensures Add32(Add32(x, y), z) == Add32(x, y + z)
  {
    WrapAdd(x + y, z);
  }

  /** A partial word byte by byte, from the last one down. */
  method AddPart8(mem: seq<byte>, p: nat, n: nat, x: word) returns (y: word)
    requires 0 < n <= 4 && p + n <= |mem|
    ensures y == Add32(x, Part(mem, p, n))
  {
    PartBytes(mem, p, n);
    y := x;
    ghost var sum := 0;
    if n >= 4 { y, sum := Add32(y, Up3(mem[p + 3])), Up3(mem[p + 3]); }
    if n >= 3 { AddAdd(x, sum, Up2(mem[p + 2])); y, sum := Add32(y, Up2(mem[p + 2])), sum + Up2(mem[p + 2]); }
    if n >= 2 { AddAdd(x, sum, Up1(mem[p + 1])); y, sum := Add32(y, Up1(mem[p + 1])), sum + Up1(mem[p + 1]); }
    AddAdd(x, sum, mem[p]);
    y := Add32(y, mem[p]);
  }

  /** A word of a whole block byte by byte, from the first one up. */
  method AddBytes(mem: seq<byte>, p: nat, x: word) returns (y: word)
    requires p + 4 <= |mem|
    ensures y == Add32(x, Read32(mem, p))
  {
    y := Add32(x, mem[p]);
    AddAdd(x, mem[p], Up1(mem[p + 1]));
    y := Add32(y, Up1(mem[p + 1]));
    AddAdd(x, mem[p] + Up1(mem[p + 1]), Up2(mem[p + 2]));
    y := Add32(y, Up2(mem[p + 2]));
    AddAdd(x, mem[p] + Up1(mem[p + 1]) + Up2(mem[p + 2]), Up3(mem[p + 3]));
    y := Add32(y, Up3(mem[p + 3]));
  }

  method Block32(m: Mixer, mem: seq<byte>, p: nat, len: nat, s: State) returns (t: State)
    requires 12 < len && p + len <= |mem|
    ensures Rest(m, t, mem[p + 12..p + len]) == Rest(m, s, mem[p..p + len])
  {
    BlockWords(m, s, mem, p, len);
    var a := Add32(s.a, Read32(mem, p));
    var b := Add32(s.b, Read32(mem, p + 4));
    var c := Add32(s.c, Read32(mem, p + 8));
    t := (m.mix)(State(a, b, c));
  }

  method Last32(mem: seq<byte>, p: nat, len: nat, s: State, ghost words: nat) returns (t: State)
    requires 0 < len <= 12 && p + len <= |mem| && WordsFit(mem, p, len, words)
    ensures t == Absorb(s, mem[p..p + len])
  {
    var a, b, c := s.a, s.b, s.c;
    if len > 8 { c := AddPart32(mem, p + 8, len - 8, c); }
    if len > 4 { b := AddPart32(mem, p + 4, Min(len - 4, 4), b); }
    a := AddPart32(mem, p, Min(len, 4), a);
    LastWords(s, mem, p, len);
    t := State(a, b, c);
  }

  method Tail32(m: Mixer, mem: seq<byte>, p: nat, len: nat, s: State, ghost words: nat) returns (h: word)
    requires len <= 12 && p + len <= |mem| && WordsFit(mem, p, len, words)
    ensures h == Rest(m, s, mem[p..p + len])
  {
    if len == 0 {
      return s.c;
    }
    var t := Last32(mem, p, len, s, words);
    return (m.final)(t);
  }

  /** The 32-bit path. The memory goes on to a word boundary. */
  method Hash32(m: Mixer, mem: seq<byte>, at: nat, length: nat, initval: word, ghost words: nat) returns (h: word)
    requires at + length <= |mem| && WordsFit(mem, at, length, words)
    ensures h == HashBy(m, mem[at..at + length], initval)
  {
    hide Rest, Start;
    var p, len, s := at, length, Start(length, initval);
    ghost var left := words;
    while len > 12
      invariant p + len == at + length && WordsFit(mem, p, len, left)
      invariant Rest(m, s, mem[p..p + len]) == HashBy(m, mem[at..at + length], initval)
    {
      s := Block32(m, mem, p, len, s);
      left := left - 3;
      len, p := len - 12, p + 12;
    }
    h := Tail32(m, mem, p, len, s, left);
  }

  method Block16(m: Mixer, mem: seq<byte>, p: nat, len: nat, s: State) returns (t: State)
    requires 12 < len && p + len <= |mem|
    ensures Rest(m, t, mem[p + 12..p + len]) == Rest(m, s, mem[p..p + len])
  {
    BlockWords(m, s, mem, p, len);
    PartBytes(mem, p, 4);
    PartBytes(mem, p + 4, 4);
    PartBytes(mem, p + 8, 4);
    var a := AddPart16(mem, p, 4, s.a);
    var b := AddPart16(mem, p + 4, 4, s.b);
    var c := AddPart16(mem, p + 8, 4, s.c);
    t := (m.mix)(State(a, b, c));
  }

  method Last16(mem: seq<byte>, p: nat, len: nat, s: State) returns (t: State)
    requires 0 < len <= 12 && p + len <= |mem|
    ensures t == Absorb(s, mem[p..p + len])
  {
    var a, b, c := s.a, s.b, s.c;
    if len > 8 { c := AddPart16(mem, p + 8, len - 8, c); }
    if len > 4 { b := AddPart16(mem, p + 4, Min(len - 4, 4), b); }
    a := AddPart16(mem, p, Min(len, 4), a);
    LastWords(s, mem, p, len);
    t := State(a, b, c);
  }

  method Tail16(m: Mixer, mem: seq<byte>, p: nat, len: nat, s: State) returns (h: word)
    requires len <= 12 && p + len <= |mem|
    ensures h == Rest(m, s, mem[p..p + len])
  {
    if len == 0 {
      return s.c;
    }
    var t := Last16(mem, p, len, s);
    return (m.final)(t);
  }

  /** The 16-bit path. */
  method Hash16(m: Mixer, mem: seq<byte>, at: nat, length: nat, initval: word) returns (h: word)
    requires at + length <= |mem|
    ensures h == HashBy(m, mem[at..at + length], initval)
  {
    hide Rest, Start;
    var p, len, s := at, length, Start(length, initval);
    while len > 12
      invariant p + len == at + length
      invariant Rest(m, s, mem[p..p + len]) == HashBy(m, mem[at..at + length], initval)
    {
      s := Block16(m, mem, p, len, s);
      len, p := len - 12, p + 12;
    }
    h := Tail16(m, mem, p, len, s);
  }

  method Block8(m: Mixer, mem: seq<byte>, p: nat, len: nat, s: State) returns (t: State)
    requires 12 < len && p + len <= |mem|
    ensures Rest(m, t, mem[p + 12..p + len]) == Rest(m, s, mem[p..p + len])
  {
    BlockWords(m, s, mem, p, len);
    var a := AddBytes(mem, p, s.a);
    var b := AddBytes(mem, p + 4, s.b);
    var c := AddBytes(mem, p + 8, s.c);
    t := (m.mix)(State(a, b, c));
  }

  method Last8(mem: seq<byte>, p: nat, len: nat, s: State) returns (t: State)
    requires 0 < len <= 12 && p + len <= |mem|
    ensures t == Absorb(s, mem[p..p + len])
  {
    var a, b, c := s.a, s.b, s.c;
    if len > 8 { c := AddPart8(mem, p + 8, len - 8, c); }
    if len > 4 { b := AddPart8(mem, p + 4, Min(len - 4, 4), b); }
    a := AddPart8(mem, p, Min(len, 4), a);
    LastWords(s, mem, p, len);
    t := State(a, b, c);
  }

  method Tail8(m: Mixer, mem: seq<byte>, p: nat, len: nat, s: State) returns (h: word)
    requires len <= 12 && p + len <= |mem|
    ensures h == Rest(m, s, mem[p..p + len])
  {
    if len == 0 {
      return s.c;
    }
    var t := Last8(mem, p, len, s);
    return (m.final)(t);
  }

  /** The byte path. */
  method Hash8(m: Mixer, mem: seq<byte>, at: nat, length: nat, initval: word) returns (h: word)
    requires at + length <= |mem|
    ensures h == HashBy(m, mem[at..at + length], initval)
  {
    hide Rest, Start;
    var p, len, s := at, length, Start(length, initval);
    while len > 12
      invariant p + len == at + length
      invariant Rest(m, s, mem[p..p + len]) == HashBy(m, mem[at..at + length], initval)
    {
      s := Block8(m, mem, p, len, s);
      len, p := len - 12, p + 12;
    }
    h := Tail8(m, mem, p, len, s);
  }

  /** `_hash`: the path is chosen by the address of the key, the result is not. */
  method HashAnywhere(mem: seq<byte>, at: nat, length: nat, initval: word) returns (h: word)
    requires at + length <= |mem| && |mem| % 4 == 0
    ensures h == Hash(mem[at..at + length], initval)
  {
    if at % 4 == 0 {
      h := Hash32(Mixer(Mix, Final), mem, at, length, initval, (length + 3) / 4);
    } else if at % 2 == 0 {
      h := Hash16(Mixer(Mix, Final), mem, at, length, initval);
    } else {
      h := Hash8(Mixer(Mix, Final), mem, at, length, initval);
    }
  }
}
