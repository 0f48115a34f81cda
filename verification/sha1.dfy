/** The SHA-1 context: a stream of bytes absorbed in any cuts, and the digest with its 64-bit length. */
module Sha1 {
  import opened Bits
  import opened Sha1Standard
  import opened Sha1Round
  import opened Options

  /** The hash value does not depend on the bytes behind the blocks. */
  lemma {:induction false} ChainPrefix(f: Compressor, s: seq<byte>, t: seq<byte>, n: nat)
    requires 64 * n <= |s|
    ensures Chain(f, s + t, n) == Chain(f, s, n)
  {
    if n != 0 {
      ChainPrefix(f, s, t, n - 1);
      assert (s + t)[64 * (n - 1)..64 * n] == s[64 * (n - 1)..64 * n];
    }
  }

  lemma ChainStep(f: Compressor, s: seq<byte>, n: nat)
    requires 64 * n + 64 <= |s|
    ensures Chain(f, s, n + 1) == f(Chain(f, s, n), s[64 * n..64 * n + 64])
  {
    assert 64 * (n + 1) == 64 * n + 64;
  }

  lemma ChainNext(s: seq<byte>, n: nat)
    requires 64 * n + 64 <= |s|
    ensures Chain(Compress, s, n + 1) == Compress(Chain(Compress, s, n), s[64 * n..64 * n + 64])
  {
    hide Chain, Plus, Rounds, Words;
    ChainStep(Compress, s, n);
  }

  lemma {:induction false} WordsAt(block: seq<byte>, n: nat, j: nat)
    requires 4 * n <= |block| && j < n
    ensures Words(block, n)[j] == Word(block[4 * j], block[4 * j + 1], block[4 * j + 2], block[4 * j + 3])
  {
    if j < n - 1 { WordsAt(block, n - 1, j); }
  }

  /** The bytes of a block go into words, the first byte into the most significant one. */
  method LoadWords(data: seq<byte>) returns (x: array<word>)
    requires |data| == 64
    ensures fresh(x) && x.Length == 16 && x[..] == Words(data, |data| / 4)
  {
    x := new word[16];
    var i := 0;
    while i < 16
      invariant 0 <= i <= 16
      invariant forall j :: 0 <= j < i ==> x[j] == Words(data, |data| / 4)[j]
    {
      WordsAt(data, |data| / 4, i);
      x[i] := Word(data[4 * i], data[4 * i + 1], data[4 * i + 2], data[4 * i + 3]);
      i := i + 1;
    }
  }

  /** The twenty calls of `R` with one function and one constant. */
  method TwentyRounds(t: nat, a0: word, b0: word, c0: word, d0: word, e0: word, x: array<word>, ghost v: nat -> word,
                      ghost h: Five)
    returns (a: word, b: word, c: word, d: word, e: word)
    requires Ready(x, v, t) && Five(a0, b0, c0, d0, e0) == Rounds(v, h, t)
    requires forall s: nat :: Follows(v, s)
    modifies x
    ensures Ready(x, v, t + 20) && Five(a, b, c, d, e) == Rounds(v, h, t + 20)
  {
    a, b, c, d, e := FiveRounds(t, a0, b0, c0, d0, e0, x, v, h);
    a, b, c, d, e := FiveRounds(t + 5, a, b, c, d, e, x, v, h);
    a, b, c, d, e := FiveRounds(t + 10, a, b, c, d, e, x, v, h);
    a, b, c, d, e := FiveRounds(t + 15, a, b, c, d, e, x, v, h);
  }

  /** The eighty calls of `R`. */
  method AllRounds(t: nat, a0: word, b0: word, c0: word, d0: word, e0: word, x: array<word>, ghost v: nat -> word,
                   ghost h: Five)
    returns (a: word, b: word, c: word, d: word, e: word)
    requires Ready(x, v, t) && Five(a0, b0, c0, d0, e0) == Rounds(v, h, t)
    requires forall s: nat :: Follows(v, s)
    modifies x
    ensures Five(a, b, c, d, e) == Rounds(v, h, t + 80)
  {
    a, b, c, d, e := TwentyRounds(t, a0, b0, c0, d0, e0, x, v, h);
    a, b, c, d, e := TwentyRounds(t + 20, a, b, c, d, e, x, v, h);
    a, b, c, d, e := TwentyRounds(t + 40, a, b, c, d, e, x, v, h);
    a, b, c, d, e := TwentyRounds(t + 60, a, b, c, d, e, x, v, h);
  }

  /** The ring before the first round is the block itself. */
  lemma RingAtStart(x: array<word>, m: seq<word>)
    requires x.Length == 16 && x[..] == m && |m| == 16
    ensures Ready(x, Schedule(m), 0)
  {
    forall j | 0 <= j < 16 ensures x[j] == Schedule(m)(Latest(16, j)) {
      assert Latest(16, j) == j;
    }
  }

  lemma AllFollow(m: seq<word>)
    requires |m| == 16
    ensures forall s: nat :: Follows(Schedule(m), s)
  {
    forall s: nat ensures Follows(Schedule(m), s) {
      ScheduleFollows(m, s);
    }
  }

  lemma Compressed(h: Five, data: seq<byte>, m: seq<word>, g: Five)
    requires |data| == 64 && m == Words(data, |data| / 4) && g == Rounds(Schedule(m), h, 5 * |m|)
    ensures Plus(h, g) == Compress(h, data)
  {
  }

  /** The rounds on a block whose words are in the ring. */
  method BlockRounds(data: seq<byte>, a0: word, b0: word, c0: word, d0: word, e0: word, x: array<word>)
    returns (a: word, b: word, c: word, d: word, e: word)
    requires |data| == 64 && x.Length == 16 && x[..] == Words(data, |data| / 4)
    modifies x
    ensures Plus(Five(a0, b0, c0, d0, e0), Five(a, b, c, d, e)) == Compress(Five(a0, b0, c0, d0, e0), data)
  {
    ghost var m, h := x[..], Five(a0, b0, c0, d0, e0);
    AllFollow(m);
    RingAtStart(x, m);
    a, b, c, d, e := AllRounds(0, a0, b0, c0, d0, e0, x, Schedule(m), h);
    Compressed(h, data, m, Five(a, b, c, d, e));
  }

  /** The bit count that the two words of the length field get: `nblocks` keeps only 32 bits. */
  function Counted(n: nat): nat {
    8 * (64 * Wrap(n / 64) + n % 64)
  }

  /** The length field is right exactly for messages of less than 2^38 bytes. */
  lemma CountExact(n: nat)
    ensures Counted(n) == 8 * n <==> n < 64 * TWO32
  {
    if n < 64 * TWO32 {
      assert n / 64 < TWO32;
    } else {
      assert n / 64 >= TWO32;
    }
  }

  lemma TimesSplit(t: nat, q: nat, r: nat, p: nat, u: nat)
    requires t == u * q + r && r < u
    ensures t * p == (p * u) * q + r * p && r * p + p <= p * u
  {
    assert (r + 1) * p <= u * p;
  }

  /** A product by a power of two over two words. */
  lemma MulSplit(t: word, k: nat, l: nat)
    requires k + l == 32
    ensures Shr(t, l) < Pow2(k)
    ensures Shr(t, l) * TWO32 + Wrap(Shl(t, k)) == t * Pow2(k)
    ensures Wrap(Shl(t, k)) + Pow2(k) <= TWO32
  {
    ShlIsTimes(t, k);
    ShrIsDiv(t, l);
    Pow2Sum(k, l);
    Pow2Of32();
    Parts(t, Pow2(l));
    Halves(t, Pow2(k), Pow2(l), Shr(t, l), t % Pow2(l));
  }

  lemma Parts(t: nat, u: nat)
    requires u > 0
    ensures t == u * (t / u) + t % u
  {
  }

  lemma Halves(t: word, p: nat, u: nat, q: nat, r: nat)
    requires p * u == TWO32 && t == u * q + r && r < u
    ensures q < p && TWO32 * q + Wrap(t * p) == t * p && Wrap(t * p) + p <= TWO32
  {
    TimesSplit(t, q, r, p, u);
    Kept(q, r * p);
    Below(q, u, p);
  }

  lemma Below(q: nat, u: nat, p: nat)
    ensures u * q < p * u ==> q < p
  {
    if q >= p { assert u * q >= u * p; }
  }

  lemma Kept(q: nat, r: word)
    ensures Wrap(TWO32 * q + r) == r
  {
    WrapIsMod(TWO32 * q + r);
    ModUnique(TWO32 * q + r, TWO32, q, r);
  }

  /** The length of whole blocks in bytes, and the bytes of the last one. The carry `msb ++` is never taken: the low
      six bits of the product are zero and the count is below 64. */
  method ByteLength(nblocks: word, count: nat) returns (msb: word, lsb: word)
    requires count < 64
    ensures msb < 64 && msb * TWO32 + lsb == 64 * nblocks + count
  {
    MulSplit(nblocks, 6, 26);
    assert Pow2(6) == 64;
    var t := nblocks;
    lsb := Wrap(Shl(t, 6));
    msb := Shr(t, 26);
    t := lsb;
    lsb := Add32(lsb, count);
    if lsb < t { assert false; }
  }

  /** The lines of `_sha1_final` that make the length in bits. */
  method BitLength(nblocks: word, count: nat) returns (msb: word, lsb: word)
    requires count < 64
    ensures msb * TWO32 + lsb == 8 * (64 * nblocks + count)
  {
    msb, lsb := ByteLength(nblocks, count);
    MulSplit(lsb, 3, 29);
    MulSplit(msb, 3, 29);
    assert Pow2(3) == 8;
    ShlIsTimes(msb, 3);
    OrDisjoint(msb, 3, Shr(lsb, 29));
    var t := lsb;
    lsb := Wrap(Shl(lsb, 3));
    msb := Wrap(Shl(msb, 3));
    msb := Or32(msb, Shr(t, 29));
  }

  lemma {:induction false} ZerosAt(n: nat)
    ensures forall i :: 0 <= i < n ==> Zeros(n)[i] == 0
  {
    if n != 0 { ZerosAt(n - 1); }
  }

  lemma {:induction false} ZerosSum(m: nat, n: nat)
    ensures Zeros(m) + Zeros(n) == Zeros(m + n)
  {
    if n != 0 {
      ZerosSum(m, n - 1);
      assert Zeros(m) + (Zeros(n - 1) + [0]) == Zeros(m) + Zeros(n - 1) + [0];
    }
  }

  /** The four bytes of a word by shifts. */
  lemma BigEndianWord(w: word)
    ensures BigEndian(w, 4) == [Shr(w, 24) % 256, Shr(w, 16) % 256, Shr(w, 8) % 256, w % 256]
  {
    ShrByte(w);
    ShrByte(w / 256);
    ShrByte(w / 256 / 256);
    ShrShr(w, 8, 8);
    ShrShr(w, 16, 8);
  }

  lemma ShrByte(v: nat)
    ensures Shr(v, 8) == v / 256
  {
  }

  lemma BigEndianStep(v: nat, n: nat)
    requires n > 0
    ensures BigEndian(v, n) == BigEndian(v / 256, n - 1) + [v % 256]
  {
  }

  lemma {:induction false} BigEndianSplit(hi: nat, lo: nat, n: nat, k: nat)
    requires lo < Pow2(8 * k)
    ensures BigEndian(hi * Pow2(8 * k) + lo, n + k) == BigEndian(hi, n) + BigEndian(lo, k)
  {
    hide Pow2, BigEndian;
    if k != 0 {
      var p := Pow2(8 * (k - 1));
      var v: nat := hi * p;
      PowStep(k);
      BigEndianSplit(hi, lo / 256, n, k - 1);
      LowDigit(v, lo);
      assert hi * Pow2(8 * k) == 256 * v;
      BigEndianStep(256 * v + lo, n + k);
      BigEndianStep(lo, k);
    } else {
      Nothing(lo);
      assert hi * 1 + lo == hi && BigEndian(hi, n) + [] == BigEndian(hi, n);
    }
  }

  lemma Nothing(lo: nat)
    ensures Pow2(0) == 1 && BigEndian(lo, 0) == []
  {
  }

  lemma PowStep(k: nat)
    requires k > 0
    ensures Pow2(8 * k) == 256 * Pow2(8 * (k - 1))
  {
    Pow2Sum(8 * (k - 1), 8);
    assert Pow2(8) == 256;
  }

  lemma LowDigit(v: nat, lo: nat)
    ensures (256 * v + lo) / 256 == v + lo / 256 && (256 * v + lo) % 256 == lo % 256
  {
  }

  lemma BigEndianPair(msb: word, lsb: word)
    ensures BigEndian(msb * TWO32 + lsb, 8) == BigEndian(msb, 4) + BigEndian(lsb, 4)
  {
    Pow2Of32();
    BigEndianSplit(msb, lsb, 4, 4);
  }

  lemma Joined(x: seq<byte>, y: seq<byte>, z: seq<byte>)
    ensures x + y + z == x + (y + z)
  {
  }

  lemma Cut(data: seq<byte>, i: nat, j: nat, k: nat)
    requires i <= j <= k <= |data|
    ensures data[i..j] + data[j..k] == data[i..k] && data[..|data|] == data == data[0..]
  {
  }

  class Context {
    var h0: word
    var h1: word
    var h2: word
    var h3: word
    var h4: word
    var nblocks: word
    const buf: array<byte>
    var count: nat

    /** Everything written so far, and how many blocks of it went into the hash value. */
    ghost var seen: seq<byte>
    ghost var done: nat

    function Hash(): Five
      reads this`h0, this`h1, this`h2, this`h3, this`h4
    {
      Five(h0, h1, h2, h3, h4)
    }

    /** The bytes behind the last block wait in the buffer. */
    ghost predicate Valid()
      reads this, buf
    {
      && buf.Length == 64 && count <= 64
      && |seen| == 64 * done + count
      && nblocks == Wrap(done)
      && Hash() == Chain(Compress, seen, done)
      && buf[..count] == seen[64 * done..]
    }

    lemma InBuffer()
      requires Valid()
      ensures count <= 64
      ensures count < 64 ==> Gap(|seen|) == if count < 56 then 55 - count else 119 - count
    {
      hide Compress, Chain;
    }

    /** `_sha1_init`. */
    constructor ()
      ensures Valid() && seen == [] && count == 0 && fresh(buf)
    {
      h0, h1, h2, h3, h4 := 0x67452301, 0xefcdab89, 0x98badcfe, 0x10325476, 0xc3d2e1f0;
      nblocks, count := 0, 0;
      buf := new byte[64];
      seen, done := [], 0;
    }

    /** `_sha1_transform`. */
    method Transform(data: seq<byte>)
      requires |data| == 64
      modifies this`h0, this`h1, this`h2, this`h3, this`h4
      ensures Hash() == Compress(old(Hash()), data)
    {
      ghost var h := Hash();
      var x := LoadWords(data);
      var a, b, c, d, e := BlockRounds(data, h0, h1, h2, h3, h4, x);
      h0, h1, h2, h3, h4 := Add32(h0, a), Add32(h1, b), Add32(h2, c), Add32(h3, d), Add32(h4, e);
      assert Hash() == Plus(h, Five(a, b, c, d, e));
    }

    /** `_sha1_write` without input: a full buffer becomes a block. */
    method Flush()
      requires Valid()
      modifies this
      ensures Valid() && count < 64 && seen == old(seen) && (old(count) == 64 ==> count == 0)
    {
      hide Compress;
      if count == 64 {
        WrapAdd(done, 1);
        ChainNext(seen, done);
        assert buf[..] == seen[64 * done..64 * done + 64];
        Transform(buf[..]);
        count := 0;
        nblocks := Add32(nblocks, 1);
        done := done + 1;
      }
    }

    /** `hd->buf[hd->count ++] = b`. */
    method Put(b: byte)
      requires Valid() && count < 64
      modifies this`count, this`seen, buf
      ensures Valid() && seen == old(seen) + [b] && count == old(count) + 1
    {
      hide Compress;
      buf[count] := b;
      ChainPrefix(Compress, seen, [b], done);
      seen := seen + [b];
      count := count + 1;
    }

    /** The byte loops of `_sha1_write`: they stop at the end of the input or when the buffer is full. */
    method Fill(data: seq<byte>, from: nat) returns (i: nat)
      requires Valid() && from <= |data|
      modifies this`count, this`seen, buf
      ensures Valid() && from <= i <= |data| && seen == old(seen) + data[from..i]
      ensures count <= 64 && (i == |data| || count == 64)
      ensures count == old(count) + (i - from)
    {
      hide *;
      InBuffer();
      i := from;
      while i < |data| && count < 64
        invariant Valid() && count <= 64 && from <= i <= |data|
        invariant seen == old(seen) + data[from..i] && count == old(count) + (i - from)
      {
        Put(data[i]);
        assert data[from..i] + [data[i]] == data[from..i + 1];
        i := i + 1;
      }
    }

    /** A block straight from the input, when the buffer is empty. */
    method Block(data: seq<byte>)
      requires Valid() && count == 0 && |data| == 64
      modifies this
      ensures Valid() && count == 0 && seen == old(seen) + data
    {
      hide Compress;
      WrapAdd(done, 1);
      ChainPrefix(Compress, seen, data, done);
      ChainNext(seen + data, done);
      assert data == (seen + data)[64 * done..64 * done + 64];
      Transform(data);
      nblocks := Add32(nblocks, 1);
      seen := seen + data;
      done := done + 1;
    }

    method Blocks(data: seq<byte>, from: nat) returns (i: nat)
      requires Valid() && count == 0 && from <= |data|
      modifies this
      ensures Valid() && count == 0 && from <= i <= |data| < i + 64
      ensures seen == old(seen) + data[from..i]
    {
      hide *;
      i := from;
      while |data| - i >= 64
        invariant Valid() && count == 0 && from <= i <= |data|
        invariant seen == old(seen) + data[from..i]
      {
        Block(data[i..i + 64]);
        assert data[from..i] + data[i..i + 64] == data[from..i + 64];
        i := i + 64;
      }
    }

    /** The part of `_sha1_write` behind the filling of the buffer. */
    method WriteAligned(data: seq<byte>, from: nat)
      requires Valid() && count == 0 && from <= |data|
      modifies this, buf
      ensures Valid() && count < 64 && seen == old(seen) + data[from..]
    {
      hide *;
      var i := Blocks(data, from);
      var j := Fill(data, i);
      Cut(data, from, i, j);
    }

    /** `_sha1_write`: what matters afterwards is only which bytes were written, not how they were cut. */
    method Write(data: seq<byte>)
      requires Valid()
      modifies this, buf
      ensures Valid() && count < 64 && seen == old(seen) + data
    {
      hide *;
      Flush();
      var i := 0;
      if count != 0 {
        i := Fill(data, 0);
        Flush();
        if i == |data| { return; }
      }
      Cut(data, 0, i, |data|);
      WriteAligned(data, i);
    }

    method PutZeros(upto: nat)
      requires Valid() && count <= upto <= 64
      modifies this`count, this`seen, buf
      ensures Valid() && count == upto && seen == old(seen) + Zeros(upto - old(count))
    {
      hide Compress;
      while count < upto
        invariant Valid() && old(count) <= count <= upto
        invariant seen == old(seen) + Zeros(count - old(count))
      {
        Put(0);
      }
    }

    /** Everything but the length is in front of the last eight bytes of the buffer. */
    ghost predicate LengthNext()
      reads this, buf
    {
      && buf.Length == 64 && |seen| == 64 * done + 56
      && Hash() == Chain(Compress, seen, done) && buf[..56] == seen[64 * done..]
    }

    lemma AtLength()
      requires Valid() && count == 56
      ensures LengthNext()
    {
      hide Compress, Chain;
    }

    /** The `memset` behind an extra block. */
    method Clear()
      requires Valid() && count == 0
      modifies this`seen, buf
      ensures LengthNext() && seen == old(seen) + Zeros(56)
    {
      hide Compress;
      ghost var n: nat := 56;
      forall i | 0 <= i < 56 { buf[i] := 0; }
      ChainPrefix(Compress, seen, Zeros(n), done);
      ZerosAt(n);
      seen := seen + Zeros(n);
    }

    /** No room for the length: the rest of the buffer and an extra block are filled with zeros. */
    method PadExtra()
      requires Valid()
      modifies this, buf
      ensures LengthNext() && seen == old(seen) + Zeros(64 - old(count) + 56)
    {
      hide Compress, Zeros;
      ghost var n := 64 - count;
      PutZeros(64);
      Flush();
      Clear();
      ZerosSum(n, 56);
      Joined(old(seen), Zeros(n), Zeros(56));
    }

    method Pad()
      requires Valid() && count < 64
      modifies this, buf
      ensures LengthNext() && seen == old(seen) + [0x80] + Zeros(Gap(|old(seen)|))
    {
      hide *;
      InBuffer();
      var n := count;
      Put(0x80);
      if n < 56 {
        PutZeros(56);
        AtLength();
      } else {
        PadExtra();
      }
    }

    /** The eight bytes of the length, the most significant one first. */
    method StoreLength(msb: word, lsb: word)
      requires buf.Length == 64
      modifies buf
      ensures buf[..] == old(buf[..56]) + BigEndian(msb * TWO32 + lsb, 8)
    {
      BigEndianWord(msb);
      BigEndianWord(lsb);
      BigEndianPair(msb, lsb);
      buf[56], buf[57] := Shr(msb, 24) % 256, Shr(msb, 16) % 256;
      buf[58], buf[59] := Shr(msb, 8) % 256, msb % 256;
      buf[60], buf[61] := Shr(lsb, 24) % 256, Shr(lsb, 16) % 256;
      buf[62], buf[63] := Shr(lsb, 8) % 256, lsb % 256;
    }

    /** A word into the buffer, the most significant byte first (the macro `X`). */
    method StoreWordAt(at: nat, w: word)
      requires buf.Length == 64 && at + 4 <= 64
      modifies buf
      ensures buf[..at + 4] == old(buf[..at]) + BigEndian(w, 4)
    {
      BigEndianWord(w);
      buf[at], buf[at + 1] := Shr(w, 24) % 256, Shr(w, 16) % 256;
      buf[at + 2], buf[at + 3] := Shr(w, 8) % 256, w % 256;
    }

    method StoreDigest()
      requires buf.Length == 64
      modifies buf
      ensures buf[..20] == DigestBytes(Hash())
    {
      hide BigEndian;
      StoreWordAt(0, h0);
      StoreWordAt(4, h1);
      StoreWordAt(8, h2);
      StoreWordAt(12, h3);
      StoreWordAt(16, h4);
    }

    /** The last block, with the length in it. */
    method LastBlock(msb: word, lsb: word)
      requires LengthNext()
      modifies this, buf
      ensures buf.Length == 64
      ensures Hash() == Chain(Compress, old(seen) + BigEndian(msb * TWO32 + lsb, 8), old(done) + 1)
    {
      hide Compress, BigEndian;
      ghost var tail := BigEndian(msb * TWO32 + lsb, 8);
      StoreLength(msb, lsb);
      ChainPrefix(Compress, seen, tail, done);
      ChainNext(seen + tail, done);
      assert buf[..] == (seen + tail)[64 * done..64 * done + 64];
      Transform(buf[..]);
    }

    /** `_sha1_final`: the digest of what was seen, with the length that 32 bits of `nblocks` give. */
    method Final()
      requires Valid()
      modifies this, buf
      ensures buf[..20] == DigestBytes(HashOf(PaddedWith(old(seen), Counted(|old(seen)|))))
    {
      hide Compress, BigEndian, Zeros, Counted, DigestBytes;
      Flush();
      CountedIs(|seen|, done, count);
      var msb, lsb := BitLength(nblocks, count);
      Pad();
      ghost var p := PaddedWith(old(seen), Counted(|old(seen)|));
      assert p == seen + BigEndian(msb * TWO32 + lsb, 8);
      LastBlock(msb, lsb);
      StoreDigest();
    }
  }

  lemma CountedIs(n: nat, done: nat, count: nat)
    requires n == 64 * done + count && count < 64
    ensures Counted(n) == 8 * (64 * Wrap(done) + count)
  {
  }

  /** For every message below 2^38 bytes the length is the right one, and the digest is SHA-1. */
  lemma PaddingIsStandard(msg: seq<byte>)
    requires |msg| < 64 * TWO32
    ensures DigestBytes(HashOf(PaddedWith(msg, Counted(|msg|)))) == Sha1(msg)
  {
    hide Compress, BigEndian, Zeros;
    CountExact(|msg|);
  }

  /** Two contexts that have seen the same bytes, however they were cut, are in the same state. */
  lemma CutsDoNotMatter(c: Context, d: Context)
    requires c.Valid() && d.Valid() && c.count < 64 && d.count < 64 && c.seen == d.seen
    ensures c.Hash() == d.Hash() && c.nblocks == d.nblocks && c.count == d.count
    ensures c.buf[..c.count] == d.buf[..d.count]
  {
    hide Compress;
    assert c.done == d.done;
  }

  // The sum as text.

  const HEX := "0123456789abcdef"

  /** The digits 0 to 9 and, for ten to fifteen, the small letters from a on. */
  lemma HexDigits(d: nat)
    requires d < 16
    ensures HEX[d] as int == if d < 10 then 48 + d else 97 + (d - 10)
  {
  }

  function Hex(b: seq<byte>): (h: string)
    ensures |h| == 2 * |b|
  {
    if b == [] then [] else [HEX[b[0] / 16], HEX[b[0] % 16]] + Hex(b[1..])
  }

  lemma {:induction false} HexAt(b: seq<byte>, i: nat)
    requires i < |b|
    ensures Hex(b)[2 * i] == HEX[b[i] / 16] && Hex(b)[2 * i + 1] == HEX[b[i] % 16]
  {
    if i != 0 { HexAt(b[1..], i - 1); }
  }

  lemma Nibbles(c: byte)
    ensures And(Shr(c, 4), 0xf) == c / 16 && And(c, 0xf) == c % 16
  {
    assert Pow2(4) == 16;
    ShrIsDiv(c, 4);
    AndMod(c / 16, 4);
    AndMod(c, 4);
  }

  /** The hexadecimal loop of `string_sha1s`. */
  method ToHex(b: seq<byte>) returns (h: string)
    requires |b| == 20
    ensures h == Hex(b)
    ensures |h| == 40 && forall i :: 0 <= i < 20 ==> h[2 * i] == HEX[b[i] / 16] && h[2 * i + 1] == HEX[b[i] % 16]
  {
    hide Hex, And, Shr;
    var text := new char[41](_ => '\0');
    var i := 0;
    while i < 20
      invariant 0 <= i <= 20
      invariant forall j :: 0 <= j < 2 * i ==> text[j] == Hex(b)[j]
    {
      HexAt(b, i);
      Nibbles(b[i]);
      text[2 * i] := HEX[And(Shr(b[i], 4), 0xf)];
      text[2 * i + 1] := HEX[And(b[i], 0xf)];
      i := i + 1;
    }
    h := text[..40];
    forall i | 0 <= i < 20 ensures h[2 * i] == HEX[b[i] / 16] && h[2 * i + 1] == HEX[b[i] % 16] {
      HexAt(b, i);
    }
  }

  /** `string_sha1s`: no sum for the empty string, SHA-1 for every other one of less than 2^38 bytes. */
  method Sum(data: seq<byte>) returns (res: Option<string>)
    ensures res.None? <==> data == []
    ensures data != [] ==> res == Some(Hex(DigestBytes(HashOf(PaddedWith(data, Counted(|data|))))))
    ensures data != [] && |data| < 64 * TWO32 ==> res == Some(Hex(Sha1(data)))
  {
    hide Compress, BigEndian, Zeros, Hex, Counted;
    if |data| == 0 { return None; }
    var ctx := new Context();
    ctx.Write(data);
    assert ctx.seen == data;
    ctx.Final();
    var text := ToHex(ctx.buf[..20]);
    if |data| < 64 * TWO32 { PaddingIsStandard(data); }
    res := Some(text);
  }
}
