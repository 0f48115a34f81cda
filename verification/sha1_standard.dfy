/**
 * SHA-1 as sections 4.1.1, 4.2.1, 5.1.1, 5.2.1, 5.3.1 and 6.1.2 of FIPS 180-4 define it, on messages of whole bytes.
 */
module Sha1Standard {
  import opened Bits

  /** The working variables, and the hash value between blocks. */
  datatype Five = Five(a: word, b: word, c: word, d: word, e: word)

  function Not32(x: word): word {
    TWO32 - 1 - x
  }

  function Or32(x: word, y: word): word {
    Pow2Of32();
    OrBound(x, y, 32);
    Or(x, y)
  }

  function Ch(x: word, y: word, z: word): word {
    Xor32(And(x, y), And(Not32(x), z))
  }

  function Parity(x: word, y: word, z: word): word {
    Xor32(Xor32(x, y), z)
  }

  function Maj(x: word, y: word, z: word): word {
    Xor32(Xor32(And(x, y), And(x, z)), And(y, z))
  }

  /** The function of round t. */
  function Logic(t: nat, x: word, y: word, z: word): word {
    if t < 20 then Ch(x, y, z)
    else if t < 40 then Parity(x, y, z)
    else if t < 60 then Maj(x, y, z)
    else Parity(x, y, z)
  }

  /** The constant of round t. */
  function K(t: nat): word {
    if t < 20 then 0x5a827999
    else if t < 40 then 0x6ed9eba1
    else if t < 60 then 0x8f1bbcdc
    else 0xca62c1d6
  }

  /** The message schedule of a block of sixteen words. */
  function W(m: seq<word>, t: nat): word
    requires |m| == 16
  {
    if t < 16 then m[t]
    else Rot32(Xor32(Xor32(Xor32(W(m, t - 3), W(m, t - 8)), W(m, t - 14)), W(m, t - 16)), 1)
  }

  /** Step 3 for one t. */
  function Round(h: Five, t: nat, w: word): Five {
    var sum: nat := Rot32(h.a, 5) + Logic(t, h.b, h.c, h.d) + h.e + K(t) + w;
    Five(Wrap(sum), h.a, Rot32(h.b, 30), h.c, h.d)
  }

  function Schedule(m: seq<word>): nat -> word
    requires |m| == 16
  {
    (t: nat) => W(m, t)
  }

  /** The working variables after t rounds, for a schedule given as a function. */
  function Rounds(v: nat -> word, h: Five, t: nat): Five {
    if t == 0 then h else Round(Rounds(v, h, t - 1), t - 1, v(t - 1))
  }

  function Plus(g: Five, h: Five): Five {
    Five(Add32(g.a, h.a), Add32(g.b, h.b), Add32(g.c, h.c), Add32(g.d, h.d), Add32(g.e, h.e))
  }

  /** Four bytes as a word, the most significant one first. */
  function Word(b0: byte, b1: byte, b2: byte, b3: byte): word {
    b0 * 0x100_0000 + b1 * 0x1_0000 + b2 * 0x100 + b3
  }

  /** The first n words of a block. */
  function Words(block: seq<byte>, n: nat): (m: seq<word>)
    requires 4 * n <= |block|
    ensures |m| == n
  {
    if n == 0 then []
    else Words(block, n - 1) + [Word(block[4 * n - 4], block[4 * n - 3], block[4 * n - 2], block[4 * n - 1])]
  }

  /** How one block changes the hash value. */
  type Compressor = (Five, seq<byte>) -> Five

  /** One block: eighty rounds, five for each of its sixteen words. Nothing but 64 bytes is a block. */
  function Compress(h: Five, block: seq<byte>): Five {
    if |block| != 64 then h
    else
      var m := Words(block, |block| / 4);
      Plus(h, Rounds(Schedule(m), h, 5 * |m|))
  }

  const START := Five(0x67452301, 0xefcdab89, 0x98badcfe, 0x10325476, 0xc3d2e1f0)

  /** The hash value after the first n blocks. */
  function Chain(f: Compressor, s: seq<byte>, n: nat): Five
    requires 64 * n <= |s|
  {
    if n == 0 then START else f(Chain(f, s, n - 1), s[64 * (n - 1)..64 * n])
  }

  /** The n low bytes of a number, the most significant one first. */
  function BigEndian(v: nat, n: nat): (b: seq<byte>)
    ensures |b| == n
  {
    if n == 0 then [] else BigEndian(v / 256, n - 1) + [v % 256]
  }

  function Zeros(n: nat): (z: seq<byte>)
    ensures |z| == n
  {
    if n == 0 then [] else Zeros(n - 1) + [0]
  }

  /** The number of zero bytes that leave room for exactly the length in the last block. */
  function Gap(n: nat): (z: nat)
    ensures (n + 1 + z) % 64 == 56
  {
    if n % 64 < 56 then 55 - n % 64 else 119 - n % 64
  }

  lemma GapIsSmallest(n: nat, y: nat)
    requires y < Gap(n)
    ensures (n + 1 + y) % 64 != 56
  {
  }

  /** The padding with a given number as length: a one bit, the smallest number of zeros, and 64 bits of length. */
  function PaddedWith(msg: seq<byte>, bits: nat): (p: seq<byte>)
    ensures |p| % 64 == 0
  {
    msg + [0x80] + Zeros(Gap(|msg|)) + BigEndian(bits, 8)
  }

  function Padded(msg: seq<byte>): (p: seq<byte>)
    ensures |p| % 64 == 0
  {
    PaddedWith(msg, 8 * |msg|)
  }

  /** The hash value of a padded message. */
  function HashOf(p: seq<byte>): Five {
    Chain(Compress, p, |p| / 64)
  }

  function DigestBytes(h: Five): seq<byte> {
    BigEndian(h.a, 4) + BigEndian(h.b, 4) + BigEndian(h.c, 4) + BigEndian(h.d, 4) + BigEndian(h.e, 4)
  }

  function Sha1(msg: seq<byte>): seq<byte> {
    DigestBytes(HashOf(Padded(msg)))
  }
}
