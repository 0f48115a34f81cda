/** Decoding base 58: big-number arithmetic in 32-bit words, rewritten in place into bytes. */
module Base58Decode {
  import opened Bits
  import opened Numerals
  import opened Base58
  import opened Options

  ghost predicate Valid(s: seq<byte>) {
    forall i :: 0 <= i < |s| ==> D58(s[i]) != -1
  }

  function DigitsOf(s: seq<byte>): (ds: seq<nat>)
    requires Valid(s)
    ensures |ds| == |s| && Digits(58, ds)
  {
    seq(|s|, i requires 0 <= i < |s| => D58(s[i]))
  }

  /** The number of words a value may take: one word less than the input has groups of four characters. */
  function Words(n: nat): nat
    requires n > 0
  {
    (n + 3) / 4 - 1
  }

  /** `(b & 0x3f00000000) >> 32` loses no bit of a carry below 64, and the low word keeps the rest. */
  lemma {:induction false} MaskedCarry(b: nat)
    requires b < 64 * TWO32
    ensures Shr(And(b, 0x3f00000000), 32) == b / TWO32
    ensures And(b, 0xffffffff) == b % TWO32
  {
    ShrAnd(b, 0x3f00000000, 32);
    CarryMask();
    ShrIsDiv(b, 32);
    SixBits(b / TWO32);
    Pow2Of32();
    AndMod(b, 32);
  }

  lemma CarryMask()
    ensures Shr(0x3f00000000, 32) == 63
  {
    Pow2Of32();
    ShrIsDiv(0x3f00000000, 32);
  }

  lemma SixBits(c: nat)
    requires c < 64
    ensures And(c, 63) == c
  {
    hide And;
    PowOfSix();
    AndMod(c, 6);
  }

  lemma PowOfSix()
    ensures Pow2(6) == 64
  {
    assert Pow2(3) == 8;
  }

  lemma {:induction false} ShrAnd(x: nat, y: nat, k: nat)
    ensures Shr(And(x, y), k) == And(Shr(x, k), Shr(y, k))
    decreases k
  {
    if k != 0 {
      assert And(x, y) / 2 == And(x / 2, y / 2);
      ShrAnd(x / 2, y / 2, k - 1);
    }
  }

  /** `b = r[j] * 58 + c`, the low word stored, the high bits carried. */
  method CarryWord(r: array<word>, n: nat, ghost was: seq<nat>, j: nat, carry: nat, ghost add: nat) returns (out: nat)
    requires 0 < j < n < r.Length && |was| == n - 1 && carry < 64
    requires Carrying(TWO32, 58, r[1..n], was, j - 1, carry, add)
    modifies r
    ensures out < 64 && r[0] == old(r[0]) && r[n] == old(r[n]) && Carrying(TWO32, 58, r[1..n], was, j - 2, out, add)
  {
    hide Carrying, And, Shr, Val, Pow;
    ghost var w: seq<nat> := r[1..n];
    CarryNext(TWO32, 58, w, was, j - 1, carry, add);
    var d: nat := r[j];
    var b := d * 58 + carry;
    MaskedCarry(b);
    out := Shr(And(b, 0x3f00000000), 32);
    r[j] := And(b, 0xffffffff);
    assert r[1..n] == w[j - 1 := b % TWO32];
  }

  /** Multiplies the number in the words from 1 to n by 58 and adds a digit; what is carried out of them. */
  method MulAddWords(r: array<word>, n: nat, digit: nat) returns (c: nat)
    requires 0 < n < r.Length && digit < 58
    modifies r
    ensures r[0] == old(r[0]) && r[n] == old(r[n])
    ensures c == 0 <==> 58 * Val(TWO32, old(r[1..n])) + digit < Pow(TWO32, n - 1)
    ensures c == 0 ==> Val(TWO32, r[1..n]) == 58 * Val(TWO32, old(r[1..n])) + digit
  {
    ghost var was: seq<nat> := r[1..n];
    c := digit;
    var j := n - 1;
    CarryStart(TWO32, 58, was, digit);
    while j != 0
      invariant 0 <= j < n && c < 64 && r[0] == old(r[0]) && r[n] == old(r[n])
      invariant Carrying(TWO32, 58, r[1..n], was, j - 1, c, digit)
      decreases j
    {
      c := CarryWord(r, n, was, j, c, digit);
      j := j - 1;
    }
    CarryGone(TWO32, 58, r[1..n], was, c, digit);
    if c == 0 { CarryDone(TWO32, 58, r[1..n], was, -1, digit); }
  }

  /** The value read so far. */
  ghost function Read(s: seq<byte>, i: nat): nat
    requires i <= |s| && Valid(s[..i])
  {
    Val(58, DigitsOf(s[..i]))
  }

  lemma ReadNext(s: seq<byte>, i: nat)
    requires i < |s| && Valid(s[..i]) && D58(s[i]) != -1
    ensures Valid(s[..i + 1]) && Read(s, i + 1) == 58 * Read(s, i) + D58(s[i])
  {
    assert s[..i + 1] == s[..i] + [s[i]];
    assert DigitsOf(s[..i + 1]) == DigitsOf(s[..i]) + [D58(s[i])];
    ValSnoc(58, DigitsOf(s[..i]), D58(s[i]));
  }

  /** Reading on never lowers the value. */
  lemma {:induction false} ReadMono(s: seq<byte>, i: nat, j: nat)
    requires i <= j <= |s| && Valid(s)
    ensures Valid(s[..i]) && Valid(s[..j]) && Read(s, i) <= Read(s, j)
    decreases j
  {
    if i < j {
      ReadMono(s, i, j - 1);
      ReadNext(s, j - 1);
      MulMono(1, 58, Read(s, j - 1));
    }
  }

  lemma ReadOnes(s: seq<byte>, z: nat)
    requires z <= |s| && forall i :: 0 <= i < z ==> s[i] == 49
    ensures Valid(s[..z]) && Read(s, z) == 0
  {
    ValZeros(58, DigitsOf(s[..z]));
  }

  /** The characters are all digits and their value fits the words. */
  ghost predicate Accepts(s: seq<byte>) {
    s != [] && Valid(s) && Val(58, DigitsOf(s)) < Pow(TWO32, Words(|s|))
  }

  /** The bytes of the first word that must stay free: all but the odd ones. */
  function Mask(remain: nat): nat {
    if remain == 0 then 0 else if remain == 1 then 0xffffff00 else if remain == 2 then 0xffff0000 else 0xff000000
  }

  /**
   * The characters before i have been read, and their value fits the words from 1 to n; the first and last are zero.
   */
  ghost predicate Reading(s: seq<byte>, i: nat, words: seq<word>, n: nat) {
    && i <= |s| && Valid(s[..i]) && 0 < n < |words| && words[0] == 0 && words[n] == 0
    && Val(TWO32, words[1..n]) == Read(s, i) < Pow(TWO32, n - 1)
  }

  lemma ReadStart(s: seq<byte>, z: nat, words: seq<word>)
    requires z <= |s| && forall i :: 0 <= i < z ==> s[i] == 49
    requires |words| > 1 && forall k :: 0 <= k < |words| ==> words[k] == 0
    ensures Reading(s, z, words, |words| - 1)
  {
    ReadOnes(s, z);
    ValZeros(TWO32, words[1..|words| - 1]);
    PowPositive(TWO32, |words| - 2);
  }

  /** One more character is read; nothing is carried out exactly if the value still fits. */
  lemma ReadOne(s: seq<byte>, i: nat, words: seq<word>, words': seq<word>, n: nat, c: nat)
    requires Reading(s, i, words, n) && i < |s| && D58(s[i]) != -1
    requires |words'| == |words| && words'[0] == words[0] && words'[n] == words[n]
    requires c == 0 <==> 58 * Val(TWO32, words[1..n]) + D58(s[i]) < Pow(TWO32, n - 1)
    requires c == 0 ==> Val(TWO32, words'[1..n]) == 58 * Val(TWO32, words[1..n]) + D58(s[i])
    ensures Valid(s[..i + 1])
    ensures if c == 0 then Reading(s, i + 1, words', n) else Read(s, i + 1) >= Pow(TWO32, n - 1)
  {
    hide Val, Pow, Read, D58;
    ReadNext(s, i);
  }

  /** The first half of `string_deb58s`: the value as words, or nothing. */
  method ReadWords(s: seq<byte>) returns (r: array<word>, ok: bool)
    requires s != []
    ensures fresh(r) && r.Length == Words(|s|) + 2
    ensures ok <==> Accepts(s)
    ensures ok ==> r[0] == 0 && r[Words(|s|) + 1] == 0
    ensures ok ==> Val(TWO32, r[1..Words(|s|) + 1]) == Val(58, DigitsOf(s))
  {
    hide Val, Pow, D58, And, Read, Valid, DigitsOf, Accepts, Reading, Mask;
    var outlen := (|s| + 3) / 4;
    r := new word[outlen + 1](_ => 0);
    var zcount := CountLead(s, 49);
    var mask := Mask(|s| % 4);
    ReadStart(s, zcount, r[..]);
    var i := zcount;
    while i < |s|
      invariant i <= |s| && Reading(s, i, r[..], outlen)
    {
      var digit := D58(s[i]);
      if digit == -1 {
        NotADigit(s, i);
        return r, false;
      }
      ghost var words := r[..];
      assert r[1..outlen] == words[1..outlen];
      ReadsFirst(s, i, words, outlen);
      IsDigit(s[i]);
      var c := MulAddWords(r, outlen, digit);
      assert r[1..outlen] == r[..][1..outlen];
      ReadOne(s, i, words, r[..], outlen, c);
      AndNothing(mask);
      if c != 0 || And(r[0], mask) != 0 {
        TooLarge(s, i + 1);
        return r, false;
      }
      i := i + 1;
    }
    ReadAll(s, r[..]);
    return r, true;
  }

  lemma ReadsFirst(s: seq<byte>, i: nat, words: seq<word>, n: nat)
    requires Reading(s, i, words, n)
    ensures 0 < n < |words| && words[0] == 0 && words[n] == 0 && Valid(s[..i])
  {
  }

  lemma IsDigit(c: byte)
    requires D58(c) != -1
    ensures 0 <= D58(c) < 58
  {
  }

  lemma AndNothing(mask: nat)
    ensures And(0, mask) == 0
  {
  }

  lemma NotADigit(s: seq<byte>, i: nat)
    requires i < |s| && D58(s[i]) == -1
    ensures !Accepts(s)
  {
    hide D58, Val, Pow;
  }

  lemma ReadAll(s: seq<byte>, words: seq<word>)
    requires s != [] && |words| == Words(|s|) + 2 && Reading(s, |s|, words, Words(|s|) + 1)
    ensures Accepts(s) && words[0] == 0 && words[Words(|s|) + 1] == 0
    ensures Val(TWO32, words[1..Words(|s|) + 1]) == Val(58, DigitsOf(s))
  {
    hide Val, Pow, DigitsOf;
    assert s[..|s|] == s;
  }

  lemma TooLarge(s: seq<byte>, i: nat)
    requires s != [] && i <= |s| && Valid(s[..i]) && Read(s, i) >= Pow(TWO32, Words(|s|))
    ensures !Accepts(s)
  {
    if Valid(s) {
      ReadMono(s, i, |s|);
      assert s[..|s|] == s;
    }
  }

  // The second half: the words, in memory as little-endian bytes, become big-endian bytes at the same address.

  function ByteOf(w: word, k: nat): byte
    requires k < 4
  {
    if k == 0 then w % 0x100 else if k == 1 then w / 0x100 % 0x100
    else if k == 2 then w / 0x1_0000 % 0x100 else w / 0x100_0000
  }

  /** The word that a little-endian host reads at address 4j. */
  function Load(mem: seq<byte>, j: nat): word
    requires 4 * j + 4 <= |mem|
  {
    mem[4 * j] + Up(mem[4 * j + 1], 0x100) + Up(mem[4 * j + 2], 0x1_0000) + Up(mem[4 * j + 3], 0x100_0000)
  }

  function Up(b: nat, k: nat): nat { b * k }

  function BigEndian(w: word): (b: seq<byte>)
    ensures |b| == 4
  {
    [ByteOf(w, 3), ByteOf(w, 2), ByteOf(w, 1), ByteOf(w, 0)]
  }

  lemma BigEndianValue(x: seq<nat>, w: word)
    ensures Val(256, x + BigEndian(w)) == Val(256, x) * TWO32 + w
  {
    ValAppend(256, x, BigEndian(w));
    FourBytes(ByteOf(w, 3), ByteOf(w, 2), ByteOf(w, 1), ByteOf(w, 0));
    BytesOfWord(w);
  }

  lemma BytesOfWord(w: word)
    ensures ((ByteOf(w, 3) * 256 + ByteOf(w, 2)) * 256 + ByteOf(w, 1)) * 256 + ByteOf(w, 0) == w
  {
    var a, b := w / 0x100, w / 0x1_0000;
    assert a * 256 + ByteOf(w, 0) == w;
    assert b * 256 + ByteOf(w, 1) == a;
    assert ByteOf(w, 3) * 256 + ByteOf(w, 2) == b;
  }

  lemma FourBytes(b0: nat, b1: nat, b2: nat, b3: nat)
    ensures Val(256, [b0, b1, b2, b3]) == ((b0 * 256 + b1) * 256 + b2) * 256 + b3
    ensures Pow(256, 4) == TWO32
  {
    assert [b0, b1] == [b0] + [b1] && [b0, b1, b2] == [b0, b1] + [b2] && [b0, b1, b2, b3] == [b0, b1, b2] + [b3];
    assert Val(256, [b0]) == b0;
    ValSnoc(256, [b0], b1);
    ValSnoc(256, [b0, b1], b2);
    ValSnoc(256, [b0, b1, b2], b3);
    assert Pow(256, 1) == 256;
    assert Pow(256, 2) == 65536;
    assert Pow(256, 3) == 16777216;
  }

  /** The words of r, byte by byte as a little-endian host keeps them. */
  ghost predicate Holds(mem: seq<byte>, words: seq<word>) {
    |mem| == 4 * |words| && forall j :: 0 <= j < |words| ==> Load(mem, j) == words[j]
  }

  lemma LoadStore(w: word)
    ensures ByteOf(w, 0) + Up(ByteOf(w, 1), 0x100) + Up(ByteOf(w, 2), 0x1_0000) + Up(ByteOf(w, 3), 0x100_0000) == w
  {
  }

  lemma WordAt(mem: seq<byte>, j: nat, w: word)
    requires 4 * j + 4 <= |mem| && forall i :: 4 * j <= i < 4 * j + 4 ==> mem[i] == ByteOf(w, i % 4)
    ensures Load(mem, j) == w
  {
    hide ByteOf, Up;
    assert (4 * j) % 4 == 0 && (4 * j + 1) % 4 == 1 && (4 * j + 2) % 4 == 2 && (4 * j + 3) % 4 == 3;
    LoadStore(w);
  }

  /** The cast of the word buffer to bytes. */
  method AsBytes(r: array<word>) returns (mem: array<byte>)
    ensures fresh(mem) && Holds(mem[..], r[..])
  {
    hide ByteOf, Up, Load;
    mem := new byte[4 * r.Length](i requires 0 <= i < 4 * r.Length reads r => ByteOf(r[i / 4], i % 4));
    forall j | 0 <= j < r.Length ensures Load(mem[..], j) == r[j] {
      WordAt(mem[..], j, r[j]);
    }
  }

  /** What has been unpacked so far, and the words that have not been read yet. */
  ghost predicate Unpacked(mem: seq<byte>, words: seq<word>, i: nat, j: nat) {
    && |mem| == 4 * |words| && j <= |words| && i <= 4 * j
    && Val(256, mem[..i]) == Val(TWO32, words[..j])
    && forall k :: j <= k < |words| ==> Load(mem, k) == words[k]
  }

  /** Reads the word j and writes its four bytes at i; the words behind j are out of reach. */
  method UnpackWord(mem: array<byte>, ghost words: seq<word>, i: nat, j: nat)
    requires Unpacked(mem[..], words, i, j) && j < |words|
    modifies mem
    ensures Unpacked(mem[..], words, i + 4, j + 1)
  {
    ghost var before := mem[..];
    var c := Load(mem[..], j);
    mem[i] := ByteOf(c, 3);
    mem[i + 1] := ByteOf(c, 2);
    mem[i + 2] := ByteOf(c, 1);
    mem[i + 3] := ByteOf(c, 0);
    UnpackStep(before, mem[..], words, i, j);
  }

  lemma UnpackStep(before: seq<byte>, mem: seq<byte>, words: seq<word>, i: nat, j: nat)
    requires Unpacked(before, words, i, j) && j < |words| && |mem| == |before|
    requires var c := Load(before, j);
      mem[i] == ByteOf(c, 3) && mem[i + 1] == ByteOf(c, 2) && mem[i + 2] == ByteOf(c, 1) && mem[i + 3] == ByteOf(c, 0)
    requires forall k :: 0 <= k < |mem| && (k < i || k >= i + 4) ==> mem[k] == before[k]
    ensures Unpacked(mem, words, i + 4, j + 1)
  {
    assert words[..j + 1] == words[..j] + [words[j]];
    ValSnoc(TWO32, words[..j], words[j]);
    assert mem[..i + 4] == before[..i] + BigEndian(words[j]);
    BigEndianValue(before[..i], words[j]);
  }

  /** The switch on the odd bytes: the first word, which is zero, gives them. */
  method UnpackOdd(mem: array<byte>, ghost words: seq<word>, remain: nat) returns (i: nat, j: nat)
    requires remain < 4 && words != [] && words[0] == 0 && Holds(mem[..], words)
    modifies mem
    ensures i == remain && j == (if remain == 0 then 0 else 1) && Unpacked(mem[..], words, i, j)
  {
    var c := Load(mem[..], 0);
    i, j := 0, 0;
    if remain >= 3 { mem[i] := ByteOf(c, 2); i := i + 1; }
    if remain >= 2 { mem[i] := ByteOf(c, 1); i := i + 1; }
    if remain >= 1 { mem[i] := ByteOf(c, 0); i := i + 1; j := 1; }
    ValZeros(256, mem[..i]);
    ValZeros(TWO32, words[..j]);
  }

  /**
   * The bytes of the value, as many as there were characters. Behind the odd bytes the loop is entered in its body,
   * without its test: for one to three characters it writes the four bytes of the last word, which is zero, as the
   * value is.
   */
  method Unpack(mem: array<byte>, ghost words: seq<word>, size: nat) returns (i: nat)
    requires size > 0 && |words| == Words(size) + 2 && words[0] == 0 && words[Words(size) + 1] == 0
    requires Holds(mem[..], words)
    modifies mem
    ensures i == (if size < 4 then size + 4 else size) < mem.Length
    ensures Val(256, mem[..i]) == Val(TWO32, words[1..Words(size) + 1])
  {
    hide Val, Load, ByteOf, Unpacked, Holds;
    var outlen := (size + 3) / 4;
    var j;
    i, j := UnpackOdd(mem, words, size % 4);
    assert words[outlen] == 0;
    if j == 1 {
      UnpackWord(mem, words, i, j);
      i, j := i + 4, j + 1;
    }
    while j < outlen
      invariant Unpacked(mem[..], words, i, j)
      invariant if size < 4 then j == 2 && i == size + 4 else j <= outlen && i + 4 * (outlen - j) == size
    {
      UnpackWord(mem, words, i, j);
      i, j := i + 4, j + 1;
    }
    UnpackedAll(mem[..], words, i, j, outlen);
  }

  lemma UnpackedAll(mem: seq<byte>, words: seq<word>, i: nat, j: nat, outlen: nat)
    requires Unpacked(mem, words, i, j) && 0 < outlen < |words| && words[0] == 0 && words[outlen] == 0
    requires j == outlen || j == outlen + 1 == 2
    ensures |mem| == 4 * |words| && i <= |mem| && Val(256, mem[..i]) == Val(TWO32, words[1..outlen])
  {
    hide Load;
    if j == outlen {
      assert words[..outlen] == [words[0]] + words[1..outlen];
      ValLeadingZeros(TWO32, [words[0]], words[1..outlen]);
    } else {
      ValZeros(TWO32, words[..2]);
      ValZeros(TWO32, words[1..1]);
    }
  }

  /** What decoding is for: as many zero bytes as there are leading ones, then the shortest numeral in base 256. */
  ghost predicate Decodes(s: seq<byte>, t: seq<byte>, y: seq<byte>)
    requires Accepts(s)
  {
    Minimal(t) && Val(256, t) == Val(58, DigitsOf(s)) && y == seq(LeadCount(s, 49), _ => 0) + t
  }

  /** `string_deb58s`. */
  method Decode(s: seq<byte>) returns (r: Option<seq<byte>>, ghost t: seq<byte>)
    ensures r.Some? <==> Accepts(s)
    ensures r.Some? ==> Decodes(s, t, r.value)
  {
    t := [];
    if s == [] {
      return None, t;
    }
    var zcount := CountLead(s, 49);
    var words, ok := ReadWords(s);
    if !ok {
      return None, t;
    }
    var mem := AsBytes(words);
    var i := Unpack(mem, words[..], |s|);
    ghost var data := mem[..i];
    var remain := CountLead(mem[..i], 0);
    EnoughZeros(s, data);
    if zcount > remain {
      assert false;
      return None, t;
    }
    TrimZeros(data, remain, zcount);
    t := data[remain..];
    return Some(mem[..i][remain - zcount..]), t;
  }

  lemma TrimZeros(data: seq<byte>, k: nat, z: nat)
    requires k == LeadCount(data, 0) && z <= k
    ensures data[k - z..] == seq(z, _ => 0) + data[k..]
    ensures Minimal(data[k..]) && Val(256, data[k..]) == Val(256, data)
  {
    assert data == data[..k] + data[k..];
    ValLeadingZeros(256, data[..k], data[k..]);
  }

  /** The unpacked value has at least as many leading zero bytes as the input has leading ones. */
  lemma EnoughZeros(s: seq<byte>, data: seq<byte>)
    requires Accepts(s) && |data| >= |s| && Val(256, data) == Val(58, DigitsOf(s))
    ensures LeadCount(s, 49) <= LeadCount(data, 0)
  {
    ZerosCompare(58, DigitsOf(s), LeadCount(s, 49), 256, data, LeadCount(data, 0));
  }
}
