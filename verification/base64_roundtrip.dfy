/** Decoding an encoding gives the input back, padded with zeros to whole groups, whatever the line size. */
module Base64RoundTrip {
  import opened Bits
  import opened Base64
  import opened Base64Decode

  /** The bytes of the first k groups, zeros behind the end of the input. */
  function Bytes(x: seq<byte>, k: nat): (b: seq<byte>)
    ensures |b| == 3 * k
    ensures forall i :: 0 <= i < 3 * k ==> b[i] == ByteAt(x, i)
  {
    if k == 0 then [] else Bytes(x, k - 1) + Three(x, k - 1)
  }

  function Three(x: seq<byte>, k: nat): seq<byte> {
    [ByteAt(x, 3 * k), ByteAt(x, 3 * k + 1), ByteAt(x, 3 * k + 2)]
  }

  /** A text in which the given piece stands at index i. */
  ghost predicate At(s: seq<byte>, i: nat, piece: seq<byte>) {
    i + |piece| <= |s| && s[i..i + |piece|] == piece
  }

  lemma AtSplit(s: seq<byte>, i: nat, x: seq<byte>, y: seq<byte>)
    requires At(s, i, x + y)
    ensures At(s, i, x) && At(s, i + |x|, y)
  {
    var w := s[i..i + |x + y|];
    assert s[i..i + |x|] == w[..|x|] == x;
    assert s[i + |x|..i + |x| + |y|] == w[|x|..] == y;
  }

  lemma CharAt(s: seq<byte>, i: nat, piece: seq<byte>, t: nat)
    requires At(s, i, piece) && t < |piece|
    ensures s[i + t] == piece[t]
  {
    assert s[i..i + |piece|][t] == s[i + t];
  }

  lemma LinesParts(x: seq<byte>, k: nat, linesize: nat, s: seq<byte>)
    requires At(s, 0, Lines(x, k + 1, linesize))
    ensures var i := |Lines(x, k, linesize)|;
      At(s, 0, Lines(x, k, linesize)) && At(s, i, Group(x, k)) && At(s, i + 4, Break(k + 1, linesize)) &&
      |Lines(x, k + 1, linesize)| == i + 4 + |Break(k + 1, linesize)|
  {
    var lines, g, b := Lines(x, k, linesize), Group(x, k), Break(k + 1, linesize);
    AtSplit(s, 0, lines + g, b);
    AtSplit(s, 0, lines, g);
  }

  lemma {:induction false} LinesExtend(x: seq<byte>, k: nat, m: nat, linesize: nat, s: seq<byte>)
    requires k <= m && At(s, 0, Lines(x, m, linesize))
    ensures At(s, 0, Lines(x, k, linesize)) && |Lines(x, k, linesize)| <= |Lines(x, m, linesize)|
    decreases m - k
  {
    hide At, Lines, Break, Group;
    if k < m {
      LinesExtend(x, k + 1, m, linesize, s);
      LinesParts(x, k, linesize, s);
    }
  }

  lemma GroupAt(x: seq<byte>, k: nat, m: nat, linesize: nat, s: seq<byte>)
    requires k < m && At(s, 0, Lines(x, m, linesize))
    ensures var i := |Lines(x, k, linesize)|;
      At(s, i, Group(x, k)) && At(s, i + 4, Break(k + 1, linesize)) &&
      |Lines(x, k + 1, linesize)| == i + 4 + |Break(k + 1, linesize)| <= |Lines(x, m, linesize)|
  {
    LinesExtend(x, k + 1, m, linesize, s);
    LinesParts(x, k, linesize, s);
  }

  lemma TripleBack(s: seq<byte>, i: nat, x: seq<byte>, k: nat)
    requires At(s, i, Group(x, k))
    ensures Triple(s, i) == Three(x, k) && D64(s[i]) != -1
  {
    var a, b, c := ByteAt(x, 3 * k), ByteAt(x, 3 * k + 1), ByteAt(x, 3 * k + 2);
    var g := Group(x, k);
    CharAt(s, i, g, 0);
    CharAt(s, i, g, 1);
    CharAt(s, i, g, 2);
    CharAt(s, i, g, 3);
    SextetOfChar(a / 4);
    SextetOfChar(a % 4 * 16 + b / 16);
    SextetOfChar(b % 16 * 4 + c / 64);
    SextetOfChar(c % 64);
    BytesBack(a, b, c);
  }

  /** A character that is no digit is dropped, wherever it stands. */
  lemma SkipOne(s: seq<byte>, i: nat, p: nat)
    requires i < p < |s| && D64(s[i]) == -1
    ensures Unpack(s, i, p) == Unpack(s, i + 1, p)
  {
  }

  lemma UnpackFour(s: seq<byte>, i: nat, p: nat)
    requires i + 4 < p < |s| && D64(s[i]) != -1
    ensures Unpack(s, i, p) == Triple(s, i) + Unpack(s, i + 4, p)
  {
    hide D64, Triple;
  }

  lemma SkipBreak(s: seq<byte>, i: nat, p: nat, k: nat, linesize: nat)
    requires At(s, i, Break(k, linesize)) && i + |Break(k, linesize)| < p < |s|
    ensures Unpack(s, i, p) == Unpack(s, i + |Break(k, linesize)|, p)
  {
    NotSextets();
    var b := Break(k, linesize);
    if b != [] {
      CharAt(s, i, b, 0);
      CharAt(s, i, b, 1);
      SkipOne(s, i, p);
      SkipOne(s, i + 1, p);
    }
  }

  /** The main loop and the skipping after it consume one group and its break. */
  lemma {:induction false} GroupConsumed(x: seq<byte>, k: nat, m: nat, linesize: nat, s: seq<byte>, p: nat)
    requires k < m && At(s, 0, Lines(x, m, linesize)) && |Lines(x, m, linesize)| < p < |s|
    ensures |Lines(x, k, linesize)| <= p && |Lines(x, k + 1, linesize)| <= p
    ensures Unpack(s, |Lines(x, k, linesize)|, p) == Three(x, k) + Unpack(s, |Lines(x, k + 1, linesize)|, p)
  {
    hide *;
    var i := |Lines(x, k, linesize)|;
    GroupAt(x, k, m, linesize, s);
    TripleBack(s, i, x, k);
    UnpackFour(s, i, p);
    SkipBreak(s, i + 4, p, k + 1, linesize);
  }

  /** What is decoded from index i on, as a function of i alone. */
  ghost predicate Decodes(u: nat -> seq<byte>, s: seq<byte>, p: nat)
    requires p < |s|
  {
    forall i: nat :: i <= p ==> u(i) == Unpack(s, i, p)
  }

  /** One group is peeled off in front of group k. */
  ghost predicate Peels(u: nat -> seq<byte>, x: seq<byte>, k: nat, linesize: nat) {
    u(|Lines(x, k, linesize)|) == Three(x, k) + u(|Lines(x, k + 1, linesize)|)
  }

  lemma GroupPeeled(u: nat -> seq<byte>, x: seq<byte>, k: nat, m: nat, linesize: nat, s: seq<byte>, p: nat)
    requires k < m && At(s, 0, Lines(x, m, linesize)) && |Lines(x, m, linesize)| < p < |s| && Decodes(u, s, p)
    ensures Peels(u, x, k, linesize)
  {
    GroupConsumed(x, k, m, linesize, s, p);
  }

  lemma {:induction false} AllPeeled(u: nat -> seq<byte>, x: seq<byte>, k: nat, linesize: nat)
    requires forall t: nat :: t < k ==> Peels(u, x, t, linesize)
    ensures u(0) == Bytes(x, k) + u(|Lines(x, k, linesize)|)
  {
    if k != 0 {
      AllPeeled(u, x, k - 1, linesize);
      assert Peels(u, x, k - 1, linesize);
    }
  }

  lemma GroupsConsumed(u: nat -> seq<byte>, x: seq<byte>, m: nat, linesize: nat, s: seq<byte>, p: nat)
    requires At(s, 0, Lines(x, m, linesize)) && |Lines(x, m, linesize)| < p < |s| && Decodes(u, s, p)
    ensures u(0) == Bytes(x, m) + u(|Lines(x, m, linesize)|)
  {
    forall k: nat | k < m ensures Peels(u, x, k, linesize) {
      GroupPeeled(u, x, k, m, linesize, s, p);
    }
    AllPeeled(u, x, m, linesize);
  }

  /** The number of bytes in the last group. */
  function LastBytes(x: seq<byte>): nat
    requires x != []
  {
    |x| - 3 * (Groups(|x|) - 1)
  }

  /** The digits of the last group. */
  lemma LastDigits(s: seq<byte>, i: nat, x: seq<byte>)
    requires x != [] && At(s, i, LastGroup(x))
    ensures i + 3 < |s|
    ensures var k := Groups(|x|) - 1;
      var a, b, c := ByteAt(x, 3 * k), ByteAt(x, 3 * k + 1), ByteAt(x, 3 * k + 2);
      D64(s[i]) == a / 4 && D64(s[i + 1]) == a % 4 * 16 + b / 16 &&
      (LastBytes(x) > 1 ==> D64(s[i + 2]) == b % 16 * 4 + c / 64) &&
      (LastBytes(x) > 2 ==> D64(s[i + 3]) == c % 64)
  {
    var k := Groups(|x|) - 1;
    var a, b, c := ByteAt(x, 3 * k), ByteAt(x, 3 * k + 1), ByteAt(x, 3 * k + 2);
    var g := LastGroup(x);
    CharAt(s, i, g, 0);
    CharAt(s, i, g, 1);
    CharAt(s, i, g, 2);
    CharAt(s, i, g, 3);
    SextetOfChar(a / 4);
    SextetOfChar(a % 4 * 16 + b / 16);
    SextetOfChar(b % 16 * 4 + c / 64);
    SextetOfChar(c % 64);
  }

  /** The last group is consumed by the code behind the loop; its missing bytes are zeros. */
  lemma RestBack(s: seq<byte>, i: nat, x: seq<byte>)
    requires x != [] && At(s, i, LastGroup(x))
    ensures i + LastBytes(x) < |s| && D64(s[i]) != -1 && D64(s[i + LastBytes(x)]) != -1
    ensures Rest(s, i, i + LastBytes(x)) == Three(x, Groups(|x|) - 1)
  {
    hide At, LastGroup, D64;
    var k := Groups(|x|) - 1;
    LastDigits(s, i, x);
    BytesBack(ByteAt(x, 3 * k), ByteAt(x, 3 * k + 1), ByteAt(x, 3 * k + 2));
  }

  lemma LastConsumed(s: seq<byte>, i: nat, x: seq<byte>)
    requires x != [] && At(s, i, LastGroup(x))
    ensures i + LastBytes(x) < |s| && D64(s[i + LastBytes(x)]) != -1
    ensures Unpack(s, i, i + LastBytes(x)) == Three(x, Groups(|x|) - 1)
  {
    RestBack(s, i, x);
    UnpackEnd(s, i, i + LastBytes(x));
  }

  /** Behind the last digit stand only padding, a break and NULs. */
  ghost predicate Noise(s: seq<byte>, p: nat) {
    forall t :: p < t < |s| ==> D64(s[t]) == -1
  }

  lemma {:induction false} TrimTo(s: seq<byte>, q: nat, p: nat)
    requires p <= q < |s| && Noise(s, p) && D64(s[p]) != -1
    ensures Trim(s, q) == p
  {
    if p < q { TrimTo(s, q - 1, p); }
  }

  lemma EndIsNoise(s: seq<byte>, x: seq<byte>, linesize: nat)
    requires x != [] && IsEncoding(s, x, linesize)
    ensures At(s, 0, Lines(x, Groups(|x|) - 1, linesize))
    ensures At(s, |Lines(x, Groups(|x|) - 1, linesize)|, LastGroup(x))
    ensures Noise(s, |Lines(x, Groups(|x|) - 1, linesize)| + LastBytes(x))
  {
    var lines, g, e := Lines(x, Groups(|x|) - 1, linesize), LastGroup(x), Ending(linesize);
    AtSplit(s, 0, lines + g, e);
    AtSplit(s, 0, lines, g);
    forall t | |lines| + LastBytes(x) < t < |s| ensures D64(s[t]) == -1 {
      if t < |lines| + 4 {
        PaddingIsNoise(s, |lines|, x, t - |lines|);
      } else if t < |lines| + 4 + |e| {
        EndingIsNoise(s, |lines| + 4, linesize, t - |lines| - 4);
      } else {
        NotSextets();
      }
    }
  }

  lemma PaddingIsNoise(s: seq<byte>, i: nat, x: seq<byte>, t: nat)
    requires x != [] && At(s, i, LastGroup(x)) && LastBytes(x) < t < 4
    ensures D64(s[i + t]) == -1
  {
    CharAt(s, i, LastGroup(x), t);
    NotSextets();
  }

  lemma EndingIsNoise(s: seq<byte>, i: nat, linesize: nat, t: nat)
    requires At(s, i, Ending(linesize)) && t < |Ending(linesize)|
    ensures D64(s[i + t]) == -1
  {
    CharAt(s, i, Ending(linesize), t);
    NotSextets();
  }

  /** Where the decoder stops: at the last digit of the last group. */
  lemma EncodingTrimmed(s: seq<byte>, x: seq<byte>, linesize: nat, i: nat)
    requires x != [] && IsEncoding(s, x, linesize) && i == |Lines(x, Groups(|x|) - 1, linesize)|
    ensures i + LastBytes(x) < |s| && Trim(s, |s| - 1) == i + LastBytes(x)
  {
    hide Lines, D64, Trim;
    EndIsNoise(s, x, linesize);
    LastConsumed(s, i, x);
    TrimTo(s, |s| - 1, i + LastBytes(x));
  }

  lemma EncodingUnpacked(u: nat -> seq<byte>, s: seq<byte>, x: seq<byte>, linesize: nat, i: nat, p: nat)
    requires x != [] && IsEncoding(s, x, linesize) && i == |Lines(x, Groups(|x|) - 1, linesize)|
    requires p == i + LastBytes(x) < |s| && Decodes(u, s, p)
    ensures u(0) == Bytes(x, Groups(|x|))
  {
    hide At, Lines, LastGroup, Decodes, Unpack, Three;
    EndIsNoise(s, x, linesize);
    GroupsConsumed(u, x, Groups(|x|) - 1, linesize, s, p);
    LastPeeled(u, s, i, x);
  }

  lemma LastPeeled(u: nat -> seq<byte>, s: seq<byte>, i: nat, x: seq<byte>)
    requires x != [] && At(s, i, LastGroup(x)) && i + LastBytes(x) < |s| && Decodes(u, s, i + LastBytes(x))
    ensures u(i) == Three(x, Groups(|x|) - 1)
  {
    LastConsumed(s, i, x);
  }

  /** Decoding the encoding of a text: its bytes, then zeros up to a multiple of three. */
  lemma {:induction false} RoundTrip(s: seq<byte>, x: seq<byte>, linesize: nat)
    requires x != [] && IsEncoding(s, x, linesize)
    ensures s != [] && Unpack(s, 0, Trim(s, |s| - 1)) == Bytes(x, Groups(|x|))
  {
    var i := |Lines(x, Groups(|x|) - 1, linesize)|;
    EncodingTrimmed(s, x, linesize, i);
    var p := i + LastBytes(x);
    var u := (t: nat) => if t <= p then Unpack(s, t, p) else [];
    EncodingUnpacked(u, s, x, linesize, i, p);
    assert u(0) == Unpack(s, 0, p);
  }

  /** There and back through the two operations. */
  method ThereAndBack(x: seq<byte>, linesize: nat) returns (back: seq<byte>)
    requires x != [] && LegalLine(linesize) && Size(|x|, linesize) < 0x8000_0000
    ensures |back| == 3 * Groups(|x|) && back[..|x|] == x
    ensures forall i :: |x| <= i < |back| ==> back[i] == 0
  {
    var s := Encode(x, linesize);
    RoundTrip(s.value, x, linesize);
    var t := Decode(s.value);
    back := t.value;
  }
}
