/** Base 58 there and back, and the inputs that decoding accepts. */
module Base58RoundTrip {
  import opened Bits
  import opened Numerals
  import opened Base58
  import opened Base58Decode
  import opened Options

  lemma {:induction false} LeadCountIs(s: seq<byte>, c: byte, z: nat)
    requires z <= |s| && (forall i :: 0 <= i < z ==> s[i] == c) && (z < |s| ==> s[z] != c)
    ensures LeadCount(s, c) == z
  {
    if z > 0 { LeadCountIs(s[1..], c, z - 1); }
  }

  lemma CharOfDigit(c: byte)
    requires c < 128 && D58(c) != -1
    ensures 0 <= D58(c) < 58 && B58(D58(c)) == c
  {
  }

  /** Reading an encoding gives back its zeros and its digits. */
  lemma ReadEncoding(x: seq<byte>, ds: seq<nat>, e: seq<byte>)
    requires Encodes(x, ds, e)
    ensures Valid(e) && LeadCount(e, 49) == LeadCount(x, 0)
    ensures DigitsOf(e) == Zeros(LeadCount(x, 0)) + ds
  {
    var z := LeadCount(x, 0);
    var ones := seq(z, _ => 49);
    forall i | 0 <= i < |e| ensures D58(e[i]) == (Zeros(z) + ds)[i] {
      if i < z { assert e[i] == ones[i]; } else { DigitOfChar(ds[i - z]); assert e[i] == Chars(ds)[i - z]; }
    }
    if ds != [] { DigitOfChar(ds[0]); assert e[z] == Chars(ds)[0]; }
    LeadCountIs(e, 49, z);
  }

  lemma SplitZeros(x: seq<byte>)
    ensures var z := LeadCount(x, 0);
      x == Zeros(z) + x[z..] && Minimal(x[z..]) && Val(256, x[z..]) == Val(256, x)
  {
    var z := LeadCount(x, 0);
    assert x == Zeros(z) + x[z..];
    ValLeadingZeros(256, Zeros(z), x[z..]);
  }

  /** Decoding what encoding produced gives the original bytes. */
  lemma DecodeOfEncode(x: seq<byte>, ds: seq<nat>, e: seq<byte>, t: seq<byte>, y: seq<byte>)
    requires Encodes(x, ds, e) && Accepts(e) && Decodes(e, t, y)
    ensures y == x
  {
    var z := LeadCount(x, 0);
    ReadEncoding(x, ds, e);
    ValLeadingZeros(58, Zeros(z), ds);
    SplitZeros(x);
    MinimalUnique(256, t, x[z..]);
  }

  lemma CharsOfDigits(s: seq<byte>)
    requires Valid(s) && forall i :: 0 <= i < |s| ==> s[i] < 128
    ensures Chars(DigitsOf(s)) == s
  {
    forall i | 0 <= i < |s| ensures B58(DigitsOf(s)[i]) == s[i] {
      CharOfDigit(s[i]);
    }
  }

  lemma OnesAreZeros(s: seq<byte>)
    requires Valid(s)
    ensures var z, d := LeadCount(s, 49), DigitsOf(s); forall i :: 0 <= i < z ==> d[i] == 0
  {
  }

  lemma NextIsNot(s: seq<byte>)
    requires Valid(s) && forall i :: 0 <= i < |s| ==> s[i] < 128
    ensures Minimal(DigitsOf(s)[LeadCount(s, 49)..])
  {
    var z, d := LeadCount(s, 49), DigitsOf(s);
    if z < |s| {
      OnlyOneIsZero(s[z]);
      assert d[z..][0] == d[z];
    }
  }

  lemma OnlyOneIsZero(c: byte)
    requires c < 128
    ensures D58(c) == 0 <==> c == 49
  {
  }

  /** An ASCII string over the alphabet is its ones and the characters of a shortest numeral. */
  lemma SplitOnes(s: seq<byte>)
    requires Valid(s) && forall i :: 0 <= i < |s| ==> s[i] < 128
    ensures var z, d := LeadCount(s, 49), DigitsOf(s);
      Minimal(d[z..]) && Val(58, d[z..]) == Val(58, d) && s == seq(z, _ => 49) + Chars(d[z..])
  {
    var z, d := LeadCount(s, 49), DigitsOf(s);
    CharsOfDigits(s);
    NextIsNot(s);
    OnesAreZeros(s);
    ValSkipZeros(58, d, z);
    CharsFrom(s, d, z);
  }

  lemma CharsFrom(s: seq<byte>, d: seq<nat>, z: nat)
    requires Digits(58, d) && Chars(d) == s && z <= |s| && forall i :: 0 <= i < z ==> s[i] == 49
    ensures s == seq(z, _ => 49) + Chars(d[z..])
  {
  }

  lemma ZerosThen(z: nat, t: seq<byte>, y: seq<byte>)
    requires y == seq(z, _ => 0) + t && Minimal(t)
    ensures LeadCount(y, 0) == z && Val(256, y) == Val(256, t)
  {
    LeadCountIs(y, 0, z);
    ValLeadingZeros(256, seq(z, _ => 0), t);
  }

  /** Encoding what decoding produced gives the original characters, if they are ASCII. */
  lemma EncodeOfDecode(s: seq<byte>, t: seq<byte>, y: seq<byte>, ds: seq<nat>, e: seq<byte>)
    requires Accepts(s) && Decodes(s, t, y) && Encodes(y, ds, e)
    requires forall i :: 0 <= i < |s| ==> s[i] < 128
    ensures e == s
  {
    var z := LeadCount(s, 49);
    ZerosThen(z, t, y);
    SplitOnes(s);
    MinimalUnique(58, ds, DigitsOf(s)[z..]);
  }

  /** From 13 characters on every value fits. */
  lemma {:induction false} WordsSuffice(n: nat)
    requires n >= 13
    ensures Pow(58, n) <= Pow(TWO32, Words(n))
  {
    if n <= 16 {
      PowMono(58, n, 16);
      SixteenChars();
    } else {
      WordsSuffice(n - 4);
      FourChars();
      PowAdd(58, n - 4, 4);
      MulMono(Pow(58, n - 4), Pow(TWO32, Words(n - 4)), Pow(58, 4));
      MulMono(Pow(58, 4), TWO32, Pow(TWO32, Words(n - 4)));
    }
  }

  lemma FourChars()
    ensures Pow(58, 4) == 11316496
  {
    assert Pow(58, 2) == 3364;
    assert Pow(58, 3) == 195112;
  }

  lemma SixteenChars()
    ensures Pow(58, 16) <= Pow(TWO32, 3)
  {
    FourChars();
    PowAdd(58, 4, 4);
    PowAdd(58, 8, 8);
    assert Pow(TWO32, 1) == TWO32;
    assert Pow(TWO32, 2) == TWO32 * TWO32;
    assert Pow(TWO32, 3) == TWO32 * Pow(TWO32, 2);
  }

  /** What decoding accepts: with 13 characters or more, every string over the alphabet. */
  lemma LongIsAccepted(s: seq<byte>)
    requires |s| >= 13
    ensures Accepts(s) <==> Valid(s)
  {
    if Valid(s) {
      ValBound(58, DigitsOf(s));
      WordsSuffice(|s|);
    }
  }

  /** An encoding of 13 characters or more is decoded to what was encoded; a shorter one whenever its value fits. */
  lemma EncodingIsAccepted(x: seq<byte>, ds: seq<nat>, e: seq<byte>)
    requires Encodes(x, ds, e) && e != []
    ensures Accepts(e) <==> |e| >= 13 || Val(256, x) < Pow(TWO32, Words(|e|))
  {
    ReadEncoding(x, ds, e);
    ValLeadingZeros(58, Zeros(LeadCount(x, 0)), ds);
    if |e| >= 13 { LongIsAccepted(e); }
  }

  /** Short encodings can be refused: the one-byte string 1 encodes as the character 2, which needs a word. */
  lemma ShortIsRefused()
    ensures Encodes([1], [1], [50]) && !Accepts([50])
  {
    assert LeadCount([1], 0) == 0;
    assert [1][..0] == [];
    assert Val(256, [1]) == 1 && Val(58, [1]) == 1;
    assert Chars([1]) == [50];
    assert seq(0, _ => 49) + Chars([1]) == [50];
    if Valid([50]) {
      assert DigitsOf([50]) == [1];
      assert Words(1) == 0;
    }
  }

  /** Both methods, one after the other. */
  method ThereAndBack(x: seq<byte>) returns (r: Option<seq<byte>>)
    ensures r.Some? ==> Fits(x) && r.value == x
    ensures r == None && Fits(x) ==> exists ds, e :: Encodes(x, ds, e) && !Accepts(e) && |e| < 13
  {
    var e, ds := Encode(x);
    if e == None {
      return None;
    }
    var y, t := Decode(e.value);
    if y == None {
      ReadEncoding(x, ds, e.value);
      if |e.value| >= 13 { LongIsAccepted(e.value); }
      return None;
    }
    DecodeOfEncode(x, ds, e.value, t, y.value);
    return y;
  }
}
