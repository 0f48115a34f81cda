/** Base 58 encoding and decoding of byte strings. */
module Base58 {
  import opened Bits
  import opened Numerals
  import opened Options

  /** The alphabet `_b58`: digits and letters without 0, I, O and l. */
  function B58(d: nat): byte
    requires d < 58
  {
    if d < 9 then 49 + d            // '1' .. '9'
    else if d < 17 then 65 + d - 9  // 'A' .. 'H'
    else if d < 22 then 74 + d - 17 // 'J' .. 'N'
    else if d < 33 then 80 + d - 22 // 'P' .. 'Z'
    else if d < 44 then 97 + d - 33 // 'a' .. 'k'
    else 109 + d - 44               // 'm' .. 'z'
  }

  /** The table `_d58`, looked up with the seven low bits of a character; -1 marks the others. */
  function D58(c: byte): int {
    var x := if c < 128 then c else c - 128;
    if 49 <= x <= 57 then x - 49
    else if 65 <= x <= 72 then x - 65 + 9
    else if 74 <= x <= 78 then x - 74 + 17
    else if 80 <= x <= 90 then x - 80 + 22
    else if 97 <= x <= 107 then x - 97 + 33
    else if 109 <= x <= 122 then x - 109 + 44
    else -1
  }

  lemma DigitOfChar(d: nat)
    requires d < 58
    ensures D58(B58(d)) == d && B58(d) < 128
    ensures B58(d) == 49 <==> d == 0
  {
  }

  /** The alphabet ascends, and its characters are the digits and letters other than 0, I, O and l. */
  lemma AlphabetIs(d: nat, e: nat, c: byte)
    requires d < e < 58 && c < 128
    ensures B58(d) < B58(e)
    ensures (exists x: nat :: x < 58 && B58(x) == c) <==>
      (48 <= c <= 57 || 65 <= c <= 90 || 97 <= c <= 122) && c !in {48, 73, 79, 108}
    ensures (D58(c) == d <==> B58(d) == c) && D58(c + 128) == D58(c)
  {
    if (48 <= c <= 57 || 65 <= c <= 90 || 97 <= c <= 122) && c !in {48, 73, 79, 108} {
      assert B58(D58(c)) == c;
    }
  }

  function Chars(ds: seq<nat>): (r: seq<byte>)
    requires Digits(58, ds)
    ensures |r| == |ds|
  {
    seq(|ds|, i requires 0 <= i < |ds| => B58(ds[i]))
  }

  /** 58^11 > 256^8, so this many digits hold n bytes. */
  function DigitsFor(n: nat): nat {
    n * 138 / 100 + 1
  }

  lemma {:induction false} DigitsSuffice(n: nat)
    ensures Pow(58, DigitsFor(n)) >= Pow(256, n)
  {
    if n < 8 {
      SmallPowers();
    } else {
      DigitsSuffice(n - 8);
      SmallPowers();
      var d := DigitsFor(n - 8);
      assert DigitsFor(n) >= d + 11;
      PowMono(58, d + 11, DigitsFor(n));
      PowAdd(58, d, 11);
      PowAdd(256, n - 8, 8);
      MulMono(Pow(256, n - 8), Pow(58, d), Pow(58, 11));
      MulMono(Pow(256, 8), Pow(58, 11), Pow(256, n - 8));
    }
  }

  lemma SmallPowers()
    ensures Pow(58, 1) == 58 && Pow(58, 2) == 3364 && Pow(58, 3) == 195112
    ensures Pow(58, 5) == 656356768 && Pow(58, 6) == 38068692544 && Pow(58, 7) == 2207984167552
    ensures Pow(58, 9) == 7427658739644928 && Pow(58, 10) == 430804206899405824
    ensures Pow(58, 11) == 24986644000165537792
    ensures Pow(256, 0) == 1 && Pow(256, 1) == 256 && Pow(256, 2) == 65536 && Pow(256, 3) == 16777216
    ensures Pow(256, 4) == 4294967296 && Pow(256, 5) == 1099511627776 && Pow(256, 6) == 281474976710656
    ensures Pow(256, 7) == 72057594037927936 && Pow(256, 8) == 18446744073709551616
  {
    assert Pow(58, 1) == 58;
    assert Pow(58, 2) == 3364;
    assert Pow(58, 3) == 195112;
    assert Pow(58, 4) == 11316496;
    assert Pow(58, 5) == 656356768;
    assert Pow(58, 6) == 38068692544;
    assert Pow(58, 7) == 2207984167552;
    assert Pow(58, 8) == 128063081718016;
    assert Pow(58, 9) == 7427658739644928;
    assert Pow(58, 10) == 430804206899405824;
  }

  /** The number of leading bytes that equal c. */
  function LeadCount(s: seq<byte>, c: byte): (n: nat)
    ensures n <= |s|
    ensures forall i :: 0 <= i < n ==> s[i] == c
    ensures n < |s| ==> s[n] != c
  {
    if s == [] || s[0] != c then 0 else 1 + LeadCount(s[1..], c)
  }

  method CountLead(s: seq<byte>, c: byte) returns (n: nat)
    ensures n == LeadCount(s, c)
  {
    n := 0;
    while n < |s| && s[n] == c
      invariant n <= |s| && LeadCount(s, c) == n + LeadCount(s[n..], c)
    {
      assert s[n..][1..] == s[n + 1..];
      n := n + 1;
    }
  }

  /** A value stored in a signed 32-bit integer. */
  function Int32(v: nat): int {
    var w := v % 0x1_0000_0000;
    if w < 0x8000_0000 then w else w - 0x1_0000_0000
  }

  /** One step of the carry through the digit buffer, at a digit worth p. */
  lemma CarryStep(carry: nat, digit: nat, p: nat, done: nat, was: nat, byt: nat, base: nat, mul: nat)
    requires base > 0 && done + carry * p == mul * was + byt
    ensures var c := carry + mul * digit;
      (c % base) * p + done + (c / base) * (base * p) == mul * (digit * p + was) + byt
  {
    var c := carry + mul * digit;
    var q, r := c / base, c % base;
    assert c == base * q + r;
    assert r * p + q * (base * p) == c * p by {
      assert q * (base * p) == (base * q) * p;
      assert (base * q) * p + r * p == (base * q + r) * p;
    }
    assert c * p == carry * p + mul * (digit * p) by {
      assert (mul * digit) * p == mul * (digit * p);
    }
  }

  /** Of a number in the given base: the digits behind j have been multiplied by mul and increased by add, up to
      the carry; those before j are untouched. */
  ghost predicate Carrying(base: nat, mul: nat, buf: seq<nat>, was: seq<nat>, j: int, carry: nat, add: nat)
    requires |buf| == |was| && -1 <= j < |buf|
  {
    && buf[..j + 1] == was[..j + 1]
    && Val(base, buf[j + 1..]) + carry * Pow(base, |buf| - 1 - j) == mul * Val(base, was[j + 1..]) + add
  }

  lemma CarryStart(base: nat, mul: nat, was: seq<nat>, add: nat)
    ensures Carrying(base, mul, was, was, |was| - 1, add, add)
  {
    assert was[|was|..] == [];
    assert Pow(base, 0) == 1;
  }

  lemma CarryNext(base: nat, mul: nat, buf: seq<nat>, was: seq<nat>, j: nat, carry: nat, add: nat)
    requires base > 0 && |buf| == |was| && j < |buf| && Carrying(base, mul, buf, was, j, carry, add)
    ensures var c := carry + mul * buf[j];
      Carrying(base, mul, buf[j := c % base], was, j - 1, c / base, add)
  {
    var n, d := |buf|, buf[j];
    var c := carry + mul * d;
    var buf' := buf[j := c % base];
    var p := Pow(base, n - 1 - j);
    assert d == was[j] by { assert buf[..j + 1][j] == was[..j + 1][j]; }
    CarryStep(carry, d, p, Val(base, buf[j + 1..]), Val(base, was[j + 1..]), add, base, mul);
    assert buf'[j..] == [c % base] + buf[j + 1..] && was[j..] == [d] + was[j + 1..];
    ValCons(base, c % base, buf[j + 1..]);
    ValCons(base, d, was[j + 1..]);
    assert buf'[..j] == was[..j] by { assert buf'[..j] == buf[..j + 1][..j] && was[..j] == was[..j + 1][..j]; }
  }

  /** The carry has gone when it reaches the front, exactly if the digits can hold the result. */
  lemma CarryGone(base: nat, mul: nat, buf: seq<nat>, was: seq<nat>, carry: nat, add: nat)
    requires base > 0 && |buf| == |was| && Carrying(base, mul, buf, was, -1, carry, add) && Digits(base, buf)
    ensures carry == 0 <==> mul * Val(base, was) + add < Pow(base, |was|)
  {
    assert was[0..] == was && buf[0..] == buf;
    if carry > 0 {
      MulMono(1, carry, Pow(base, |was|));
    } else {
      ValBound(base, buf);
    }
  }

  lemma CarryDone(base: nat, mul: nat, buf: seq<nat>, was: seq<nat>, j: int, add: nat)
    requires |buf| == |was| && -1 <= j < |buf| && Carrying(base, mul, buf, was, j, 0, add)
    requires forall i :: 0 <= i <= j ==> was[i] == 0
    ensures Val(base, buf) == mul * Val(base, was) + add
    ensures forall i :: 0 <= i <= j ==> buf[i] == 0
  {
    assert buf == was[..j + 1] + buf[j + 1..] && was == was[..j + 1] + was[j + 1..];
    ValLeadingZeros(base, was[..j + 1], buf[j + 1..]);
    ValLeadingZeros(base, was[..j + 1], was[j + 1..]);
    assert forall i :: 0 <= i <= j ==> buf[i] == was[..j + 1][i];
  }

  /** `carry += 256 * buffer[j]; buffer[j] = carry % 58; carry /= 58`. */
  method CarryDigit(buffer: array<byte>, ghost was: seq<nat>, j: nat, carry: nat, ghost add: nat) returns (out: nat)
    requires j < buffer.Length == |was| && Digits(58, buffer[..])
    requires Carrying(58, 256, buffer[..], was, j, carry, add)
    modifies buffer
    ensures Digits(58, buffer[..]) && Carrying(58, 256, buffer[..], was, j - 1, out, add)
  {
    ghost var b := buffer[..];
    CarryNext(58, 256, b, was, j, carry, add);
    var digit: nat := buffer[j];
    var c := carry + 256 * digit;
    buffer[j] := c % 58;
    out := c / 58;
    assert buffer[..] == b[j := c % 58];
  }

  /** Multiplies the number in the buffer by 256 and adds a byte; the digits up to high are zero. */
  method MulAdd(buffer: array<byte>, byt: byte, high: int) returns (high': int)
    requires buffer.Length > 0 && -1 <= high < buffer.Length && Digits(58, buffer[..])
    requires forall i :: 0 <= i <= high ==> buffer[i] == 0
    requires 256 * Val(58, buffer[..]) + byt < Pow(58, buffer.Length)
    modifies buffer
    ensures -1 <= high' < buffer.Length && Digits(58, buffer[..])
    ensures forall i :: 0 <= i <= high' ==> buffer[i] == 0
    ensures Val(58, buffer[..]) == 256 * old(Val(58, buffer[..])) + byt
  {
    var carry: nat := byt;
    var j := buffer.Length - 1;
    ghost var was := buffer[..];
    CarryStart(58, 256, was, byt);
    while j > high || carry != 0
      invariant -1 <= j < buffer.Length && Digits(58, buffer[..]) && (j == -1 ==> carry == 0)
      invariant Carrying(58, 256, buffer[..], was, j, carry, byt)
      decreases j
    {
      carry := CarryDigit(buffer, was, j, carry, byt);
      j := j - 1;
      if j == -1 {
        CarryGone(58, 256, buffer[..], was, carry, byt);
      }
    }
    CarryDone(58, 256, buffer[..], was, j, byt);
    return j;
  }

  /** What encoding is for: as many ones as there are leading zero bytes, then the shortest numeral in base 58. */
  ghost predicate Encodes(s: seq<byte>, ds: seq<nat>, e: seq<byte>) {
    var z := LeadCount(s, 0);
    && Digits(58, ds) && Minimal(ds) && Val(58, ds) == Val(256, s)
    && e == seq(z, _ => 49) + Chars(ds)
  }

  /** The sizes that `string_b58s` accepts: the computed size must be a positive int32 and not below the input. */
  predicate Fits(s: seq<byte>) {
    s != [] && |s| <= DigitsFor(|s| - LeadCount(s, 0)) < 0x8000_0000
  }

  /** `string_b58s`. A negative size makes the allocation fail; other allocations succeed. */
  method Encode(s: seq<byte>) returns (r: Option<seq<byte>>, ghost ds: seq<nat>)
    ensures r.Some? <==> Fits(s)
    ensures r.Some? ==> Encodes(s, ds, r.value)
  {
    ds := [];
    if s == [] {
      return None, ds;
    }
    var zcount := CountLead(s, 0);
    var b58size := Int32((|s| - zcount) * 138 / 100 + 1);
    SizeGuard(|s|, zcount);
    if 0 <= b58size < |s| || b58size < 0 {
      return None, ds;
    }
    var buffer := new byte[b58size](_ => 0);
    ValZeros(58, buffer[..]);
    FillDigits(s, zcount, buffer);
    var digits := DropZeros(buffer);
    ds := digits;
    r := Some(seq(zcount, _ => 49) + Chars(digits));
  }

  /** Turns the input, from its first nonzero byte on, into digits. */
  method FillDigits(s: seq<byte>, zcount: nat, buffer: array<byte>)
    requires zcount == LeadCount(s, 0) && buffer.Length == DigitsFor(|s| - zcount)
    requires Digits(58, buffer[..]) && forall k :: 0 <= k < buffer.Length ==> buffer[k] == 0
    requires Val(58, buffer[..]) == 0
    modifies buffer
    ensures Digits(58, buffer[..]) && Val(58, buffer[..]) == Val(256, s)
  {
    var i, high := zcount, buffer.Length - 1;
    LeadValue(s, zcount);
    while i < |s|
      invariant zcount <= i <= |s| && -1 <= high < buffer.Length && Digits(58, buffer[..])
      invariant forall k :: 0 <= k <= high ==> buffer[k] == 0
      invariant Val(58, buffer[..]) == Val(256, s[..i])
    {
      ByteFits(s, zcount, i, buffer.Length);
      high := MulAdd(buffer, s[i], high);
      i := i + 1;
    }
    assert s[..i] == s;
  }

  /** The digits from the first nonzero one on. */
  method DropZeros(buffer: array<byte>) returns (ds: seq<byte>)
    requires Digits(58, buffer[..])
    ensures Digits(58, ds) && Minimal(ds) && Val(58, ds) == Val(58, buffer[..])
  {
    var j := 0;
    while j < buffer.Length && buffer[j] == 0
      invariant j <= buffer.Length && forall k :: 0 <= k < j ==> buffer[k] == 0
    {
      j := j + 1;
    }
    ds := buffer[j..];
    assert buffer[..] == buffer[..j] + ds;
    ValLeadingZeros(58, buffer[..j], ds);
  }

  /** The size guard refuses exactly the sizes that are too small or do not fit, wrap-around included. */
  lemma SizeGuard(n: nat, z: nat)
    requires z <= n
    ensures var v := DigitsFor(n - z); n <= Int32(v) <==> n <= v < 0x8000_0000
    ensures var v := DigitsFor(n - z); n <= v < 0x8000_0000 ==> Int32(v) == v
  {
  }

  lemma LeadValue(s: seq<byte>, z: nat)
    requires z == LeadCount(s, 0)
    ensures Val(256, s[..z]) == 0
  {
    ValZeros(256, s[..z]);
  }

  /** The buffer has room for every prefix of the input. */
  lemma ByteFits(s: seq<byte>, z: nat, i: nat, size: nat)
    requires z == LeadCount(s, 0) && z <= i < |s| && size == DigitsFor(|s| - z)
    ensures 256 * Val(256, s[..i]) + s[i] == Val(256, s[..i + 1])
    ensures Val(256, s[..i + 1]) < Pow(58, size)
  {
    assert s[..i + 1] == s[..i] + [s[i]];
    ValSnoc(256, s[..i], s[i]);
    PrefixBound(s, z, i + 1);
    PowMono(256, i + 1 - z, |s| - z);
    DigitsSuffice(|s| - z);
  }

  lemma PrefixBound(s: seq<byte>, z: nat, i: nat)
    requires z == LeadCount(s, 0) && z <= i <= |s|
    ensures Val(256, s[..i]) < Pow(256, i - z)
  {
    UpperBound(256, s[..i], z);
  }
}
