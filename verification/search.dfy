/** The tuned Boyer-Moore search with a precompiled table of shifts. */
module Search {
  import opened Bits

  /** The needle stands at position i of the haystack. */
  ghost predicate Occurs(hay: seq<byte>, needle: seq<byte>, i: nat) {
    i + |needle| <= |hay| && hay[i..i + |needle|] == needle
  }

  ghost predicate NoneIn(hay: seq<byte>, needle: seq<byte>, lo: nat, hi: nat) {
    forall i :: lo <= i < hi ==> !Occurs(hay, needle, i)
  }

  /** d is the distance from the last byte of the needle to the nearest b among its first n bytes, the length
      of the needle if there is none. */
  ghost predicate IsShiftIn(needle: seq<byte>, b: byte, d: nat, n: nat)
    requires n < |needle|
  {
    && 0 < d <= |needle|
    && (d < |needle| ==> |needle| - 1 - n < d && needle[|needle| - 1 - d] == b)
    && forall j :: 0 <= j < n && needle[j] == b ==> d <= |needle| - 1 - j
  }

  ghost predicate IsShift(needle: seq<byte>, b: byte, d: nat)
    requires needle != []
  {
    IsShiftIn(needle, b, d, |needle| - 1)
  }

  /** Moving the needle by less than the shift of the haystack byte under its end cannot make it fit. */
  lemma ShiftIsSafe(hay: seq<byte>, needle: seq<byte>, i: nat, d: nat, t: nat)
    requires needle != [] && i + |needle| <= |hay|
    requires IsShift(needle, hay[i + |needle| - 1], d) && 0 < t < d
    ensures !Occurs(hay, needle, i + t)
  {
    var m := |needle|;
    if i + t + m <= |hay| {
      assert hay[i + t..i + t + m][m - 1 - t] == hay[i + m - 1];
      assert needle[m - 1 - t] != hay[i + m - 1];
    }
  }

  lemma SkipIsSafe(hay: seq<byte>, needle: seq<byte>, o: nat, i: nat, d: nat)
    requires needle != [] && i + |needle| <= |hay|
    requires IsShift(needle, hay[i + |needle| - 1], d)
    requires NoneIn(hay, needle, o, i) && !Occurs(hay, needle, i)
    ensures NoneIn(hay, needle, o, i + d)
  {
    forall j | o <= j < i + d ensures !Occurs(hay, needle, j) {
      if j > i { ShiftIsSafe(hay, needle, i, d, j - i); }
    }
  }

  lemma LastByteDecides(hay: seq<byte>, needle: seq<byte>, i: nat)
    requires needle != [] && i + |needle| <= |hay| && hay[i + |needle| - 1] != needle[|needle| - 1]
    ensures !Occurs(hay, needle, i)
  {
    assert hay[i..i + |needle|][|needle| - 1] == hay[i + |needle| - 1];
  }

  lemma PrefixAndLast(hay: seq<byte>, needle: seq<byte>, i: nat)
    requires needle != [] && i + |needle| <= |hay| && hay[i + |needle| - 1] == needle[|needle| - 1]
    ensures Occurs(hay, needle, i) <==> hay[i..i + |needle| - 1] == needle[..|needle| - 1]
  {
    var m := |needle|;
    assert hay[i..i + m] == hay[i..i + m - 1] + [hay[i + m - 1]];
    assert needle == needle[..m - 1] + [needle[m - 1]];
    assert hay[i..i + m][..m - 1] == hay[i..i + m - 1];
  }

  class SearchString {
    var len: nat
    var shift: nat
    const lut: array<byte>

    constructor ()
      ensures lut.Length == 256 && fresh(lut)
    {
      len, shift := 0, 0;
      lut := new byte[256](_ => 0);
    }

    /** The table belongs to the needle: shifts of all bytes, 0 as a guard for the last one. */
    ghost predicate Compiled(needle: seq<byte>)
      reads this, lut
    {
      && lut.Length == 256 && needle != [] && len == |needle| - 1
      && IsShift(needle, needle[len], shift)
      && lut[needle[len]] == 0
      && forall b: byte :: b != needle[len] ==> IsShift(needle, b, lut[b])
    }

    /** `string_compile_searchstring`. */
    method Compile(needle: seq<byte>) returns (ok: bool)
      requires lut.Length == 256
      modifies this, lut
      ensures ok <==> 1 <= |needle| <= 255
      ensures ok ==> Compiled(needle)
    {
      if |needle| == 0 || |needle| > 255 {
        return false;
      }
      var n := |needle|;
      forall b | 0 <= b < 256 {
        lut[b] := n;
      }
      n := n - 1;
      var i := 0;
      while i < n
        modifies lut
        invariant 0 <= i <= n
        invariant forall b: byte :: IsShiftIn(needle, b, lut[b], i)
      {
        lut[needle[i]] := n - i;
        i := i + 1;
      }
      shift := lut[needle[n]];
      lut[needle[n]] := 0;
      len := n;
      return true;
    }
  }

  /** `string_compile_find` on a haystack of at least 255 bytes: the leftmost occurrence from the offset on. */
  method Find(hay: seq<byte>, o: nat, needle: seq<byte>, c: SearchString) returns (r: int)
    requires |hay| >= 255 && c.Compiled(needle)
    ensures -1 <= r
    ensures r >= 0 ==> r >= o && Occurs(hay, needle, r) && NoneIn(hay, needle, o, r)
    ensures r == -1 ==> NoneIn(hay, needle, o, |hay|)
  {
    if o + c.len >= |hay| {
      return -1;
    }
    var i := o;
    while i < |hay|
      invariant o <= i <= |hay| && NoneIn(hay, needle, o, i)
      decreases |hay| - i
    {
      ghost var start := i;
      var k := 1;
      while k != 0
        invariant 0 <= k && o <= start <= i <= |hay| && NoneIn(hay, needle, o, i)
        invariant k == 0 ==> i + |needle| <= |hay| && hay[i + c.len] == needle[c.len]
        decreases |hay| - i, k
      {
        k := i + c.len;
        if k >= |hay| {
          return -1;
        }
        k := c.lut[hay[k]];
        if k != 0 {
          LastByteDecides(hay, needle, i);
          SkipIsSafe(hay, needle, o, i, k);
          i := i + k;
        }
      }
      PrefixAndLast(hay, needle, i);
      if needle[..c.len] == hay[i..i + c.len] {
        break;
      }
      SkipIsSafe(hay, needle, o, i, c.shift);
      i := i + c.shift;
    }
    return if i >= |hay| then -1 else i;
  }
}
