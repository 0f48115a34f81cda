/** What the encoder writes is the encoding of section 4 of RFC 4648, broken into lines. */
module Base64Standard {
  import opened Bits
  import opened Base64

  /** A text without its line breaks. */
  function Unbroken(s: seq<byte>): seq<byte> {
    if s == [] then []
    else (if s[0] == CR || s[0] == LF then [] else [s[0]]) + Unbroken(s[1..])
  }

  lemma {:induction false} UnbrokenAppend(s: seq<byte>, t: seq<byte>)
    ensures Unbroken(s + t) == Unbroken(s) + Unbroken(t)
  {
    if s == [] {
      assert s + t == t;
    } else {
      assert (s + t)[1..] == s[1..] + t;
      UnbrokenAppend(s[1..], t);
    }
  }

  predicate Plain(s: seq<byte>) {
    CR !in s && LF !in s
  }

  lemma GroupsArePlain(x: seq<byte>, k: nat)
    ensures Plain(Group(x, k)) && (x != [] ==> Plain(LastGroup(x)))
  {
  }

  lemma {:induction false} UnbrokenSame(s: seq<byte>)
    requires Plain(s)
    ensures Unbroken(s) == s
  {
    if s != [] { UnbrokenSame(s[1..]); }
  }

  predicate OnlyBreaks(b: seq<byte>) {
    b == [] || b == [CR, LF]
  }

  lemma UnbrokenBreak(b: seq<byte>)
    requires OnlyBreaks(b)
    ensures Unbroken(b) == []
  {
    if b != [] {
      var t := b[1..];
      var u := t[1..];
      assert t == [LF] && u == [] && Unbroken(u) == [];
      assert Unbroken(t) == [];
    }
  }

  /** A group keeps all its characters, a break none. */
  lemma UnbrokenPiece(lines: seq<byte>, group: seq<byte>, b: seq<byte>)
    requires Plain(group) && OnlyBreaks(b)
    ensures Unbroken(lines + group + b) == Unbroken(lines) + group
  {
    UnbrokenAppend(lines, group);
    UnbrokenAppend(lines + group, b);
    UnbrokenSame(group);
    UnbrokenBreak(b);
  }

  lemma GroupIsQuad(x: seq<byte>, k: nat)
    ensures Group(x, k) == Quad(Bits24(ByteAt(x, 3 * k), ByteAt(x, 3 * k + 1), ByteAt(x, 3 * k + 2)))
  {
    QuadOfBytes(ByteAt(x, 3 * k), ByteAt(x, 3 * k + 1), ByteAt(x, 3 * k + 2));
  }

  lemma RfcStep(x: seq<byte>, k: nat)
    requires x != [] && k + 1 < Groups(|x|)
    ensures Rfc(x[3 * k..]) == Group(x, k) + Rfc(x[3 * (k + 1)..])
  {
    GroupIsQuad(x, k);
    assert x[3 * k..][3..] == x[3 * (k + 1)..];
  }

  lemma RfcLast(x: seq<byte>)
    requires x != []
    ensures Rfc(x[3 * (Groups(|x|) - 1)..]) == LastGroup(x)
  {
    var m := Groups(|x|) - 1;
    GroupIsQuad(x, m);
    var t := x[3 * m..];
    if |t| == 3 {
      assert t[3..] == [];
      assert Quad(Bits24(t[0], t[1], t[2])) + [] == Group(x, m);
    }
  }

  lemma LinesStep(x: seq<byte>, k: nat, linesize: nat)
    requires x != [] && k + 1 < Groups(|x|)
    ensures Unbroken(Lines(x, k, linesize)) + Rfc(x[3 * k..])
         == Unbroken(Lines(x, k + 1, linesize)) + Rfc(x[3 * (k + 1)..])
  {
    RfcStep(x, k);
    GroupsArePlain(x, k);
    UnbrokenPiece(Lines(x, k, linesize), Group(x, k), Break(k + 1, linesize));
  }

  lemma {:induction false} LinesStandard(x: seq<byte>, k: nat, linesize: nat)
    requires x != [] && k < Groups(|x|)
    ensures Rfc(x) == Unbroken(Lines(x, k, linesize)) + Rfc(x[3 * k..])
  {
    if k == 0 {
      assert x[0..] == x;
    } else {
      LinesStandard(x, k - 1, linesize);
      LinesStep(x, k - 1, linesize);
    }
  }

  /** With any line size, what the encoder writes is the standard encoding with line breaks in it. */
  lemma {:induction false} EncodingIsStandard(x: seq<byte>, linesize: nat)
    requires x != []
    ensures Unbroken(Written(x, linesize)) == Rfc(x)
  {
    var m := Groups(|x|) - 1;
    LinesStandard(x, m, linesize);
    RfcLast(x);
    GroupsArePlain(x, m);
    UnbrokenPiece(Lines(x, m, linesize), LastGroup(x), Ending(linesize));
  }

  lemma {:induction false} PlainLines(x: seq<byte>, k: nat)
    ensures Plain(Lines(x, k, 0)) && |Lines(x, k, 0)| == 4 * k
  {
    if k != 0 {
      PlainLines(x, k - 1);
      GroupsArePlain(x, k - 1);
    }
  }

  lemma PlainWritten(x: seq<byte>)
    requires x != []
    ensures Plain(Written(x, 0)) && |Written(x, 0)| == 4 * Groups(|x|)
  {
    PlainLines(x, Groups(|x|) - 1);
    GroupsArePlain(x, 0);
  }

  /** With line size 0 the first 4 * ceil(n / 3) characters of the result are the standard encoding. */
  lemma {:induction false} UnbrokenEncoding(s: seq<byte>, x: seq<byte>)
    requires x != [] && IsEncoding(s, x, 0)
    ensures 4 * Groups(|x|) <= |s| && s[..4 * Groups(|x|)] == Rfc(x)
  {
    PlainWritten(x);
    EncodingIsStandard(x, 0);
    UnbrokenSame(Written(x, 0));
  }
}
