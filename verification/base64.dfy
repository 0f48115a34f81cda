/** Base 64 encoding with line breaks, and decoding. */
module Base64 {
  import opened Bits
  import opened Options

  const PAD: byte := 61
  const CR: byte := 13
  const LF: byte := 10

  /** The alphabet `_b64`. */
  function B64(d: nat): byte
    requires d < 64
  {
    if d < 26 then 65 + d           // 'A' .. 'Z'
    else if d < 52 then 97 + d - 26 // 'a' .. 'z'
    else if d < 62 then 48 + d - 52 // '0' .. '9'
    else if d == 62 then 43 else 47 // '+', '/'
  }

  /** The table `_d64`, looked up with the seven low bits of a character; -1 marks the others. */
  function D64(c: byte): int {
    var x := if c < 128 then c else c - 128;
    if 65 <= x <= 90 then x - 65
    else if 97 <= x <= 122 then x - 97 + 26
    else if 48 <= x <= 57 then x - 48 + 52
    else if x == 43 then 62 else if x == 47 then 63 else -1
  }

  /**
   * Table 1 of RFC 4648: the capital letters, the small letters and the digits, each in their order, then + and /. The
   * table for decoding knows exactly these characters, by their seven low bits, and gives their places back.
   */
  lemma AlphabetIs(d: nat, c: byte)
    requires d < 64
    ensures d < 26 ==> B64(d) == 'A' as int + d
    ensures 26 <= d < 52 ==> B64(d) == 'a' as int + (d - 26)
    ensures 52 <= d < 62 ==> B64(d) == '0' as int + (d - 52)
    ensures d == 62 ==> B64(d) == '+' as int
    ensures d == 63 ==> B64(d) == '/' as int
    ensures PAD == '=' as int && CR == '\r' as int && LF == '\n' as int
    ensures D64(c) == d <==> B64(d) == c % 128
  {
  }

  lemma SextetOfChar(d: nat)
    requires d < 64
    ensures D64(B64(d)) == d
  {
  }

  lemma NotSextets()
    ensures D64(PAD) == -1 && D64(CR) == -1 && D64(LF) == -1 && D64(0) == -1
  {
  }

  // Section 4 of RFC 4648: three bytes are a 24-bit number, cut into four 6-bit ones.

  function Bits24(x: byte, y: byte, z: byte): nat {
    (x * 256 + y) * 256 + z
  }

  function Quad(v: nat): (q: seq<byte>)
    ensures |q| == 4
  {
    [B64(v / 262144 % 64), B64(v / 4096 % 64), B64(v / 64 % 64), B64(v % 64)]
  }

  /** The standard encoding. */
  function Rfc(x: seq<byte>): seq<byte> {
    if x == [] then []
    else if |x| == 1 then Quad(Bits24(x[0], 0, 0))[..2] + [PAD, PAD]
    else if |x| == 2 then Quad(Bits24(x[0], x[1], 0))[..3] + [PAD]
    else Quad(Bits24(x[0], x[1], x[2])) + Rfc(x[3..])
  }

  /** A byte of the input; behind its end stands a NUL. */
  function ByteAt(x: seq<byte>, i: nat): byte {
    if i < |x| then x[i] else 0
  }

  function Groups(n: nat): nat {
    (n + 2) / 3
  }

  /** The four characters of the k-th group, as the masks and shifts of the source give them. */
  function Group(x: seq<byte>, k: nat): (g: seq<byte>)
    ensures |g| == 4
  {
    var a, b, c := ByteAt(x, 3 * k), ByteAt(x, 3 * k + 1), ByteAt(x, 3 * k + 2);
    [B64(a / 4), B64(a % 4 * 16 + b / 16), B64(b % 16 * 4 + c / 64), B64(c % 64)]
  }

  lemma QuadOfBytes(a: byte, b: byte, c: byte)
    ensures var v := Bits24(a, b, c);
      v / 262144 % 64 == a / 4 && v / 4096 % 64 == a % 4 * 16 + b / 16 &&
      v / 64 % 64 == b % 16 * 4 + c / 64 && v % 64 == c % 64
  {
    var v: nat := Bits24(a, b, c);
    var u: nat := v / 64;
    var t: nat := u / 64;
    ModUnique(v, 64, a * 1024 + b * 4 + c / 64, c % 64);
    ModUnique(u, 64, a * 16 + b / 16, b % 16 * 4 + c / 64);
    ModUnique(t, 64, a / 4, a % 4 * 16 + b / 16);
    ModUnique(v, 4096, t, b % 16 * 256 + c);
    ModUnique(v, 262144, a / 4, a % 4 * 65536 + b * 256 + c);
  }

  /** The last group, with padding for the bytes that are missing. */
  function LastGroup(x: seq<byte>): (g: seq<byte>)
    requires x != []
    ensures |g| == 4
  {
    var m := Groups(|x|);
    var q := Group(x, m - 1);
    var rest := |x| - 3 * (m - 1);
    if rest == 3 then q else if rest == 2 then q[..3] + [PAD] else q[..2] + [PAD, PAD]
  }

  function Break(k: nat, linesize: nat): seq<byte> {
    if linesize != 0 && k > 0 && 4 * k % linesize == 0 then [CR, LF] else []
  }

  /** The first k groups, broken into lines. */
  function Lines(x: seq<byte>, k: nat, linesize: nat): seq<byte> {
    if k == 0 then [] else Lines(x, k - 1, linesize) + Group(x, k - 1) + Break(k, linesize)
  }

  function Breaks(k: nat, linesize: nat): nat {
    if k == 0 then 0 else Breaks(k - 1, linesize) + if Break(k, linesize) == [] then 0 else 1
  }

  lemma {:induction false} LinesLength(x: seq<byte>, k: nat, linesize: nat)
    ensures |Lines(x, k, linesize)| == 4 * k + 2 * Breaks(k, linesize)
  {
    if k != 0 { LinesLength(x, k - 1, linesize); }
  }

  predicate LegalLine(linesize: nat) {
    linesize == 0 || (linesize % 4 == 0 && linesize <= 72)
  }

  /** The number of breaks is the number of full lines. */
  lemma {:induction false} BreaksCount(k: nat, linesize: nat)
    requires linesize > 0 && LegalLine(linesize)
    ensures Breaks(k, linesize) == 4 * k / linesize
  {
    var u := linesize / 4;
    InGroups(k, u);
    if k != 0 {
      BreaksCount(k - 1, linesize);
      InGroups(k - 1, u);
      NextGroup(k - 1, u);
    } else {
      ModUnique(0, linesize, 0, 0);
    }
  }

  /** Counting in groups of four characters. */
  lemma InGroups(k: nat, u: nat)
    requires u > 0
    ensures 4 * k / (4 * u) == k / u && 4 * k % (4 * u) == 4 * (k % u)
  {
    var q, r := k / u, k % u;
    assert k == u * q + r;
    assert 4 * (u * q) == (4 * u) * q;
    ModUnique(4 * k, 4 * u, q, 4 * r);
  }

  lemma NextGroup(k: nat, u: nat)
    requires u > 0
    ensures (k + 1) / u == k / u + if (k + 1) % u == 0 then 1 else 0
  {
    var q, r := k / u, k % u;
    assert k == u * q + r;
    if r + 1 < u {
      ModUnique(k + 1, u, q, r + 1);
    } else {
      assert u * (q + 1) == u * q + u;
      ModUnique(k + 1, u, q + 1, 0);
    }
  }

  /** The size computed for the output, without the int32 limit. */
  function Size(n: nat, linesize: nat): nat {
    var size := (n + 3 - n % 3) / 3 * 4 + 1;
    if linesize == 0 then size else size + size / linesize * 2 + 2
  }

  /** The room is enough for all groups and breaks: neither panic exit is ever taken. */
  lemma {:induction false} RoomEnough(n: nat, linesize: nat, k: nat)
    requires n > 0 && LegalLine(linesize) && k < Groups(n)
    ensures 4 * k + 2 * Breaks(k, linesize) + 4 < Size(n, linesize)
    ensures linesize != 0 ==> 4 * (k + 1) + 2 * Breaks(k, linesize) + 2 < Size(n, linesize)
  {
    var size := (n + 3 - n % 3) / 3 * 4 + 1;
    assert size >= 4 * Groups(n) + 1;
    if linesize != 0 {
      BreaksCount(k, linesize);
      DivMono(4 * k, size, linesize);
    } else {
      NoBreaks(k);
    }
  }

  lemma {:induction false} NoBreaks(k: nat)
    ensures Breaks(k, 0) == 0
  {
    if k != 0 { NoBreaks(k - 1); }
  }

  lemma DivMono(a: nat, b: nat, d: nat)
    requires a <= b && d > 0
    ensures a / d <= b / d
  {
    var q, r := a / d, b / d;
    assert a == d * q + a % d && b == d * r + b % d;
    MulOver(d, q, r + 1);
    assert d * (r + 1) == d * r + d;
  }

  lemma MulOver(d: nat, q: nat, r: nat)
    ensures q >= r ==> d * q >= d * r
  {
    if q >= r { assert d * q == d * r + d * (q - r); }
  }

  /** A zeroed buffer into which `done` has been written. */
  ghost predicate Holds(r: array<byte>, done: seq<byte>)
    reads r
  {
    |done| <= r.Length &&
    (forall i :: 0 <= i < |done| ==> r[i] == done[i]) &&
    (forall i :: |done| <= i < r.Length ==> r[i] == 0)
  }

  method Emit(r: array<byte>, j: nat, c: byte, ghost done: seq<byte>)
    requires Holds(r, done) && j == |done| < r.Length
    modifies r
    ensures Holds(r, done + [c])
  {
    r[j] := c;
  }

  method EmitGroup(r: array<byte>, j: nat, x: seq<byte>, i: nat, ghost k: nat, ghost done: seq<byte>)
    requires Holds(r, done) && j == |done| && j + 4 < r.Length && i == 3 * k && i + 3 < |x|
    modifies r
    ensures Holds(r, done + Group(x, k))
  {
    Emit(r, j, B64(x[i] / 4), done);
    ghost var d1 := done + [B64(x[i] / 4)];
    Emit(r, j + 1, B64(x[i] % 4 * 16 + x[i + 1] / 16), d1);
    ghost var d2 := d1 + [B64(x[i] % 4 * 16 + x[i + 1] / 16)];
    Emit(r, j + 2, B64(x[i + 1] % 16 * 4 + x[i + 2] / 64), d2);
    ghost var d3 := d2 + [B64(x[i + 1] % 16 * 4 + x[i + 2] / 64)];
    Emit(r, j + 3, B64(x[i + 2] % 64), d3);
    assert d3 + [B64(x[i + 2] % 64)] == done + Group(x, k);
  }

  method EmitBreak(r: array<byte>, j: nat, ghost done: seq<byte>)
    requires Holds(r, done) && j == |done| && j + 2 < r.Length
    modifies r
    ensures Holds(r, done + [CR, LF])
  {
    Emit(r, j, CR, done);
    Emit(r, j + 1, LF, done + [CR]);
    assert done + [CR] + [LF] == done + [CR, LF];
  }

  /** Padding first; then the characters that the remaining bytes give. */
  method EmitLast(r: array<byte>, j: nat, x: seq<byte>, i: nat, ghost done: seq<byte>)
    requires x != [] && Holds(r, done) && j == |done| && j + 4 < r.Length && i == 3 * (Groups(|x|) - 1)
    modifies r
    ensures Holds(r, done + LastGroup(x))
  {
    r[j], r[j + 1], r[j + 2], r[j + 3] := PAD, PAD, PAD, PAD;
    if |x| + 1 - i == 4 { r[j + 3] := B64(x[i + 2] % 64); }
    if |x| + 1 - i >= 3 { r[j + 2] := B64(x[i + 1] % 16 * 4 + ByteAt(x, i + 2) / 64); }
    if |x| + 1 - i >= 2 { r[j + 1] := B64(x[i] % 4 * 16 + ByteAt(x, i + 1) / 16); }
    r[j] := B64(x[i] / 4);
  }

  function Ending(linesize: nat): seq<byte> {
    if linesize == 0 then [] else [CR, LF]
  }

  /** The characters that the encoder writes. */
  function Written(x: seq<byte>, linesize: nat): seq<byte>
    requires x != []
  {
    Lines(x, Groups(|x|) - 1, linesize) + LastGroup(x) + Ending(linesize)
  }

  lemma WrittenFits(x: seq<byte>, linesize: nat)
    requires x != [] && LegalLine(linesize)
    ensures |Written(x, linesize)| < Size(|x|, linesize)
  {
    var m := Groups(|x|) - 1;
    LinesLength(x, m, linesize);
    RoomEnough(|x|, linesize, m);
  }

  /** A result of the encoder: what it writes, then NULs up to the length it reports. */
  ghost predicate IsEncoding(s: seq<byte>, x: seq<byte>, linesize: nat)
    requires x != []
  {
    var w := Written(x, linesize);
    |w| <= |s| == Size(|x|, linesize) - 1 && s[..|w|] == w && forall i :: |w| <= i < |s| ==> s[i] == 0
  }

  /**
   * One round of the loop. The buffer has room for every group and break, so the two panic exits (dead branches
   * here) are never taken.
   */
  method EncodeGroup(x: seq<byte>, linesize: nat, r: array<byte>, i: nat, j: nat, crlf: nat, ghost k: nat)
    returns (j': nat, crlf': nat)
    requires LegalLine(linesize) && r.Length == Size(|x|, linesize) && i == 3 * k && i + 3 < |x|
    requires Holds(r, Lines(x, k, linesize)) && j == |Lines(x, k, linesize)| && crlf == 2 * Breaks(k, linesize)
    modifies r
    ensures Holds(r, Lines(x, k + 1, linesize)) && j' == |Lines(x, k + 1, linesize)|
    ensures crlf' == 2 * Breaks(k + 1, linesize)
  {
    j', crlf' := j, crlf;
    ghost var done := Lines(x, k, linesize) + Group(x, k);
    LinesLength(x, k, linesize);
    RoomEnough(|x|, linesize, k);
    if j + 4 >= r.Length { assert false; return; }
    EmitGroup(r, j, x, i, k, Lines(x, k, linesize));
    j' := j + 4;
    if linesize != 0 && (j' - crlf) % linesize == 0 {
      if j' + 2 >= r.Length { assert false; return; }
      EmitBreak(r, j', done);
      j', crlf' := j' + 2, crlf + 2;
    } else {
      assert done + [] == done;
    }
  }

  /** All groups but the last, with their breaks. */
  method EncodeGroups(x: seq<byte>, linesize: nat, r: array<byte>) returns (i: nat, j: nat)
    requires x != [] && LegalLine(linesize) && r.Length == Size(|x|, linesize) && Holds(r, [])
    modifies r
    ensures i == 3 * (Groups(|x|) - 1) && j == |Lines(x, Groups(|x|) - 1, linesize)|
    ensures Holds(r, Lines(x, Groups(|x|) - 1, linesize))
  {
    i, j := 0, 0;
    var crlf := 0;
    ghost var k := 0;
    while i + 3 < |x|
      invariant i == 3 * k && k < Groups(|x|)
      invariant Holds(r, Lines(x, k, linesize)) && j == |Lines(x, k, linesize)|
      invariant crlf == 2 * Breaks(k, linesize)
    {
      j, crlf := EncodeGroup(x, linesize, r, i, j, crlf, k);
      i, k := i + 3, k + 1;
    }
  }

  /**
   * `string_b64s`. The unused end of the buffer keeps its NULs, and only the last one is not counted in the length.
   */
  method Encode(x: seq<byte>, linesize: nat) returns (res: Option<seq<byte>>)
    requires Size(|x|, linesize) < 0x8000_0000
    ensures res.None? <==> x == [] || !LegalLine(linesize)
    ensures res.Some? ==> IsEncoding(res.value, x, linesize)
  {
    if |x| == 0 { return None; }
    if linesize != 0 && (linesize % 4 != 0 || linesize > 72) { return None; }
    var size := (|x| + 3 - |x| % 3) / 3 * 4 + 1;
    if linesize != 0 { size := size + size / linesize * 2 + 2; }
    WrittenFits(x, linesize);
    var r := new byte[size](_ => 0);
    var i, j := EncodeGroups(x, linesize, r);
    ghost var done := Lines(x, Groups(|x|) - 1, linesize);
    if j + 4 < size {
      EmitLast(r, j, x, i, done);
      done := done + LastGroup(x);
      j := j + 4;
    }
    if linesize != 0 && j + 2 < size {
      EmitBreak(r, j, done);
      done := done + [CR, LF];
    }
    assert done == Written(x, linesize);
    res := Some(r[..size - 1]);
  }
}
