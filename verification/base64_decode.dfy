/** The base 64 decoder on every input, and the round trip through the encoder. */
module Base64Decode {
  import opened Bits
  import opened Base64
  import opened Options

  function Low(v: int): byte {
    v % 256
  }

  function OrBytes(x: byte, y: byte): byte {
    assert Pow2(8) == 256;
    OrBound(x, y, 8);
    Or(x, y)
  }

  // The three bytes of a group, as the source computes them, also from the -1 of a character that is no digit:
  // `d0 << 2 | d1 >> 4`, `d1 << 4 | d2 >> 2` and `((d2 << 6) & 0xc0) | d3`, cut to eight bits. Dafny's division rounds
  // down for a positive divisor, as the arithmetic shift does.

  function First(d0: int, d1: int): byte {
    OrBytes(Low(d0 * 4), Low(d1 / 16))
  }

  function Second(d1: int, d2: int): byte {
    OrBytes(Low(d1 * 16), Low(d2 / 4))
  }

  function Third(d2: int, d3: int): byte {
    OrBytes(Low(d2 * 64), Low(d3))
  }

  /** Bits that do not overlap are added. */
  lemma OrPieces(x: nat, k: nat, p: nat, y: nat)
    requires p == Pow2(k) && y < p && x * p < 256 && y < 256
    ensures OrBytes(x * p, y) == x * p + y
  {
    ShlIsTimes(x, k);
    OrDisjoint(x, k, y);
  }

  lemma PowersOfTwo()
    ensures 4 == Pow2(2) && 16 == Pow2(4) && 64 == Pow2(6)
  {
  }

  lemma LowSum(t: nat, v: byte)
    ensures Low(t * 256 + v) == v && Low(v) == v
  {
  }

  lemma FirstBack(a: byte, h: nat)
    requires h < 16
    ensures First(a / 4, a % 4 * 16 + h) == a
  {
    PowersOfTwo();
    OrPieces(a / 4, 2, 4, a % 4);
    LowSum(0, a / 4 * 4);
    LowSum(0, a % 4);
    assert (a % 4 * 16 + h) / 16 == a % 4;
  }

  lemma SecondBack(t: nat, b: byte, h: nat)
    requires t < 4 && h < 4
    ensures Second(t * 16 + b / 16, b % 16 * 4 + h) == b
  {
    PowersOfTwo();
    OrPieces(b / 16, 4, 16, b % 16);
    LowSum(t, b / 16 * 16);
    LowSum(0, b % 16);
    assert (t * 16 + b / 16) * 16 == t * 256 + b / 16 * 16;
    assert (b % 16 * 4 + h) / 4 == b % 16;
  }

  lemma ThirdBack(t: nat, c: byte)
    requires t < 16
    ensures Third(t * 4 + c / 64, c % 64) == c
  {
    PowersOfTwo();
    OrPieces(c / 64, 6, 64, c % 64);
    LowSum(t, c / 64 * 64);
    LowSum(0, c % 64);
    assert (t * 4 + c / 64) * 64 == t * 256 + c / 64 * 64;
  }

  /** The bytes of a group come back. */
  lemma {:induction false} BytesBack(a: byte, b: byte, c: byte)
    ensures First(a / 4, a % 4 * 16 + b / 16) == a
    ensures Second(a % 4 * 16 + b / 16, b % 16 * 4 + c / 64) == b
    ensures Third(b % 16 * 4 + c / 64, c % 64) == c
  {
    FirstBack(a, b / 16);
    SecondBack(a % 4, b, c / 64);
    ThirdBack(b % 16, c);
  }

  // The decoder as a function of the text.

  /** The index that the first loop stops at: the last digit behind index 0, or 0. */
  function Trim(s: seq<byte>, q: nat): (p: nat)
    requires q < |s|
    ensures p <= q
  {
    if q == 0 || D64(s[q]) != -1 then q else Trim(s, q - 1)
  }

  function Triple(s: seq<byte>, i: nat): seq<byte>
    requires i + 3 < |s|
  {
    [First(D64(s[i]), D64(s[i + 1])), Second(D64(s[i + 1]), D64(s[i + 2])), Third(D64(s[i + 2]), D64(s[i + 3]))]
  }

  /** The last characters, up to index p; the bytes that are not there stay zero. */
  function Rest(s: seq<byte>, i: nat, p: nat): seq<byte>
    requires p < |s|
  {
    if p - i == 3 then Triple(s, i)
    else if p - i == 2 then [First(D64(s[i]), D64(s[i + 1])), Second(D64(s[i + 1]), D64(s[i + 2])), 0]
    else if p - i == 1 then [First(D64(s[i]), D64(s[i + 1])), 0, 0]
    else []
  }

  function Skip(s: seq<byte>, i: nat, p: nat): (r: nat)
    requires i <= p < |s|
    ensures i <= r
    decreases p - i
  {
    if D64(s[i]) != -1 then i else if i < p then Skip(s, i + 1, p) else i + 1
  }

  function Unpack(s: seq<byte>, i: nat, p: nat): seq<byte>
    requires i <= p < |s|
    decreases p - i
  {
    if i + 4 < p then
      if D64(s[i]) != -1 then Triple(s, i) + Unpack(s, i + 4, p) else Unpack(s, i + 1, p)
    else Rest(s, Skip(s, i, p), p)
  }

  method TrimEnd(s: seq<byte>) returns (p: nat)
    requires s != []
    ensures p == Trim(s, |s| - 1)
  {
    p := |s| - 1;
    while p != 0 && D64(s[p]) == -1
      invariant p < |s| && Trim(s, p) == Trim(s, |s| - 1)
    {
      p := p - 1;
    }
  }

  method EmitTriple(s: seq<byte>, i: nat, r: array<byte>, j: nat, ghost done: seq<byte>)
    requires i + 3 < |s| && Holds(r, done) && j == |done| && j + 2 < r.Length
    modifies r
    ensures Holds(r, done + Triple(s, i))
  {
    r[j] := First(D64(s[i]), D64(s[i + 1]));
    r[j + 1] := Second(D64(s[i + 1]), D64(s[i + 2]));
    r[j + 2] := Third(D64(s[i + 2]), D64(s[i + 3]));
  }

  method EmitRest(s: seq<byte>, i: nat, p: nat, r: array<byte>, j: nat, ghost done: seq<byte>) returns (len: nat)
    requires p < |s| && Holds(r, done) && j == |done| && (i < p ==> j + 2 < r.Length)
    modifies r
    ensures len == |done + Rest(s, i, p)| && Holds(r, done + Rest(s, i, p))
  {
    len := j;
    if p - i == 3 { r[j + 2] := Third(D64(s[i + 2]), D64(s[i + 3])); }
    if p - i == 3 || p - i == 2 { r[j + 1] := Second(D64(s[i + 1]), D64(s[i + 2])); }
    if p - i == 3 || p - i == 2 || p - i == 1 {
      r[j] := First(D64(s[i]), D64(s[i + 1]));
      len := j + 3;
    }
  }

  method SkipNoise(s: seq<byte>, start: nat, p: nat) returns (i: nat)
    requires start <= p < |s|
    ensures i == Skip(s, start, p)
  {
    i := start;
    while i <= p && D64(s[i]) == -1
      invariant start <= i <= p + 1
      invariant if i <= p then Skip(s, i, p) == Skip(s, start, p) else i == Skip(s, start, p)
    {
      i := i + 1;
    }
  }

  /** The main loop: whole groups are converted, other characters between them are dropped. */
  method DecodeGroups(s: seq<byte>, p: nat, r: array<byte>) returns (i: nat, j: nat, ghost done: seq<byte>)
    requires p < |s| && r.Length == |s| + 1 && Holds(r, [])
    modifies r
    ensures i <= p <= i + 4 && j == |done| && (i < p ==> j + 2 < r.Length)
    ensures Holds(r, done) && Unpack(s, 0, p) == done + Unpack(s, i, p)
  {
    i, j, done := 0, 0, [];
    while i + 4 < p
      invariant i <= p && 4 * j <= 3 * i
      invariant Holds(r, done) && j == |done|
      invariant Unpack(s, 0, p) == done + Unpack(s, i, p)
    {
      if D64(s[i]) != -1 {
        EmitTriple(s, i, r, j, done);
        Append(done, Triple(s, i), Unpack(s, i + 4, p));
        done := done + Triple(s, i);
        i, j := i + 4, j + 3;
      } else {
        i := i + 1;
      }
    }
  }

  lemma Append(x: seq<byte>, y: seq<byte>, z: seq<byte>)
    ensures x + (y + z) == x + y + z
  {
  }

  /** `string_deb64s`: total on every text, and no index leaves the text or the buffer. */
  method Decode(s: seq<byte>) returns (res: Option<seq<byte>>)
    ensures s == [] ==> res == None
    ensures s != [] ==> res == Some(Unpack(s, 0, Trim(s, |s| - 1)))
  {
    if |s| == 0 { return None; }
    var r := new byte[|s| + 1](_ => 0);
    var p := TrimEnd(s);
    var i, j, done := DecodeGroups(s, p, r);
    var k := SkipNoise(s, i, p);
    UnpackEnd(s, i, p);
    ghost var rest := Rest(s, k, p);
    j := EmitRest(s, k, p, r, j, done);
    HeldPrefix(r, done + rest, j);
    res := Some(r[..j]);
  }

  lemma UnpackEnd(s: seq<byte>, i: nat, p: nat)
    requires i <= p < |s| && p <= i + 4
    ensures Unpack(s, i, p) == Rest(s, Skip(s, i, p), p)
  {
  }

  lemma HeldPrefix(r: array<byte>, done: seq<byte>, j: nat)
    requires Holds(r, done) && j == |done|
    ensures r[..j] == done
  {
  }
}
