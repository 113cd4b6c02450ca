/** Values and JavaScript built-ins that the gateway's code relies on:
    bytes, optional values, `String.prototype.indexOf` / `lastIndexOf`,
    `toLowerCase`, `Number.prototype.toString(16)`, `Buffer.toString('hex')`
    and UTF-8 encoding.  Each built-in is given together with the
    properties the modules below rely on. */
module Prelude {

  /** An octet, as stored in a Node.js `Buffer`. */
  newtype byte = x: int | 0 <= x < 256

  datatype Option<T> = None | Some(value: T)

  datatype Result<T, E> = Ok(value: T) | Err(error: E)

  function Min(a: int, b: int): int { if a <= b then a else b }

  /** Division with remainder is unique: `q * m + r` with `0 <= r < m`
      has quotient `q` and remainder `r`. */
  lemma DivModOfSum(x: int, q: int, r: int, m: int)
    requires m > 0 && 0 <= r < m && x == q * m + r
    ensures x / m == q && x % m == r
  {
    var q2 := x / m;
    var r2 := x % m;
    assert x == q2 * m + r2;
    var d := q - q2;
    assert d * m == q * m - q2 * m;
    assert d * m == r2 - r;
  }

  /** Bitwise exclusive or of the low `width` bits of two numbers. */
  function BitXor(a: nat, b: nat, width: nat): (r: nat)
    ensures r < Pow2(width)
  {
    if width == 0 then 0
    else (if a % 2 == b % 2 then 0 else 1) + 2 * BitXor(a / 2, b / 2, width - 1)
  }

  function Pow2(n: nat): (r: nat)
    ensures r >= 1
  {
    if n == 0 then 1 else 2 * Pow2(n - 1)
  }

  lemma {:induction false} BitXorCancels(a: nat, b: nat, width: nat)
    requires a < Pow2(width)
    ensures BitXor(BitXor(a, b, width), b, width) == a
  {
    if width > 0 {
      var bit := if a % 2 == b % 2 then 0 else 1;
      var rest := BitXor(a / 2, b / 2, width - 1);
      var r := BitXor(a, b, width);
      assert r == bit + 2 * rest;
      assert r % 2 == bit && r / 2 == rest;
      BitXorCancels(a / 2, b / 2, width - 1);
    }
  }

  /** Bitwise exclusive or of two octets. */
  function Xor(a: byte, b: byte): (r: byte)
  {
    assert Pow2(8) == 256;
    BitXor(a as nat, b as nat, 8) as byte
  }

  lemma XorCancels(a: byte, b: byte)
    ensures Xor(Xor(a, b), b) == a
  {
    assert Pow2(8) == 256;
    BitXorCancels(a as nat, b as nat, 8);
  }

  function Flatten<T>(chunks: seq<seq<T>>): (r: seq<T>)
  {
    if chunks == [] then [] else chunks[0] + Flatten(chunks[1..])
  }

  lemma {:induction false} FlattenAppend<T>(a: seq<seq<T>>, b: seq<seq<T>>)
    ensures Flatten(a + b) == Flatten(a) + Flatten(b)
  {
    if a == [] {
      assert a + b == b;
    } else {
      assert (a + b)[1..] == a[1..] + b;
      FlattenAppend(a[1..], b);
    }
  }

  lemma FlattenSplit<T>(chunks: seq<seq<T>>, n: nat)
    requires n <= |chunks|
    ensures Flatten(chunks) == Flatten(chunks[..n]) + Flatten(chunks[n..])
  {
    assert chunks == chunks[..n] + chunks[n..];
    FlattenAppend(chunks[..n], chunks[n..]);
  }

  // ---------------------------------------------------------------------
  // String.prototype.indexOf / lastIndexOf

  /** `s.indexOf(x)` for a single element: the first position of `x`, or -1. */
  function IndexOf<T(==)>(s: seq<T>, x: T): (r: int)
    ensures -1 <= r < |s|
    ensures r >= 0 ==> s[r] == x && forall j :: 0 <= j < r ==> s[j] != x
    ensures r == -1 <==> x !in s
  {
    if |s| == 0 then -1
    else if s[0] == x then 0
    else
      var k := IndexOf(s[1..], x);
      assert x in s[1..] ==> x in s;
      assert forall j :: 1 <= j < |s| ==> s[j] == s[1..][j - 1];
      if k < 0 then -1 else k + 1
  }

  /** `s.lastIndexOf(x)`: the last position of `x`, or -1. */
  function LastIndexOf<T(==)>(s: seq<T>, x: T): (r: int)
    ensures -1 <= r < |s|
    ensures r >= 0 ==> s[r] == x && forall j :: r < j < |s| ==> s[j] != x
    ensures r == -1 <==> x !in s
  {
    if |s| == 0 then -1
    else if s[|s| - 1] == x then |s| - 1
    else
      var k := LastIndexOf(s[..|s| - 1], x);
      assert forall j :: 0 <= j < |s| - 1 ==> s[j] == s[..|s| - 1][j];
      k
  }

  /** True when `sub` occurs in `s` at position `i`. */
  predicate OccursAt<T(==)>(s: seq<T>, sub: seq<T>, i: int)
  {
    0 <= i && i + |sub| <= |s| && s[i..i + |sub|] == sub
  }

  function IndexOfSeqFrom<T(==)>(s: seq<T>, sub: seq<T>, from: nat): (r: int)
    requires from <= |s|
    ensures r == -1 || (from <= r && OccursAt(s, sub, r))
    ensures r == -1 ==> forall j :: from <= j <= |s| ==> !OccursAt(s, sub, j)
    ensures r >= 0 ==> forall j :: from <= j < r ==> !OccursAt(s, sub, j)
    decreases |s| - from
  {
    if from + |sub| > |s| then -1
    else if s[from..from + |sub|] == sub then from
    else if from == |s| then -1
    else IndexOfSeqFrom(s, sub, from + 1)
  }

  /** `s.indexOf(sub)` for a non-empty search string: first occurrence or -1. */
  function IndexOfSeq<T(==)>(s: seq<T>, sub: seq<T>): (r: int)
    ensures r == -1 || OccursAt(s, sub, r)
    ensures r == -1 <==> forall j :: 0 <= j <= |s| ==> !OccursAt(s, sub, j)
    ensures r >= 0 ==> forall j :: 0 <= j < r ==> !OccursAt(s, sub, j)
  {
    IndexOfSeqFrom(s, sub, 0)
  }

  function LastIndexOfSeqFrom<T(==)>(s: seq<T>, sub: seq<T>, upTo: int): (r: int)
    requires upTo <= |s|
    ensures r == -1 || (r <= upTo && OccursAt(s, sub, r))
    ensures r == -1 ==> forall j :: 0 <= j <= upTo ==> !OccursAt(s, sub, j)
    ensures r >= 0 ==> forall j :: r < j <= upTo ==> !OccursAt(s, sub, j)
    decreases upTo + 1
  {
    if upTo < 0 then -1
    else if OccursAt(s, sub, upTo) then upTo
    else LastIndexOfSeqFrom(s, sub, upTo - 1)
  }

  /** `s.lastIndexOf(sub)`: last occurrence or -1. */
  function LastIndexOfSeq<T(==)>(s: seq<T>, sub: seq<T>): (r: int)
    ensures r == -1 || OccursAt(s, sub, r)
    ensures r == -1 <==> forall j :: 0 <= j <= |s| ==> !OccursAt(s, sub, j)
    ensures r >= 0 ==> forall j :: r < j <= |s| ==> !OccursAt(s, sub, j)
  {
    LastIndexOfSeqFrom(s, sub, |s|)
  }

  /** `s.substr(0, n)` with JavaScript's clamping of the length. */
  function Substr0(s: string, n: int): (r: string)
    ensures |r| == if n <= 0 then 0 else Min(n, |s|)
    ensures r <= s
  {
    if n <= 0 then "" else if n >= |s| then s else s[..n]
  }

  /** `s.substr(start)` (to the end) with clamping. */
  function SubstrFrom(s: string, start: nat): (r: string)
    ensures start <= |s| ==> r == s[start..]
    ensures start > |s| ==> r == ""
  {
    if start >= |s| then "" else s[start..]
  }

  // ---------------------------------------------------------------------
  // toLowerCase (ASCII letters only)

  function ToLowerChar(c: char): (r: char)
    ensures 'A' <= c <= 'Z' ==> r as int == c as int + 32
    ensures !('A' <= c <= 'Z') ==> r == c
  {
    if 'A' <= c <= 'Z' then (c as int + 32) as char else c
  }

  function ToLower(s: string): (r: string)
    ensures |r| == |s|
    ensures forall i :: 0 <= i < |s| ==> r[i] == ToLowerChar(s[i])
  {
    if s == [] then [] else [ToLowerChar(s[0])] + ToLower(s[1..])
  }

  // ---------------------------------------------------------------------
  // Number rendering

  function HexDigit(d: nat): (c: char)
    requires d < 16
  {
    "0123456789abcdef"[d]
  }

  lemma HexDigitInjective(a: nat, b: nat)
    requires a < 16 && b < 16 && HexDigit(a) == HexDigit(b)
    ensures a == b
  {
  }

  /** `n.toString(16)`: base-16 digits without leading zeros. */
  function NatToHex(n: nat): (r: string)
    ensures 1 <= |r|
    ensures n < 16 <==> |r| == 1
    decreases n
  {
    if n < 16 then [HexDigit(n)] else NatToHex(n / 16) + [HexDigit(n % 16)]
  }

  /** `n.toString()`: decimal digits without leading zeros. */
  function NatToDecimal(n: nat): (r: string)
    ensures 1 <= |r|
    ensures '/' !in r
    decreases n
  {
    if n < 10 then ["0123456789"[n]] else NatToDecimal(n / 10) + ["0123456789"[n % 10]]
  }

  lemma {:induction false} NatToDecimalInjective(a: nat, b: nat)
    requires NatToDecimal(a) == NatToDecimal(b)
    ensures a == b
    decreases a
  {
    var ra, rb := NatToDecimal(a), NatToDecimal(b);
    if a >= 10 && b >= 10 {
      var pa, pb := NatToDecimal(a / 10), NatToDecimal(b / 10);
      assert ra == pa + ["0123456789"[a % 10]] && rb == pb + ["0123456789"[b % 10]];
      assert pa == ra[..|ra| - 1] && pb == rb[..|rb| - 1];
      assert ra[|ra| - 1] == rb[|rb| - 1];
      NatToDecimalInjective(a / 10, b / 10);
    }
  }

  /** One byte as `Buffer.toString('hex')` renders it: always two digits. */
  function ByteHex(b: byte): (r: string)
    ensures |r| == 2
  {
    [HexDigit(b as int / 16), HexDigit(b as int % 16)]
  }

  lemma ByteHexInjective(a: byte, b: byte)
    requires ByteHex(a) == ByteHex(b)
    ensures a == b
  {
    HexDigitInjective(a as int / 16, b as int / 16);
    HexDigitInjective(a as int % 16, b as int % 16);
  }

  /** `Buffer.toString('hex')`. */
  function BufferHex(bs: seq<byte>): (r: string)
    ensures |r| == 2 * |bs|
  {
    if bs == [] then "" else ByteHex(bs[0]) + BufferHex(bs[1..])
  }

  /** Different buffers have different hex renderings. */
  lemma {:induction false} BufferHexInjective(a: seq<byte>, b: seq<byte>)
    requires BufferHex(a) == BufferHex(b)
    ensures a == b
    decreases |a|
  {
    if a != [] {
      var ra, rb := BufferHex(a), BufferHex(b);
      assert ra[..2] == ByteHex(a[0]) && rb[..2] == ByteHex(b[0]);
      assert ra[2..] == BufferHex(a[1..]) && rb[2..] == BufferHex(b[1..]);
      ByteHexInjective(a[0], b[0]);
      BufferHexInjective(a[1..], b[1..]);
      assert a == [a[0]] + a[1..] && b == [b[0]] + b[1..];
    }
  }

  // ---------------------------------------------------------------------
  // UTF-8 (what `new Buffer(str)` and `BufferBuilder.pushString` produce)

  function Utf8Char(c: char): (r: seq<byte>)
    ensures 1 <= |r| <= 4
  {
    var v := c as int;
    if v < 0x80 then [v as byte]
    else if v < 0x800 then [(0xC0 + v / 64) as byte, (0x80 + v % 64) as byte]
    else if v < 0x10000 then
      [(0xE0 + v / 4096) as byte, (0x80 + (v / 64) % 64) as byte, (0x80 + v % 64) as byte]
    else
      [(0xF0 + (v / 262144) % 8) as byte, (0x80 + (v / 4096) % 64) as byte,
       (0x80 + (v / 64) % 64) as byte, (0x80 + v % 64) as byte]
  }

  function Utf8(s: string): (r: seq<byte>)
    ensures |r| >= |s|
  {
    if s == [] then [] else Utf8Char(s[0]) + Utf8(s[1..])
  }

  lemma Utf8Append(a: string, b: string)
    ensures Utf8(a + b) == Utf8(a) + Utf8(b)
  {
    if a != [] {
      assert (a + b)[1..] == a[1..] + b;
      Utf8Append(a[1..], b);
    } else {
      assert a + b == b;
    }
  }
}
