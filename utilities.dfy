/** Byte and string helpers of the gateway (`js/lib/utilities.js`).
    A JavaScript value that may be `null`/`undefined` is an `Option`; where
    the code only tests truthiness of a string, the empty string stands for
    every falsy value. */
module Utilities {
  import opened Prelude

  // -----------------------------------------------------------------------
  // bufferCompare

  /** Equality of two optional buffers that never stops early: the loop
      compares every index of `left`, and `steps` counts the comparisons. */
  method BufferCompare(left: Option<seq<byte>>, right: Option<seq<byte>>)
    returns (same: bool, ghost steps: nat)
    ensures left.None? && right.None? ==> same
    ensures left.None? != right.None? ==> !same
    ensures left.Some? && right.Some? ==>
      (same <==> left.value == right.value) && steps == |left.value|
  {
    if left.None? && right.None? {
      return true, 0;
    } else if left.None? || right.None? {
      return false, 0;
    }
    var l, r := left.value, right.value;
    same := |l| == |r|;
    var i := 0;
    steps := 0;
    while i < |l|
      invariant 0 <= i <= |l| && steps == i
      invariant same <==> |l| == |r| && forall j :: 0 <= j < i ==> l[j] == r[j]
    {
      var eq := i < |r| && l[i] == r[i];
      same := same && eq;
      i := i + 1;
      steps := steps + 1;
    }
    assert same ==> l == r;
  }

  // -----------------------------------------------------------------------
  // toHexString / bufferToHexString

  /** `toHexString`: base-16 digits, with a '0' in front only below 10. */
  function ToHexString(val: nat): (r: string)
  {
    (if val < 10 then "0" else "") + NatToHex(val)
  }

  /** What `toHexString` produces: two characters below 10, the bare digits
      from 10 on, so exactly one character for 10..15. */
  lemma ToHexStringShape(val: nat)
    ensures val < 10 ==> ToHexString(val) == ['0', HexDigit(val)]
    ensures val >= 10 ==> ToHexString(val) == NatToHex(val)
    ensures |ToHexString(val)| == 1 <==> 10 <= val < 16
    ensures |ToHexString(val)| == 2 <==> val < 10 || 16 <= val < 256
  {
    if 16 <= val {
      assert NatToHex(val) == NatToHex(val / 16) + [HexDigit(val % 16)];
      assert val < 256 ==> |NatToHex(val / 16)| == 1;
      assert val >= 256 ==> |NatToHex(val / 16)| >= 2;
    }
  }

  /** `toHexString` agrees with the two-digit rendering of a byte (the one
      `Buffer.toString('hex')` produces) exactly outside 10..15. */
  lemma ToHexStringVersusByteHex(b: byte)
    ensures ToHexString(b as nat) == ByteHex(b) <==> !(10 <= b < 16)
  {
    ToHexStringShape(b as nat);
    if 16 <= b {
      assert NatToHex(b as nat) == NatToHex(b as nat / 16) + [HexDigit(b as nat % 16)];
    }
  }

  /** Counterexample: token 10 is keyed as "a" but its two-digit rendering
      is "0a". */
  lemma ToHexStringOfTen()
    ensures ToHexString(10) == "a"
    ensures ByteHex(10) == "0a"
  {
  }

  /** The intended rendering of a one-byte value: always two digits, and
      different values give different strings. */
  function PaddedHexString(b: byte): (r: string)
    ensures |r| == 2
    ensures r == ByteHex(b)
    ensures forall c: byte :: ByteHex(c) == r ==> c == b
  {
    assert forall c: byte {:trigger ByteHex(c)} :: ByteHex(c) == ByteHex(b) ==> c == b by {
      forall c: byte | ByteHex(c) == ByteHex(b) {
        ByteHexInjective(c, b);
      }
    }
    ByteHex(b)
  }

  /** The concatenation `bufferToHexString` builds: each byte rendered by
      `toHexString`. */
  function HexJoin(bs: seq<byte>): (r: string)
  {
    if bs == [] then "" else HexJoin(bs[..|bs| - 1]) + ToHexString(bs[|bs| - 1] as nat)
  }

  method BufferToHexString(buf: Option<seq<byte>>) returns (r: Option<string>)
    ensures buf.None? || buf.value == [] ==> r.None?
    ensures buf.Some? && buf.value != [] ==> r == Some(HexJoin(buf.value))
  {
    if buf.None? || |buf.value| <= 0 {
      return None;
    }
    var bs := buf.value;
    var acc := "";
    for i := 0 to |bs|
      invariant acc == HexJoin(bs[..i])
    {
      if bs[i] < 10 {
        acc := acc + "0";
      }
      acc := acc + NatToHex(bs[i] as nat);
      assert bs[..i + 1][..i] == bs[..i];
    }
    assert bs[..|bs|] == bs;
    return Some(acc);
  }

  /** Two different buffers with the same rendering. */
  lemma HexJoinCollides()
    ensures HexJoin([0x0a, 0xbc]) == HexJoin([0xab, 0x0c]) == "abc"
  {
    var x: seq<byte> := [0x0a, 0xbc];
    var y: seq<byte> := [0xab, 0x0c];
    assert x[..1] == [0x0a] && y[..1] == [0xab];
    assert [0x0a][..0] == [] && [0xab][..0] == [];
    assert NatToHex(0xbc) == "bc" && NatToHex(0xab) == "ab";
  }

  lemma {:induction false} HexJoinIsBufferHex(bs: seq<byte>)
    requires forall i :: 0 <= i < |bs| ==> !(10 <= bs[i] < 16)
    ensures HexJoin(bs) == BufferHex(bs)
  {
    if bs != [] {
      var init := bs[..|bs| - 1];
      HexJoinIsBufferHex(init);
      ToHexStringVersusByteHex(bs[|bs| - 1]);
      BufferHexSnoc(init, bs[|bs| - 1]);
      assert init + [bs[|bs| - 1]] == bs;
    }
  }

  lemma {:induction false} BufferHexSnoc(bs: seq<byte>, b: byte)
    ensures BufferHex(bs + [b]) == BufferHex(bs) + ByteHex(b)
  {
    if bs == [] {
      assert [] + [b] == [b];
    } else {
      assert (bs + [b])[1..] == bs[1..] + [b];
      BufferHexSnoc(bs[1..], b);
    }
  }

  // -----------------------------------------------------------------------
  // arrayContainsLower

  /** An element matches when it is a non-empty string equal to `str`
      ignoring case. */
  predicate LowerMatch(key: Option<string>, str: string)
  {
    key.Some? && key.value != "" && ToLower(key.value) == ToLower(str)
  }

  method ArrayContainsLower(arr: Option<seq<Option<string>>>, str: string) returns (found: bool)
    ensures found <==> arr.Some? && exists i :: 0 <= i < |arr.value| && LowerMatch(arr.value[i], str)
  {
    if arr.None? || |arr.value| == 0 {
      return false;
    }
    var a := arr.value;
    var lower := ToLower(str);
    var i := 0;
    while i < |a|
      invariant 0 <= i <= |a|
      invariant forall j :: 0 <= j < i ==> !LowerMatch(a[j], str)
    {
      var key := a[i];
      if key.None? || key.value == "" {
        i := i + 1;
        continue;
      }
      if ToLower(key.value) == lower {
        return true;
      }
      i := i + 1;
    }
    return false;
  }

  // -----------------------------------------------------------------------
  // endsWith

  /** `endsWith` as written: compares the FIRST occurrence of `sub` with the
      position a suffix would have. */
  function EndsWith(str: string, sub: string): (r: bool)
    ensures r <==> (str != "" && sub != "" &&
      (|sub| == |str| + 1 ||
       (|sub| <= |str| && str[|str| - |sub|..] == sub &&
        forall j :: 0 <= j < |str| - |sub| ==> !OccursAt(str, sub, j))))
  {
    if str == "" || sub == "" then false
    else
      var idx := IndexOfSeq(str, sub);
      assert |sub| <= |str| && str[|str| - |sub|..] == sub ==> OccursAt(str, sub, |str| - |sub|);
      assert |sub| > |str| ==> idx == -1 by {
        if |sub| > |str| {
          assert forall j :: 0 <= j <= |str| ==> !OccursAt(str, sub, j);
        }
      }
      idx == |str| - |sub|
  }

  /** Counterexamples: a search string one longer than the string is
      reported as a suffix, and a suffix that also occurs earlier is not. */
  lemma EndsWithCounterexamples()
    ensures EndsWith("ab", "abc")
    ensures !EndsWith("abab", "ab")
  {
    assert OccursAt("abab", "ab", 0) by { assert "abab"[0..2] == "ab"; }
  }

  /** `endsWith` as intended: locate the LAST occurrence instead. */
  function EndsWithSuffix(str: string, sub: string): (r: bool)
    ensures r <==> str != "" && sub != "" && |sub| <= |str| && str[|str| - |sub|..] == sub
  {
    if str == "" || sub == "" then false
    else
      var idx := LastIndexOfSeq(str, sub);
      assert |sub| <= |str| && str[|str| - |sub|..] == sub ==> OccursAt(str, sub, |str| - |sub|);
      idx >= 0 && idx == |str| - |sub|
  }

  // -----------------------------------------------------------------------
  // getFilenameExt / filenameNoExt

  /** The extension from the last '.' on, or the whole name without one. */
  function GetFilenameExt(filename: Option<string>): (r: Option<string>)
  {
    match filename
    case None => None
    case Some(f) =>
      if |f| == 0 then filename
      else
        var idx := LastIndexOf(f, '.');
        if idx >= 0 then Some(f[idx..]) else filename
  }

  /** The name up to the last '.', or the whole name without one. */
  function FilenameNoExt(filename: Option<string>): (r: Option<string>)
  {
    match filename
    case None => None
    case Some(f) =>
      if |f| == 0 then filename
      else
        var idx := LastIndexOf(f, '.');
        if idx >= 0 then Some(f[..idx]) else filename
  }

  /** With a '.', the two halves put back together give the name and the
      extension starts at the last '.'; without one, both return the name. */
  lemma FilenameSplit(filename: Option<string>)
    ensures filename.None? ==> GetFilenameExt(filename).None? && FilenameNoExt(filename).None?
    ensures filename.Some? && '.' in filename.value ==>
      var ext := GetFilenameExt(filename).value;
      FilenameNoExt(filename).value + ext == filename.value &&
      ext[0] == '.' && '.' !in ext[1..]
    ensures filename.Some? && '.' !in filename.value ==>
      GetFilenameExt(filename) == filename && FilenameNoExt(filename) == filename
  {
    if filename.Some? && '.' in filename.value {
      var f := filename.value;
      var idx := LastIndexOf(f, '.');
      assert f[..idx] + f[idx..] == f;
      assert forall j :: 0 <= j < |f[idx..][1..]| ==> f[idx..][1..][j] == f[idx + 1 + j];
    }
  }

  // -----------------------------------------------------------------------
  // leftHasRightFilter

  /** The JavaScript values a filter entry can hold.  Numbers are integers,
      and an object is known only by its reference. */
  datatype JsValue = Undefined | Null | Boolean(b: bool) | Number(n: int) | Str(s: string) | Object(ref: nat)

  predicate IsDigit(c: char) { '0' <= c <= '9' }

  /** The value of a string of decimal digits. */
  function DigitsValue(s: string): (r: nat)
    requires forall i :: 0 <= i < |s| ==> IsDigit(s[i])
    ensures s == [] ==> r == 0
    ensures |s| > 0 ==> r == 10 * DigitsValue(s[..|s| - 1]) + (s[|s| - 1] as int - '0' as int)
    decreases |s|
  {
    if s == [] then 0
    else
      assert IsDigit(s[|s| - 1]);
      10 * DigitsValue(s[..|s| - 1]) + (s[|s| - 1] as int - '0' as int)
  }

  /** `Number(s)` for a string; `None` is NaN.  The empty string is 0 and an
      optionally signed run of decimal digits is its value. */
  function StringToNumber(s: string): (r: Option<int>)
    ensures s == "" ==> r == Some(0)
    ensures r.Some? && s != "" ==> IsDigit(s[|s| - 1])
    ensures r.Some? && s != "" && !IsDigit(s[0]) ==> |s| > 1 && (s[0] == '-' || s[0] == '+')
  {
    if s == "" then Some(0)
    else if forall i :: 0 <= i < |s| ==> IsDigit(s[i]) then Some(DigitsValue(s))
    else if |s| > 1 && (s[0] == '-' || s[0] == '+') && forall i :: 1 <= i < |s| ==> IsDigit(s[i]) then
      var v: int := DigitsValue(s[1..]);
      Some(if s[0] == '-' then -v else v)
    else None
  }

  /** A boolean operand of `==` becomes the number 0 or 1. */
  function BooleanToNumber(x: JsValue): (r: JsValue)
    ensures !r.Boolean?
    ensures !x.Boolean? ==> r == x
    ensures x.Boolean? ==> r == Number(if x.b then 1 else 0)
  {
    if x.Boolean? then Number(if x.b then 1 else 0) else x
  }

  predicate IsNullish(x: JsValue) { x.Undefined? || x.Null? }

  /** JavaScript's abstract equality `x == y`: `undefined` and `null` equal
      each other and nothing else, a boolean compares as 0 or 1, a string
      compared with a number is converted to a number, strings compare by
      their characters and objects by reference. */
  function LooseEquals(x: JsValue, y: JsValue): (r: bool)
    ensures IsNullish(x) ==> (r <==> IsNullish(y))
    ensures x.Str? && y.Str? ==> (r <==> x.s == y.s)
    ensures x.Object? && y.Object? ==> (r <==> x.ref == y.ref)
  {
    if IsNullish(x) || IsNullish(y) then IsNullish(x) && IsNullish(y)
    else
      var a := BooleanToNumber(x);
      var b := BooleanToNumber(y);
      match (a, b)
      case (Number(m), Number(n)) => m == n
      case (Str(s), Str(t)) => s == t
      case (Number(m), Str(t)) => StringToNumber(t) == Some(m)
      case (Str(s), Number(n)) => StringToNumber(s) == Some(n)
      case (Object(p), Object(q)) => p == q
      case _ => false
  }

  /** `==` does not depend on the order of its operands. */
  lemma LooseEqualsSymmetric(x: JsValue, y: JsValue)
    ensures LooseEquals(x, y) == LooseEquals(y, x)
  {
  }

  /** `==` is not transitive: `"" == 0` and `0 == "0"`, yet `"" != "0"`. */
  lemma LooseEqualsNotTransitive()
    ensures LooseEquals(Str(""), Number(0)) && LooseEquals(Number(0), Str("0"))
    ensures !LooseEquals(Str(""), Str("0"))
  {
    assert forall i :: 0 <= i < |"0"| ==> IsDigit("0"[i]);
    assert DigitsValue("0") == 10 * DigitsValue("") + 0;
  }

  /** Coercions the filter performs: `1 == "1"`, `true == 1`, and a missing
      property (read as `undefined`) matches `null`. */
  lemma LooseEqualsCoerces()
    ensures LooseEquals(Number(1), Str("1"))
    ensures LooseEquals(Boolean(true), Number(1))
    ensures !LooseEquals(Boolean(true), Str("true"))
    ensures LooseEquals(Get(map[], "k"), Null)
  {
    assert forall i :: 0 <= i < |"1"| ==> IsDigit("1"[i]);
    assert DigitsValue("1") == 10 * DigitsValue("") + 1;
  }

  /** `obj[prop]`: a missing property reads as `undefined`. */
  function Get(obj: map<string, JsValue>, prop: string): (r: JsValue)
    ensures prop !in obj ==> r == Undefined
    ensures prop in obj ==> r == obj[prop]
  {
    if prop in obj then obj[prop] else Undefined
  }

  /** `leftHasRightFilter`.  `None` stands for the TypeError raised when
      `left` is absent and `right` has a key to look up.  The source folds
      with `&=`, which yields 1 or 0; `Some(b)` is that result's truth. */
  method LeftHasRightFilter(left: Option<map<string, JsValue>>, right: Option<map<string, JsValue>>)
    returns (r: Option<bool>)
    ensures r.None? <==> left.None? && right.Some? && |right.value| > 0
    ensures r == Some(true) <==>
      || right.None?
      || (left.Some? && forall k :: k in right.value ==> LooseEquals(Get(left.value, k), right.value[k]))
      || (left.None? && right.value == map[])
  {
    if left.None? && right.None? {
      return Some(true);
    }
    if right.None? {
      return Some(true);
    }
    var rt := right.value;
    if left.None? {
      if rt.Keys != {} {
        return None;
      }
      assert rt == map[];
      return Some(true);
    }
    var lt := left.value;
    var matches := true;
    var todo := rt.Keys;
    while todo != {}
      invariant todo <= rt.Keys
      invariant matches <==> forall k :: k in rt.Keys - todo ==> LooseEquals(Get(lt, k), rt[k])
      decreases todo
    {
      var prop :| prop in todo;
      var eq := LooseEquals(Get(lt, prop), rt[prop]);
      matches := matches && eq;
      todo := todo - {prop};
    }
    return Some(matches);
  }
}
