/**
 * The JavaScript number conversions the parser relies on: `parseInt` (counts,
 * `nrates`), `parseFloat` (frequency, `samp`, `endsamp`, the multiplier and the
 * analog factors `a`, `b`) and `Number` (the implicit conversion in `n - 1`).
 * Numbers are exact: `Val(r)` holds a real, `NaN` is JavaScript's NaN.
 */
module JsNumbers {

  /** A JavaScript number produced by `parseFloat`, `Number` or arithmetic. */
  datatype Num = NaN | Val(r: real)

  /** A JavaScript number produced by `parseInt`: an integer or NaN. */
  datatype ParsedInt = IntNaN | Int(i: int)

  /** `x * y`; NaN is absorbing. */
  function Mul(x: Num, y: Num): (z: Num)
    ensures z.Val? <==> x.Val? && y.Val?
    ensures z.Val? ==> z.r == x.r * y.r
  {
    if x.Val? && y.Val? then Val(x.r * y.r) else NaN
  }

  /** `x + y`; NaN is absorbing. */
  function Add(x: Num, y: Num): (z: Num)
    ensures z.Val? <==> x.Val? && y.Val?
    ensures z.Val? ==> z.r == x.r + y.r
  {
    if x.Val? && y.Val? then Val(x.r + y.r) else NaN
  }

  /** How many times `for (let i = 0; i < count; i++)` runs when `count` came from `parseInt`. */
  function LoopCount(count: ParsedInt): (k: nat)
    ensures count.Int? && count.i >= 0 ==> k == count.i
    ensures count.IntNaN? || count.i <= 0 ==> k == 0
  {
    if count.Int? && count.i > 0 then count.i else 0
  }

  predicate IsDigit(c: char)
  {
    '0' <= c <= '9'
  }

  function DigitValue(c: char): (d: nat)
    requires IsDigit(c)
    ensures d < 10
  {
    (c as int) - ('0' as int)
  }

  function DigitChar(d: nat): (c: char)
    requires d < 10
    ensures IsDigit(c) && DigitValue(c) == d
  {
    ('0' as int + d) as char
  }

  /** The white space that `parseInt`, `parseFloat` and `Number` skip. */
  predicate IsWhiteSpace(c: char)
  {
    c == ' ' || c == '\t' || c == '\n' || c == '\r' || c == '\U{000B}' || c == '\U{000C}'
    || c == '\U{00A0}' || c == '\U{FEFF}' || c == '\U{2028}' || c == '\U{2029}'
    || c == '\U{1680}' || ('\U{2000}' <= c <= '\U{200A}') || c == '\U{202F}' || c == '\U{205F}'
    || c == '\U{3000}'
  }

  /** The first index at or after `i` that does not hold white space. */
  function SkipWhiteSpace(s: string, i: nat): (j: nat)
    requires i <= |s|
    ensures i <= j <= |s|
    ensures j < |s| ==> !IsWhiteSpace(s[j])
    decreases |s| - i
  {
    if i < |s| && IsWhiteSpace(s[i]) then SkipWhiteSpace(s, i + 1) else i
  }

  /** The end of `s[i..j]` once its trailing white space is dropped. */
  function SkipWhiteSpaceBack(s: string, i: nat, j: nat): (e: nat)
    requires i <= j <= |s|
    ensures i <= e <= j
    ensures e > i ==> !IsWhiteSpace(s[e - 1])
    decreases j - i
  {
    if j > i && IsWhiteSpace(s[j - 1]) then SkipWhiteSpaceBack(s, i, j - 1) else j
  }

  /** Everything `SkipWhiteSpace` skips is white space. */
  lemma {:induction false} SkippedWhiteSpace(s: string, i: nat)
    requires i <= |s|
    ensures forall k :: i <= k < SkipWhiteSpace(s, i) ==> IsWhiteSpace(s[k])
    decreases |s| - i
  {
    if i < |s| && IsWhiteSpace(s[i]) {
      SkippedWhiteSpace(s, i + 1);
    }
  }

  /** Everything `SkipWhiteSpaceBack` drops is white space. */
  lemma {:induction false} SkippedWhiteSpaceBack(s: string, i: nat, j: nat)
    requires i <= j <= |s|
    ensures forall k :: SkipWhiteSpaceBack(s, i, j) <= k < j ==> IsWhiteSpace(s[k])
    decreases j - i
  {
    if j > i && IsWhiteSpace(s[j - 1]) {
      SkippedWhiteSpaceBack(s, i, j - 1);
    }
  }

  /** The index just after an optional `'+'` or `'-'` at `i`. */
  function AfterSign(s: string, i: nat): (j: nat)
    requires i <= |s|
    ensures i <= j <= i + 1 && j <= |s|
  {
    if i < |s| && (s[i] == '-' || s[i] == '+') then i + 1 else i
  }

  /** The end of the run of decimal digits that starts at `i`. */
  function DigitsEnd(s: string, i: nat): (j: nat)
    requires i <= |s|
    ensures i <= j <= |s|
    ensures j > i ==> IsDigit(s[i])
    decreases |s| - i
  {
    if i < |s| && IsDigit(s[i]) then DigitsEnd(s, i + 1) else i
  }

  /** The value of the digits `s[i..j]`, most significant first. */
  function DigitsValue(s: string, i: nat, j: nat): nat
    requires i <= j <= |s|
    decreases j - i
  {
    if j == i then 0
    else if IsDigit(s[j - 1]) then 10 * DigitsValue(s, i, j - 1) + DigitValue(s[j - 1])
    else 10 * DigitsValue(s, i, j - 1)
  }

  /** The value of the digits after a decimal point, from `i` on: `"25"` is 0.25; it stops at the first non-digit. */
  function FractionValue(s: string, i: nat): real
    requires i <= |s|
    decreases |s| - i
  {
    if i < |s| && IsDigit(s[i]) then (DigitValue(s[i]) as real + FractionValue(s, i + 1)) / 10.0 else 0.0
  }

  /** `parseInt(s)` in base 10: white space, a sign, then the longest run of digits. */
  function ParseInt(s: string): (r: ParsedInt)
    ensures (forall k :: 0 <= k < |s| ==> !IsDigit(s[k])) ==> r == IntNaN
  {
    var i := SkipWhiteSpace(s, 0);
    var start := AfterSign(s, i);
    var end := DigitsEnd(s, start);
    if end == start then IntNaN
    else if s[i] == '-' then Int(0 - DigitsValue(s, start, end))
    else Int(DigitsValue(s, start, end))
  }

  /**
   * The end of the unsigned decimal literal that starts at `start`: digits,
   * optionally a point and more digits, at least one digit in all; `start`
   * itself when there is none.
   */
  function DecimalEnd(s: string, start: nat): (e: nat)
    requires start <= |s|
    ensures start <= e <= |s|
    ensures e > start ==> IsDigit(s[start]) || (start + 1 < |s| && IsDigit(s[start + 1]))
  {
    var k1 := DigitsEnd(s, start);
    if k1 < |s| && s[k1] == '.' then
      var k2 := DigitsEnd(s, k1 + 1);
      if k1 == start && k2 == k1 + 1 then start else k2
    else k1
  }

  /** The value of the unsigned decimal literal that starts at `start`. */
  function DecimalValue(s: string, start: nat): real
    requires start <= |s|
  {
    var k1 := DigitsEnd(s, start);
    var whole := DigitsValue(s, start, k1) as real;
    if k1 < |s| && s[k1] == '.' then whole + FractionValue(s, k1 + 1) else whole
  }

  /** `parseFloat(s)`: white space, a sign, then the longest decimal literal. */
  function ParseFloat(s: string): (r: Num)
    ensures (forall k :: 0 <= k < |s| ==> !IsDigit(s[k])) ==> r == NaN
  {
    var i := SkipWhiteSpace(s, 0);
    var start := AfterSign(s, i);
    if DecimalEnd(s, start) == start then NaN
    else if s[i] == '-' then Val(-DecimalValue(s, start))
    else Val(DecimalValue(s, start))
  }

  /** `Number(s)`: the whole string, white space trimmed, is a decimal literal; blank text is 0. */
  function ToNumber(s: string): (r: Num)
    ensures (forall k :: 0 <= k < |s| ==> IsWhiteSpace(s[k])) ==> r == Val(0.0)
    ensures (forall k :: 0 <= k < |s| ==> !IsDigit(s[k])) ==> r == NaN || r == Val(0.0)
    ensures (forall k :: 0 <= k < |s| ==> !IsDigit(s[k])) && (exists k :: 0 <= k < |s| && !IsWhiteSpace(s[k]))
            ==> r == NaN
  {
    var i := SkipWhiteSpace(s, 0);
    var e := SkipWhiteSpaceBack(s, i, |s|);
    SkippedWhiteSpace(s, 0);
    SkippedWhiteSpaceBack(s, i, |s|);
    var start := AfterSign(s, i);
    if e == i then Val(0.0)
    else if DecimalEnd(s, start) == start || DecimalEnd(s, start) != e then NaN
    else if s[i] == '-' then Val(-DecimalValue(s, start))
    else Val(DecimalValue(s, start))
  }

  /** Decimal digits of `n` without leading zeros. */
  function NatToDecimal(n: nat): (d: string)
    ensures |d| >= 1
    ensures forall k :: 0 <= k < |d| ==> IsDigit(d[k])
  {
    if n < 10 then [DigitChar(n)] else NatToDecimal(n / 10) + [DigitChar(n % 10)]
  }

  /** Decimal text of `n`, with a leading `'-'` when negative. */
  function IntToDecimal(n: int): string
  {
    if n < 0 then "-" + NatToDecimal(-n) else NatToDecimal(n)
  }

  /** The digits of `n`, found at position `i` of `s`, have the value `n`. */
  lemma {:induction false} DigitsValueOfDecimal(n: nat, s: string, i: nat)
    requires i + |NatToDecimal(n)| <= |s|
    requires forall k :: 0 <= k < |NatToDecimal(n)| ==> s[i + k] == NatToDecimal(n)[k]
    ensures DigitsValue(s, i, i + |NatToDecimal(n)|) == n
  {
    var d := NatToDecimal(n);
    if n >= 10 {
      var prefix := NatToDecimal(n / 10);
      assert d == prefix + [DigitChar(n % 10)];
      forall k | 0 <= k < |prefix| ensures s[i + k] == prefix[k] {
        assert s[i + k] == d[k];
      }
      DigitsValueOfDecimal(n / 10, s, i);
      assert s[i + (|d| - 1)] == d[|d| - 1];
    } else {
      assert s[i + 0] == d[0];
    }
  }

  /** A run of digits from `i` to `j` that is not followed by a digit ends at `j`. */
  lemma {:induction false} DigitsEndOfRun(s: string, i: nat, j: nat)
    requires i <= j <= |s|
    requires forall k :: i <= k < j ==> IsDigit(s[k])
    requires j < |s| ==> !IsDigit(s[j])
    ensures DigitsEnd(s, i) == j
    decreases j - i
  {
    if i < j {
      DigitsEndOfRun(s, i + 1, j);
    }
  }

  /** A string that is an optional `'-'` and a run of digits up to `j` parses, with `parseInt`, to their value. */
  lemma ParseIntOfRun(s: string, start: nat, j: nat)
    requires start <= 1 && start < j <= |s|
    requires start == 1 ==> s[0] == '-'
    requires forall k :: start <= k < j ==> IsDigit(s[k])
    requires j < |s| ==> !IsDigit(s[j])
    ensures ParseInt(s) == Int(if start == 1 then 0 - DigitsValue(s, start, j) else DigitsValue(s, start, j))
  {
    DigitsEndOfRun(s, start, j);
    assert IsDigit(s[start]);
    assert SkipWhiteSpace(s, 0) == 0;
    assert AfterSign(s, 0) == start;
  }

  /** A string that is an optional `'-'` and digits to its end parses, with `parseFloat`, to their value. */
  lemma ParseFloatOfRun(s: string, start: nat)
    requires start <= 1 && start < |s|
    requires start == 1 ==> s[0] == '-'
    requires forall k :: start <= k < |s| ==> IsDigit(s[k])
    ensures ParseFloat(s) == Val(if start == 1 then -(DigitsValue(s, start, |s|) as real)
                                 else DigitsValue(s, start, |s|) as real)
  {
    DigitsEndOfRun(s, start, |s|);
    assert IsDigit(s[start]);
    assert SkipWhiteSpace(s, 0) == 0;
    assert AfterSign(s, 0) == start;
  }

  /**
   * The decimal text of `n`, followed by `rest`, is an optional `'-'` and then a
   * run of digits whose value is the magnitude of `n`, ending where `rest` starts.
   */
  lemma DecimalRun(n: int, rest: string)
    ensures var start := if n < 0 then 1 else 0;
            var end := start + |NatToDecimal(if n < 0 then -n else n)|;
            var s := IntToDecimal(n) + rest;
            && start < end <= |s|
            && end == |IntToDecimal(n)|
            && (start == 1 ==> s[0] == '-')
            && (forall k :: start <= k < end ==> IsDigit(s[k]))
            && (end < |s| ==> s[end] == rest[0])
            && DigitsValue(s, start, end) == (if n < 0 then -n else n)
  {
    var m := if n < 0 then -n else n;
    var d := NatToDecimal(m);
    var sign := if n < 0 then "-" else "";
    var s := IntToDecimal(n) + rest;
    var start := |sign|;
    var end := start + |d|;
    assert IntToDecimal(n) == sign + d;
    assert s == sign + d + rest;
    assert s[start..end] == d;
    assert s[end..] == rest;
    forall k | 0 <= k < |d|
      ensures s[start + k] == d[k] && IsDigit(s[start + k])
    {
      assert s[start..end][k] == s[start + k];
    }
    forall k | start <= k < end
      ensures IsDigit(s[k])
    {
      assert s[start + (k - start)] == d[k - start];
    }
    if end < |s| {
      assert s[end..][0] == s[end];
    }
    DigitsValueOfDecimal(m, s, start);
  }

  /**
   * `parseInt` reads back the decimal text of any integer, whatever follows it
   * as long as that does not start with a digit.
   */
  lemma ParseIntOfDecimal(n: int, rest: string)
    requires |rest| > 0 ==> !IsDigit(rest[0])
    ensures ParseInt(IntToDecimal(n) + rest) == Int(n)
  {
    var start := if n < 0 then 1 else 0;
    DecimalRun(n, rest);
    ParseIntOfRun(IntToDecimal(n) + rest, start, |IntToDecimal(n)|);
  }

  /** `Number` reads back the decimal text of any natural number. */
  lemma ToNumberOfDecimal(n: nat)
    ensures ToNumber(NatToDecimal(n)) == Val(n as real)
  {
    DecimalDigitsValue(n);
    ToNumberOfRun(NatToDecimal(n));
  }

  /** The digits of `n` have the value `n`. */
  lemma DecimalDigitsValue(n: nat)
    ensures DigitsValue(NatToDecimal(n), 0, |NatToDecimal(n)|) == n
  {
    DigitsValueOfDecimal(n, NatToDecimal(n), 0);
  }

  /** A non-empty string of digits is, for `Number`, the value of its digits. */
  lemma ToNumberOfRun(d: string)
    requires |d| >= 1
    requires forall k :: 0 <= k < |d| ==> IsDigit(d[k])
    ensures ToNumber(d) == Val(DigitsValue(d, 0, |d|) as real)
  {
    DigitsEndOfRun(d, 0, |d|);
    assert IsDigit(d[0]) && IsDigit(d[|d| - 1]);
    assert SkipWhiteSpace(d, 0) == 0;
    assert SkipWhiteSpaceBack(d, 0, |d|) == |d|;
    assert AfterSign(d, 0) == 0;
    assert DecimalEnd(d, 0) == |d|;
  }

  /** `parseFloat` reads back the decimal text of any integer. */
  lemma ParseFloatOfDecimal(n: int)
    ensures ParseFloat(IntToDecimal(n)) == Val(n as real)
  {
    DecimalRun(n, "");
    assert IntToDecimal(n) + "" == IntToDecimal(n);
    ParseFloatOfRun(IntToDecimal(n), if n < 0 then 1 else 0);
  }
}
