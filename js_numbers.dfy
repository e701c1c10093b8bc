/**
 * JavaScript's `parseInt` (without a radix argument) and the digit runs found by
 * the regular expression `/\d+/g`. A `NaN` result is `None`; negative zero is
 * not distinguished from zero.
 */
module JsNumber {
  import opened Wrappers
  import opened JsString

  predicate IsDigit(c: char) {
    '0' <= c <= '9'
  }

  predicate AllDigits(s: string) {
    forall i :: 0 <= i < |s| ==> IsDigit(s[i])
  }

  predicate IsHexDigit(c: char) {
    IsDigit(c) || 'a' <= c <= 'f' || 'A' <= c <= 'F'
  }

  function DigitValue(c: char): (v: nat)
    requires IsHexDigit(c)
    ensures v < 16
    ensures IsDigit(c) ==> v < 10
  {
    if IsDigit(c) then c as int - '0' as int
    else if 'a' <= c <= 'f' then c as int - 'a' as int + 10
    else c as int - 'A' as int + 10
  }

  /** The value of a string of digits in base `radix`, most significant first. */
  function DigitsValue(s: string, radix: nat): nat
    requires forall i :: 0 <= i < |s| ==> IsHexDigit(s[i])
  {
    if s == [] then 0 else DigitsValue(s[..|s| - 1], radix) * radix + DigitValue(s[|s| - 1])
  }

  /** The longest prefix of `s` whose characters satisfy `IsDigit` (radix 10) or `IsHexDigit` (radix 16). */
  function DigitPrefix(s: string, hex: bool): (r: string)
    ensures r <= s
    ensures forall i :: 0 <= i < |r| ==> (if hex then IsHexDigit(r[i]) else IsDigit(r[i]))
    ensures |r| < |s| ==> !(if hex then IsHexDigit(s[|r|]) else IsDigit(s[|r|]))
  {
    if s != [] && (if hex then IsHexDigit(s[0]) else IsDigit(s[0])) then
      [s[0]] + DigitPrefix(s[1..], hex)
    else []
  }

  /** `parseInt(s)`: leading white space skipped, an optional sign, an optional
      `0x`/`0X` prefix selecting base 16, then the longest run of digits; no digit
      at all gives `NaN`. */
  function ParseInt(s: string): (r: Option<int>)
  {
    var t := TrimStart(s);
    var negative := t != [] && t[0] == '-';
    var u := if t != [] && (t[0] == '-' || t[0] == '+') then t[1..] else t;
    var hex := |u| >= 2 && u[0] == '0' && (u[1] == 'x' || u[1] == 'X');
    var body := if hex then u[2..] else u;
    var digits := DigitPrefix(body, hex);
    if digits == [] then None
    else
      var v: int := DigitsValue(digits, if hex then 16 else 10);
      Some(if negative then -v else v)
  }

  /** `typeof r === 'number' && !isNaN(r)` after `parseInt`: defined exactly when a digit
      follows the white space, sign and radix prefix. */
  lemma ParseIntDefinedIff(s: string)
    ensures ParseInt(s).Some? <==>
      var t := TrimStart(s);
      var u := if t != [] && (t[0] == '-' || t[0] == '+') then t[1..] else t;
      if |u| >= 2 && u[0] == '0' && (u[1] == 'x' || u[1] == 'X') then |u| > 2 && IsHexDigit(u[2])
      else u != [] && IsDigit(u[0])
  {
  }

  /** A decimal number written out by `NatToString` has the value it was written from. */
  lemma {:induction false} DecimalRoundTrip(n: nat)
    ensures DigitsValue(NatToString(n), 10) == n
  {
    if n >= 10 {
      DecimalRoundTrip(n / 10);
      var s := NatToString(n);
      assert s[..|s| - 1] == NatToString(n / 10);
    }
  }

  /** Once only digits remain, the digit prefix is the whole string. */
  lemma {:induction false} DigitPrefixAll(s: string)
    requires AllDigits(s)
    ensures DigitPrefix(s, false) == s
  {
    if s != [] {
      DigitPrefixAll(s[1..]);
    }
  }

  /** `parseInt(String(n)) === n` for every non-negative integer `n`. */
  lemma ParseIntNatToString(n: nat)
    ensures ParseInt(NatToString(n)) == Some(n)
  {
    ParseIntOfRun(NatToString(n));
    DecimalRoundTrip(n);
  }

  /** The successive matches of `/\d+/g`: the maximal runs of ASCII digits, left to right. */
  function DigitRuns(s: string): (runs: seq<string>)
    ensures forall k :: 0 <= k < |runs| ==> runs[k] != [] && AllDigits(runs[k])
    decreases |s|
  {
    if s == [] then []
    else if !IsDigit(s[0]) then DigitRuns(s[1..])
    else
      var run := DigitPrefix(s, false);
      [run] + DigitRuns(s[|run|..])
  }

  predicate HasDigit(s: string) {
    exists i | 0 <= i < |s| :: IsDigit(s[i])
  }

  /** `text.match(/\d+/g)` is `null` exactly when the text holds no digit. */
  lemma {:induction false} DigitRunsEmptyIff(s: string)
    ensures DigitRuns(s) == [] <==> !HasDigit(s)
    decreases |s|
  {
    if s != [] && !IsDigit(s[0]) {
      DigitRunsEmptyIff(s[1..]);
      assert HasDigit(s) <==> HasDigit(s[1..]) by {
        if HasDigit(s) {
          var i :| 0 <= i < |s| && IsDigit(s[i]);
          assert s[1..][i - 1] == s[i];
        }
        if HasDigit(s[1..]) {
          var i :| 0 <= i < |s[1..]| && IsDigit(s[1..][i]);
          assert s[i + 1] == s[1..][i];
        }
      }
    } else if s != [] {
      assert IsDigit(s[0]);
    }
  }

  /** Every match of `/\d+/g` parses: `parseInt(m)` is its decimal value, never `NaN` or negative. */
  lemma ParseIntOfRun(m: string)
    requires m != [] && AllDigits(m)
    ensures ParseInt(m) == Some(DigitsValue(m, 10))
  {
    assert !IsSpace(m[0]);
    assert TrimStart(m) == m;
    assert !(m[0] == '-' || m[0] == '+');
    assert |m| >= 2 ==> IsDigit(m[1]);
    DigitPrefixAll(m);
  }

  /** Leading characters that are not digits start no run. */
  lemma {:induction false} SkipNonDigits(s: string, n: nat)
    requires n <= |s| && forall i :: 0 <= i < n ==> !IsDigit(s[i])
    ensures DigitRuns(s) == DigitRuns(s[n..])
    decreases n
  {
    if n > 0 {
      assert s[1..][n - 1..] == s[n..];
      SkipNonDigits(s[1..], n - 1);
    }
  }

  /** A run of digits not followed by a digit is the first match of `/\d+/g`. */
  lemma FirstRunOf(d: string, q: string)
    requires d != [] && AllDigits(d)
    requires q == [] || !IsDigit(q[0])
    ensures DigitRuns(d + q) == [d] + DigitRuns(q)
  {
    var s := d + q;
    var r := DigitPrefix(s, false);
    assert r == s[..|d|] == d;
    assert s[|d|..] == q;
  }
}
