/**
 * The two pieces of string handling the chat page relies on: JavaScript's
 * `String.prototype.trim` (used by the submit guard) and the decimal rendering
 * of an integer inside a template literal (used for the HTTP status in error
 * messages).
 */
module Text {

  /**
   * The code points `trim` removes: ECMAScript's WhiteSpace production
   * (TAB, VT, FF, SP, NBSP, ZWNBSP and every Zs space separator) together with
   * its LineTerminator production (LF, CR, LS, PS).
   */
  const TrimmableChars: set<char> := {
    '\t', '\n', '\U{000B}', '\U{000C}', '\r', ' ', '\U{00A0}', '\U{1680}',
    '\U{2000}', '\U{2001}', '\U{2002}', '\U{2003}', '\U{2004}', '\U{2005}',
    '\U{2006}', '\U{2007}', '\U{2008}', '\U{2009}', '\U{200A}',
    '\U{2028}', '\U{2029}', '\U{202F}', '\U{205F}', '\U{3000}', '\U{FEFF}'
  }

  predicate IsTrimmable(c: char) {
    c in TrimmableChars
  }

  /** Every character of `s` at an index in `lo..hi` is one that `trim` removes. */
  predicate TrimmableBetween(s: string, lo: int, hi: int) {
    forall j :: lo <= j < hi && 0 <= j < |s| ==> IsTrimmable(s[j])
  }

  /** Every character of `s` is one that `trim` removes. */
  predicate AllTrimmable(s: string) {
    TrimmableBetween(s, 0, |s|)
  }

  /** The index of the first character at or after `i` that `trim` keeps, or `|s|`. */
  function KeptStart(s: string, i: nat): (k: nat)
    requires i <= |s|
    ensures i <= k <= |s|
    ensures TrimmableBetween(s, i, k)
    ensures k < |s| ==> !IsTrimmable(s[k])
    decreases |s| - i
  {
    if i < |s| && IsTrimmable(s[i]) then KeptStart(s, i + 1) else i
  }

  /** One past the last character before index `j` that `trim` keeps, or 0. */
  function KeptEnd(s: string, j: nat): (e: nat)
    requires j <= |s|
    ensures e <= j
    ensures TrimmableBetween(s, e, j)
    ensures e > 0 ==> !IsTrimmable(s[e - 1])
  {
    if j > 0 && IsTrimmable(s[j - 1]) then KeptEnd(s, j - 1) else j
  }

  /** `r` is `s` with a trimmable prefix of length `k` and a trimmable suffix removed. */
  predicate TrimmedAt(r: string, s: string, k: int) {
    && 0 <= k <= |s| - |r|
    && r == s[k..k + |r|]
    && TrimmableBetween(s, 0, k)
    && TrimmableBetween(s, k + |r|, |s|)
  }

  /**
   * JavaScript's `s.trim()`: `s` without its leading and trailing trimmable
   * characters. What is left neither starts nor ends with one, and it is
   * empty exactly when every character of `s` is trimmable.
   */
  function Trim(s: string): (r: string)
    ensures exists k :: TrimmedAt(r, s, k)
    ensures r == [] <==> AllTrimmable(s)
    ensures r != [] ==> !IsTrimmable(r[0]) && !IsTrimmable(r[|r| - 1])
  {
    var k := KeptStart(s, 0);
    var e := KeptEnd(s, |s|);
    if k == |s| then
      assert TrimmedAt([], s, k);
      []
    else
      assert k < e;
      assert TrimmedAt(s[k..e], s, k);
      s[k..e]
  }

  /** The truthiness test `!s.trim()`: the trimmed string is empty. */
  predicate IsBlank(s: string) {
    Trim(s) == ""
  }

  /** The decimal digit character for `d`. */
  function DigitChar(d: nat): (c: char)
    requires d < 10
    ensures '0' <= c <= '9'
    ensures c as int - '0' as int == d
  {
    (d + '0' as int) as char
  }

  /** Every character of `s` is a decimal digit. */
  predicate AllDigits(s: string) {
    forall i :: 0 <= i < |s| ==> '0' <= s[i] <= '9'
  }

  /**
   * The decimal rendering of a non-negative integer, as `${n}` produces it:
   * only digits, and no leading zero except for "0" itself.
   */
  function DecimalString(n: nat): (r: string)
    ensures |r| >= 1 && AllDigits(r)
    ensures r[0] == '0' ==> n == 0 && r == "0"
    decreases n
  {
    if n < 10 then [DigitChar(n)] else DecimalString(n / 10) + [DigitChar(n % 10)]
  }

  /** The value of a string of decimal digits (the empty string reads as 0). */
  function DecimalValue(s: string): nat
    requires AllDigits(s)
  {
    if s == [] then 0
    else DecimalValue(s[..|s| - 1]) * 10 + (s[|s| - 1] as int - '0' as int)
  }

  /** Reading back the decimal rendering of `n` gives `n`. */
  lemma {:induction false} DecimalRoundTrip(n: nat)
    ensures DecimalValue(DecimalString(n)) == n
    decreases n
  {
    if n >= 10 {
      var p := DecimalString(n / 10);
      var s := DecimalString(n);
      assert s == p + [DigitChar(n % 10)];
      assert s[..|s| - 1] == p;
      DecimalRoundTrip(n / 10);
    }
  }

  /** Distinct numbers render as distinct strings. */
  lemma DecimalStringInjective(m: nat, n: nat)
    ensures DecimalString(m) == DecimalString(n) ==> m == n
  {
    DecimalRoundTrip(m);
    DecimalRoundTrip(n);
  }
}
