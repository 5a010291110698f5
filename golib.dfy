/**
 * The parts of Go's standard library that main.go relies on, stated on
 * strings of characters: `strings.ToLower`, `filepath.Ext`, `filepath.Base`
 * (with the Unix separator '/') and `strconv.FormatInt(n, 10)`.
 */
module GoLib {

  /**
   * Lower-case one character as `unicode.ToLower` does for the characters
   * whose lower case is ASCII: the letters A-Z, U+0130 (capital I with dot
   * above, to 'i') and U+212A (Kelvin sign, to 'k'). Every other character
   * is kept.
   */
  function LowerChar(c: char): (d: char)
    ensures 'A' <= c <= 'Z' ==> d == "abcdefghijklmnopqrstuvwxyz"[c as int - 'A' as int]
    ensures c == '\U{130}' ==> d == 'i'
    ensures c == '\U{212A}' ==> d == 'k'
    ensures !('A' <= d <= 'Z')
    ensures d == '.' <==> c == '.'
    ensures d == '/' <==> c == '/'
  {
    if 'A' <= c <= 'Z' then (c as int + 32) as char
    else if c == '\U{130}' then 'i'
    else if c == '\U{212A}' then 'k'
    else c
  }

  /** `strings.ToLower`: each character lower-cased, length kept. */
  function ToLower(s: string): (r: string)
    ensures |r| == |s|
    ensures forall i :: 0 <= i < |s| ==> r[i] == LowerChar(s[i])
  {
    if s == [] then [] else [LowerChar(s[0])] + ToLower(s[1..])
  }

  /** Lower-casing commutes with taking a suffix. */
  lemma ToLowerSuffix(s: string, k: nat)
    requires k <= |s|
    ensures ToLower(s)[k..] == ToLower(s[k..])
  {
  }

  /** Lower-casing twice is lower-casing once. */
  lemma ToLowerIdempotent(s: string)
    ensures ToLower(ToLower(s)) == ToLower(s)
  {
  }

  /**
   * `filepath.Ext` scanning backwards from position `i`: the suffix from the
   * last '.' that comes after the last '/', or "" when there is none.
   */
  function ExtScan(path: string, i: nat): (r: string)
    requires i <= |path|
    requires forall j :: i <= j < |path| ==> path[j] != '/' && path[j] != '.'
    ensures r != [] ==> |r| <= |path| && r == path[|path| - |r|..] && r[0] == '.'
    ensures r != [] ==> forall j :: 1 <= j < |r| ==> r[j] != '/' && r[j] != '.'
    ensures r == [] ==> forall j :: 0 <= j < |path| && path[j] == '.' ==>
              exists m :: j < m < |path| && path[m] == '/'
    decreases i
  {
    if i == 0 || path[i - 1] == '/' then []
    else if path[i - 1] == '.' then path[i - 1..]
    else ExtScan(path, i - 1)
  }

  /** `filepath.Ext`: the extension of the last path element, including its dot. */
  function Ext(path: string): (r: string)
    ensures r != [] ==> |r| <= |path| && r == path[|path| - |r|..] && r[0] == '.'
    ensures r != [] ==> forall j :: 1 <= j < |r| ==> r[j] != '/' && r[j] != '.'
    ensures r == [] ==> forall j :: 0 <= j < |path| && path[j] == '.' ==>
              exists m :: j < m < |path| && path[m] == '/'
  {
    ExtScan(path, |path|)
  }

  /** The backwards scan stops at the dot at `k` once it has passed every later character. */
  lemma {:induction false} ExtScanFindsDot(path: string, k: nat, i: nat)
    requires k < i <= |path| && path[k] == '.'
    requires forall j :: k < j < |path| ==> path[j] != '/' && path[j] != '.'
    ensures ExtScan(path, i) == path[k..]
    decreases i
  {
    if i - 1 != k {
      ExtScanFindsDot(path, k, i - 1);
    }
  }

  /** A '.' followed by neither '.' nor '/' starts the extension. */
  lemma ExtFromLastDot(path: string, k: nat)
    requires k < |path| && path[k] == '.'
    requires forall j :: k < j < |path| ==> path[j] != '/' && path[j] != '.'
    ensures Ext(path) == path[k..]
  {
    ExtScanFindsDot(path, k, |path|);
  }

  /** Lower-casing the name before or after taking its extension gives the same result. */
  lemma {:induction false} ExtScanToLower(path: string, i: nat)
    requires i <= |path|
    requires forall j :: i <= j < |path| ==> path[j] != '/' && path[j] != '.'
    ensures ToLower(ExtScan(path, i)) == ExtScan(ToLower(path), i)
    decreases i
  {
    var lp := ToLower(path);
    if i == 0 || path[i - 1] == '/' {
    } else if path[i - 1] == '.' {
      ToLowerSuffix(path, i - 1);
    } else {
      assert lp[i - 1] != '/' && lp[i - 1] != '.';
      ExtScanToLower(path, i - 1);
    }
  }

  /** The extension of the lower-cased name is the lower-cased extension. */
  lemma ExtToLower(path: string)
    ensures ToLower(Ext(path)) == Ext(ToLower(path))
  {
    ExtScanToLower(path, |path|);
  }

  /** `path` with every trailing '/' removed. */
  function TrimTrailingSlashes(path: string): (r: string)
    ensures |r| <= |path| && r == path[..|r|]
    ensures r == [] || r[|r| - 1] != '/'
    ensures forall j :: |r| <= j < |path| ==> path[j] == '/'
  {
    if path != [] && path[|path| - 1] == '/' then TrimTrailingSlashes(path[..|path| - 1]) else path
  }

  /** What follows the last '/' of `path` (all of it when there is none). */
  function AfterLastSlash(path: string): (r: string)
    ensures |r| <= |path| && r == path[|path| - |r|..]
    ensures '/' !in r
    ensures |r| < |path| ==> path[|path| - |r| - 1] == '/'
  {
    if path == [] || path[|path| - 1] == '/' then []
    else AfterLastSlash(path[..|path| - 1]) + [path[|path| - 1]]
  }

  /**
   * `filepath.Base`: the last element of the path; "." for the empty path
   * and "/" for a path made only of separators.
   */
  function Base(path: string): (r: string)
    ensures path == [] ==> r == "."
    ensures path != [] && TrimTrailingSlashes(path) == [] ==> r == "/"
    ensures path != [] && TrimTrailingSlashes(path) != [] ==>
              var t := TrimTrailingSlashes(path);
              && r != [] && '/' !in r
              && |r| <= |t| && t[|t| - |r|..] == r
              && (|r| == |t| || t[|t| - |r| - 1] == '/')
  {
    if path == [] then "."
    else
      var trimmed := TrimTrailingSlashes(path);
      if trimmed == [] then "/"
      else AfterLastSlash(trimmed)
  }

  /** A non-empty name without separators is its own base name. */
  lemma BaseOfPlainName(name: string)
    requires name != [] && '/' !in name
    ensures Base(name) == name
  {
  }

  /** The character for digit `d`. */
  function DigitChar(d: nat): (c: char)
    requires d < 10
    ensures '0' <= c <= '9' && c as int - '0' as int == d
  {
    ('0' as int + d) as char
  }

  predicate IsDigit(c: char) {
    '0' <= c <= '9'
  }

  /** The decimal digits of `n`, most significant first, without leading zeros. */
  function Digits(n: nat): (r: string)
    ensures r != []
    ensures forall j :: 0 <= j < |r| ==> IsDigit(r[j])
    ensures r[0] != '0' || n == 0
  {
    if n < 10 then [DigitChar(n)] else Digits(n / 10) + [DigitChar(n % 10)]
  }

  /** A non-empty string of decimal digits with an optional leading '-'. */
  predicate IsDecimal(s: string) {
    && s != []
    && (s[0] == '-' ==> forall j :: 1 <= j < |s| ==> IsDigit(s[j]))
    && (s[0] != '-' ==> forall j :: 0 <= j < |s| ==> IsDigit(s[j]))
  }

  /** `strconv.FormatInt(n, 10)`: a '-' for a negative number, then its digits. */
  function FormatInt(n: int): (r: string)
    ensures IsDecimal(r) && '_' !in r
    ensures r[0] == '-' <==> n < 0
  {
    if n < 0 then "-" + Digits(-n) else Digits(n)
  }

  /** The value of a string of decimal digits (the reading of `Digits`). */
  function ParseDigits(s: string): (n: nat)
    requires forall j :: 0 <= j < |s| ==> IsDigit(s[j])
  {
    if s == [] then 0
    else
      assert IsDigit(s[|s| - 1]);
      ParseDigits(s[..|s| - 1]) * 10 + (s[|s| - 1] as int - '0' as int)
  }

  /** The value of an optionally signed decimal string (the reading of `FormatInt`). */
  function ParseInt(s: string): int
    requires IsDecimal(s)
  {
    if s[0] == '-' then -(ParseDigits(s[1..]) as int) else ParseDigits(s)
  }

  lemma {:induction false} DigitsRoundTrip(n: nat)
    ensures ParseDigits(Digits(n)) == n
  {
    if n >= 10 {
      var s := Digits(n);
      assert s[..|s| - 1] == Digits(n / 10);
      DigitsRoundTrip(n / 10);
    }
  }

  /** Reading back a formatted number gives the number. */
  lemma FormatIntRoundTrip(n: int)
    ensures ParseInt(FormatInt(n)) == n
  {
    if n < 0 {
      assert FormatInt(n)[1..] == Digits(-n);
      DigitsRoundTrip(-n);
    } else {
      DigitsRoundTrip(n);
    }
  }

  /** Different numbers are formatted differently. */
  lemma FormatIntInjective(a: int, b: int)
    ensures FormatInt(a) == FormatInt(b) <==> a == b
  {
    if FormatInt(a) == FormatInt(b) {
      FormatIntRoundTrip(a);
      FormatIntRoundTrip(b);
    }
  }
}
