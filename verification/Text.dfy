/** The string operations of the Rust standard library that the rule engine relies on. */
module Text {
  import opened Wrappers

  const I64_MIN: int := -0x8000_0000_0000_0000
  const I64_MAX: int := 0x7fff_ffff_ffff_ffff

  type I64 = n: int | I64_MIN <= n <= I64_MAX

  /** `char::is_whitespace`: the Unicode White_Space property. */
  predicate IsWhitespace(c: char) {
    || '\U{0009}' <= c <= '\U{000D}'
    || c == ' '
    || c == '\U{0085}'
    || c == '\U{00A0}'
    || c == '\U{1680}'
    || '\U{2000}' <= c <= '\U{200A}'
    || c == '\U{2028}'
    || c == '\U{2029}'
    || c == '\U{202F}'
    || c == '\U{205F}'
    || c == '\U{3000}'
  }

  /** Neither end is whitespace, so trimming has nothing to take off. */
  predicate SolidEnds(s: string) {
    s == "" || (!IsWhitespace(s[0]) && !IsWhitespace(s[|s| - 1]))
  }

  function TrimStart(s: string): (r: string) {
    if s != "" && IsWhitespace(s[0]) then TrimStart(s[1..]) else s
  }

  function TrimEnd(s: string): (r: string) {
    if s != "" && IsWhitespace(s[|s| - 1]) then TrimEnd(s[..|s| - 1]) else s
  }

  /** `str::trim`. */
  function Trim(s: string): (r: string) {
    TrimEnd(TrimStart(s))
  }

  lemma TrimChangesOnlyLooseEnds(s: string)
    ensures SolidEnds(s) <==> Trim(s) == s
  {
    TrimStartTakesAPrefix(s);
    TrimEndLeavesSolidEnd(TrimStart(s));
  }

  lemma {:induction false} TrimStartTakesAPrefix(s: string)
    ensures |TrimStart(s)| <= |s|
    ensures |TrimStart(s)| == |s| ==> s == "" || !IsWhitespace(s[0])
    ensures |TrimStart(s)| == |s| ==> TrimStart(s) == s
  {
    if s != "" && IsWhitespace(s[0]) {
      TrimStartTakesAPrefix(s[1..]);
    }
  }

  lemma {:induction false} TrimEndLeavesSolidEnd(s: string)
    ensures |TrimEnd(s)| <= |s|
    ensures TrimEnd(s) == "" || !IsWhitespace(TrimEnd(s)[|TrimEnd(s)| - 1])
  {
    if s != "" && IsWhitespace(s[|s| - 1]) {
      TrimEndLeavesSolidEnd(s[..|s| - 1]);
    }
  }

  function LowerChar(c: char): char {
    if 'A' <= c <= 'Z' then c - 'A' + 'a' else c
  }

  /** `str::to_ascii_lowercase`. */
  function AsciiLower(s: string): (r: string)
    ensures |r| == |s|
    ensures forall i | 0 <= i < |s| :: r[i] == LowerChar(s[i])
  {
    seq(|s|, i requires 0 <= i < |s| => LowerChar(s[i]))
  }

  predicate OccursAt(s: string, needle: string, i: int) {
    0 <= i <= |s| - |needle| && s[i..i + |needle|] == needle
  }

  /** `str::contains` with a string needle. */
  predicate Contains(s: string, needle: string) {
    exists i | 0 <= i <= |s| :: OccursAt(s, needle, i)
  }

  /** `str::split` on one character: the pieces between the separators, in order. */
  function Split(s: string, sep: char): (pieces: seq<string>)
    ensures |pieces| >= 1
  {
    if s == "" then [""]
    else
      var rest := Split(s[1..], sep);
      if s[0] == sep then [""] + rest else [[s[0]] + rest[0]] + rest[1..]
  }

  predicate IsDigit(c: char) {
    '0' <= c <= '9'
  }

  predicate AllDigits(s: string) {
    forall i | 0 <= i < |s| :: IsDigit(s[i])
  }

  function DigitsValue(s: string): (n: nat)
    requires AllDigits(s)
  {
    if s == "" then 0
    else
      assert IsDigit(s[|s| - 1]);
      10 * DigitsValue(s[..|s| - 1]) + (s[|s| - 1] as int - '0' as int)
  }

  function NatText(n: nat): (s: string)
    ensures s != "" && AllDigits(s)
    ensures DigitsValue(s) == n
  {
    if n < 10 then ['0' + n as char]
    else
      var s := NatText(n / 10) + ['0' + (n % 10) as char];
      assert s[..|s| - 1] == NatText(n / 10);
      s
  }

  /** Decimal text of an integer, as `i64::to_string` and Postgres `::text` print it. */
  function IntText(n: int): (s: string)
    ensures s != "" && SolidEnds(s)
    ensures s[0] == '-' <==> n < 0
  {
    if n < 0 then "-" + NatText(-n) else NatText(n)
  }

  /** `str::parse::<i64>`: an optional sign, then digits, no overflow. */
  function ParseI64(s: string): (r: Option<I64>) {
    if s == "" then None
    else
      var digits := if s[0] == '-' || s[0] == '+' then s[1..] else s;
      if digits == "" || !AllDigits(digits) then None
      else
        var n: int := DigitsValue(digits);
        var v: int := if s[0] == '-' then -n else n;
        if I64_MIN <= v <= I64_MAX then Some(v) else None
  }

  lemma ParseReadsPrintedInteger(n: I64)
    ensures ParseI64(IntText(n)) == Some(n)
  {
    var s, v: int := IntText(n), n;
    if v < 0 {
      assert s[1..] == NatText(-v);
    } else {
      assert IsDigit(s[0]);
    }
  }

  lemma IntTextInjective(a: int, b: int)
    requires IntText(a) == IntText(b)
    ensures a == b
  {
    if a < 0 {
      assert IntText(a)[1..] == NatText(-a) && IntText(b)[1..] == NatText(-b);
    }
  }
  // ------------------------------------------------------------------ the tables behind them

  /** The 25 code points with the White_Space property. */
  predicate IsBlankCode(code: int) {
    || 9 <= code <= 13 || code == 32 || code == 133 || code == 160 || code == 5760 || 8192 <= code <= 8202
    || code == 8232 || code == 8233 || code == 8239 || code == 8287 || code == 12288
  }

  lemma WhitespaceIsListed(c: char)
    ensures IsWhitespace(c) <==> IsBlankCode(c as int)
  {
  }

  /** Only the 26 capitals have another lower case. */
  lemma OnlyCapitalsAreLowered(c: char)
    ensures 65 <= c as int <= 90 ==> LowerChar(c) as int == c as int + 32
    ensures c as int < 65 || c as int > 90 ==> LowerChar(c) == c
  {
  }

  predicate AreBlank(s: string, i: nat, j: nat)
    requires j <= |s|
  {
    forall k | i <= k < j :: IsBlankCode(s[k] as int)
  }

  lemma {:induction false} TrimStartCutsBlanks(s: string) returns (n: nat)
    ensures n <= |s| && TrimStart(s) == s[n..] && AreBlank(s, 0, n)
  {
    if s != "" && IsWhitespace(s[0]) {
      var m := TrimStartCutsBlanks(s[1..]);
      n := m + 1;
      assert s[1..][m..] == s[n..];
      forall k | 0 <= k < n ensures IsBlankCode(s[k] as int) {
        if k > 0 {
          assert s[1..][k - 1] == s[k];
        }
      }
    } else {
      n := 0;
    }
  }

  lemma {:induction false} TrimEndCutsBlanks(s: string) returns (n: nat)
    ensures n <= |s| && TrimEnd(s) == s[..n] && AreBlank(s, n, |s|)
  {
    if s != "" && IsWhitespace(s[|s| - 1]) {
      var t := s[..|s| - 1];
      n := TrimEndCutsBlanks(t);
      assert t[..n] == s[..n];
      forall k | n <= k < |s| ensures IsBlankCode(s[k] as int) {
        if k < |t| {
          assert t[k] == s[k];
        }
      }
    } else {
      n := |s|;
    }
  }

  /** Trimming takes blanks off both ends, and all of them. */
  lemma TrimCutsExactlyTheBlanks(s: string) returns (i: nat, j: nat)
    ensures i <= j <= |s| && Trim(s) == s[i..j] && AreBlank(s, 0, i) && AreBlank(s, j, |s|)
    ensures SolidEnds(Trim(s))
  {
    i := TrimStartCutsBlanks(s);
    var t := s[i..];
    var n := TrimEndCutsBlanks(t);
    j := i + n;
    assert t[..n] == s[i..j];
    forall k | j <= k < |s| ensures IsBlankCode(s[k] as int) {
      assert t[k - i] == s[k];
    }
    SolidAfterTrim(s);
  }

  lemma SolidAfterTrim(s: string)
    ensures SolidEnds(Trim(s))
  {
    TrimStartEndsSolid(s);
    TrimEndLeavesSolidEnd(TrimStart(s));
    var n := TrimEndCutsBlanks(TrimStart(s));
  }

  lemma {:induction false} TrimStartEndsSolid(s: string)
    ensures TrimStart(s) != "" ==> !IsWhitespace(TrimStart(s)[0])
  {
    if s != "" && IsWhitespace(s[0]) {
      TrimStartEndsSolid(s[1..]);
    }
  }
}
