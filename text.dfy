/**
  The standard-library string behaviour the commands rely on: Unicode
  whitespace (`char::is_whitespace`), `trim().is_empty()`,
  `split_whitespace().count()`, an ASCII model of `to_lowercase`, and the
  decimal formatting of `{:03}`.
 */
module Text {

  /** `char::is_whitespace`: the Unicode White_Space code points. */
  predicate IsWhitespace(c: char) {
    var n := c as int;
    || (0x9 <= n <= 0xD) || n == 0x20 || n == 0x85 || n == 0xA0 || n == 0x1680
    || (0x2000 <= n <= 0x200A) || n == 0x2028 || n == 0x2029 || n == 0x202F
    || n == 0x205F || n == 0x3000
  }

  /** `s.trim().is_empty()`: nothing but whitespace. */
  predicate IsBlank(s: string) {
    forall i :: 0 <= i < |s| ==> IsWhitespace(s[i])
  }

  /** Position `i` begins a whitespace-separated token. */
  predicate StartsWord(s: string, i: nat)
    requires i < |s|
  {
    !IsWhitespace(s[i]) && (i == 0 || IsWhitespace(s[i - 1]))
  }

  /** `s.split_whitespace().count()`: the number of maximal runs of non-whitespace. */
  function WordCount(s: string): nat {
    if |s| == 0 then 0
    else WordCount(s[..|s| - 1]) + (if StartsWord(s, |s| - 1) then 1 else 0)
  }

  /** Two tokens: a non-whitespace character, later a whitespace one, later a non-whitespace one. */
  ghost predicate HasTwoTokens(s: string) {
    exists i, k, j :: 0 <= i < k < j < |s| && !IsWhitespace(s[i]) && IsWhitespace(s[k]) && !IsWhitespace(s[j])
  }

  /** At least one token exactly when some character is not whitespace. */
  lemma {:induction false} WordCountPositive(s: string)
    ensures WordCount(s) >= 1 <==> !IsBlank(s)
  {
    if |s| > 0 {
      var p := s[..|s| - 1];
      WordCountPositive(p);
      if !IsBlank(s) && IsBlank(p) {
        assert !IsWhitespace(s[|s| - 1]);
        assert StartsWord(s, |s| - 1);
      }
      if !IsBlank(p) {
        var i :| 0 <= i < |p| && !IsWhitespace(p[i]);
        assert !IsWhitespace(s[i]);
      }
    }
  }

  /** `split_whitespace` yields two or more tokens exactly when the text holds two tokens. */
  lemma {:induction false} WordCountAtLeastTwo(s: string)
    ensures WordCount(s) >= 2 <==> HasTwoTokens(s)
  {
    if |s| == 0 {
      return;
    }
    var p := s[..|s| - 1];
    WordCountAtLeastTwo(p);
    WordCountPositive(p);
    if HasTwoTokens(p) {
      TwoTokensExtend(s);
    } else if HasTwoTokens(s) {
      TwoTokensEndingLast(s);
    } else if WordCount(s) >= 2 {
      TwoTokensStartingLast(s);
    }
  }

  lemma TwoTokensExtend(s: string)
    requires |s| > 0 && HasTwoTokens(s[..|s| - 1])
    ensures HasTwoTokens(s)
  {
    var p := s[..|s| - 1];
    var i, k, j :| 0 <= i < k < j < |p| && !IsWhitespace(p[i]) && IsWhitespace(p[k]) && !IsWhitespace(p[j]);
    assert !IsWhitespace(s[i]) && IsWhitespace(s[k]) && !IsWhitespace(s[j]);
  }

  /** The last character starting a token after an earlier token makes two tokens. */
  lemma TwoTokensStartingLast(s: string)
    requires |s| > 0 && StartsWord(s, |s| - 1) && !IsBlank(s[..|s| - 1])
    ensures HasTwoTokens(s)
  {
    var n := |s|;
    var p := s[..n - 1];
    var i :| 0 <= i < |p| && !IsWhitespace(p[i]);
    assert i < n - 2 && IsWhitespace(s[n - 2]);
    assert !IsWhitespace(s[i]) && IsWhitespace(s[n - 2]) && !IsWhitespace(s[n - 1]);
  }

  /** Two tokens in the text are two tokens in its prefix, or the last character starts the second one. */
  lemma TwoTokensEndingLast(s: string)
    requires |s| > 0 && HasTwoTokens(s)
    ensures HasTwoTokens(s[..|s| - 1]) || (StartsWord(s, |s| - 1) && !IsBlank(s[..|s| - 1]))
  {
    var n := |s|;
    var p := s[..n - 1];
    var i, k, j :| 0 <= i < k < j < n && !IsWhitespace(s[i]) && IsWhitespace(s[k]) && !IsWhitespace(s[j]);
    if j < n - 1 {
      assert !IsWhitespace(p[i]) && IsWhitespace(p[k]) && !IsWhitespace(p[j]);
    } else if !IsWhitespace(s[n - 2]) {
      assert !IsWhitespace(p[i]) && IsWhitespace(p[k]) && !IsWhitespace(p[n - 2]);
    } else {
      assert !IsWhitespace(p[i]);
    }
  }

  /** A simple model of `to_lowercase`: ASCII capitals become small letters, every other character is kept. */
  function ToLower(s: string): (lower: string)
    ensures |lower| == |s|
    ensures forall i :: 0 <= i < |s| ==> !('A' <= lower[i] <= 'Z')
    ensures forall i :: 0 <= i < |s| && !('A' <= s[i] <= 'Z') ==> lower[i] == s[i]
    ensures forall i :: 0 <= i < |s| && 'A' <= s[i] <= 'Z' ==> lower[i] as int == s[i] as int + 32
  {
    if |s| == 0 then []
    else ToLower(s[..|s| - 1]) + [LowerChar(s[|s| - 1])]
  }

  function LowerChar(c: char): char {
    if 'A' <= c <= 'Z' then (c as int + 32) as char else c
  }

  // ---- decimal numerals ----

  predicate IsDigit(c: char) {
    '0' <= c <= '9'
  }

  predicate AllDigits(s: string) {
    forall i :: 0 <= i < |s| ==> IsDigit(s[i])
  }

  function DigitChar(d: nat): (c: char)
    requires d < 10
    ensures IsDigit(c) && c as int - '0' as int == d
  {
    (d + '0' as int) as char
  }

  /** The value a string of digits denotes (the parsing side of the decimal format). */
  function DecimalValue(s: string): nat
    requires AllDigits(s)
  {
    if |s| == 0 then 0
    else DecimalValue(s[..|s| - 1]) * 10 + (s[|s| - 1] as int - '0' as int)
  }

  /** The shortest decimal numeral of `n`: digits only, no leading zero unless `n` is 0, denoting `n`. */
  function Decimal(n: nat): (s: string)
    ensures |s| >= 1 && AllDigits(s)
    ensures |s| > 1 ==> s[0] != '0'
    ensures DecimalValue(s) == n
    decreases n
  {
    if n < 10 then [DigitChar(n)]
    else
      var prefix := Decimal(n / 10);
      var s := prefix + [DigitChar(n % 10)];
      assert s[..|s| - 1] == prefix;
      s
  }

  function Zeros(k: nat): (s: string)
    ensures |s| == k && AllDigits(s)
  {
    if k == 0 then [] else Zeros(k - 1) + ['0']
  }

  /** Leading zeros do not change the value of a numeral. */
  lemma {:induction false} LeadingZerosIgnored(k: nat, s: string)
    requires AllDigits(s)
    ensures AllDigits(Zeros(k) + s) && DecimalValue(Zeros(k) + s) == DecimalValue(s)
  {
    if |s| == 0 {
      assert Zeros(k) + s == Zeros(k);
      ZerosAreZero(k);
    } else {
      var t := Zeros(k) + s;
      assert t[..|t| - 1] == Zeros(k) + s[..|s| - 1];
      LeadingZerosIgnored(k, s[..|s| - 1]);
    }
  }

  lemma {:induction false} ZerosAreZero(k: nat)
    ensures DecimalValue(Zeros(k)) == 0
  {
    if k > 0 {
      assert Zeros(k)[..k - 1] == Zeros(k - 1);
      ZerosAreZero(k - 1);
    }
  }

  /**
    `format!("{:0width$}", n)`: the decimal numeral of `n`, left-padded with
    zeros to at least `width` characters and never longer than it needs to be.
   */
  function ZeroPadded(n: nat, width: nat): (s: string)
    ensures AllDigits(s) && DecimalValue(s) == n
    ensures |s| == if |Decimal(n)| < width then width else |Decimal(n)|
    ensures |s| > width && |s| > 1 ==> s[0] != '0'
  {
    var digits := Decimal(n);
    if |digits| < width then
      LeadingZerosIgnored(width - |digits|, digits);
      Zeros(width - |digits|) + digits
    else digits
  }
}
