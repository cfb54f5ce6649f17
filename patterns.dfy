/** The three regular expressions of the classifier, each as an executable
    predicate proved equal to the meaning of the pattern:
      `^\d+$` and `^\d+[.,\\/]\d+$` (re.match), and `\d+[.,\\/]\d+` (re.search). */
module Patterns {
  import opened PyText

  /** The class `[.,\\/]`: full stop, comma, backslash, slash. */
  predicate IsSeparator(c: char) {
    c == '.' || c == ',' || c == '\\' || c == '/'
  }

  /** `\d+` matches the whole of `s`. */
  predicate DigitRun(s: string) {
    |s| > 0 && forall i :: 0 <= i < |s| ==> IsDigit(s[i])
  }

  /** The length of the longest all-digit prefix of `s`. */
  function LeadingDigits(s: string): (n: nat)
    ensures n <= |s|
    ensures forall i :: 0 <= i < n ==> IsDigit(s[i])
    ensures n < |s| ==> !IsDigit(s[n])
  {
    if |s| > 0 && IsDigit(s[0]) then 1 + LeadingDigits(s[1..]) else 0
  }

  /** `\d+[.,\\/]\d+` matches the whole of `s`: the digits before the
      separator are exactly the leading digits, since a separator is no digit. */
  predicate DecimalBody(s: string) {
    var n := LeadingDigits(s);
    0 < n < |s| && IsSeparator(s[n]) && DigitRun(s[n + 1..])
  }

  /** `s` splits at `j` into digits, a separator at `j`, digits. */
  ghost predicate SplitsAsDecimal(s: string, j: int) {
    0 < j < |s| && DigitRun(s[..j]) && IsSeparator(s[j]) && DigitRun(s[j + 1..])
  }

  lemma DecimalBodyIff(s: string)
    ensures DecimalBody(s) <==> exists j :: SplitsAsDecimal(s, j)
  {
    var n := LeadingDigits(s);
    if DecimalBody(s) {
      assert SplitsAsDecimal(s, n);
    }
    if exists j :: SplitsAsDecimal(s, j) {
      var j :| SplitsAsDecimal(s, j);
      assert IsDigit(s[..j][j - 1]);
      if n < j {
        assert s[n] == s[..j][n];
      } else if j < n {
        assert IsDigit(s[j]);
      }
    }
  }

  /** The body of either anchored numeric pattern matches all of `s`. */
  predicate NumericBody(s: string) {
    DigitRun(s) || DecimalBody(s)
  }

  /** `re.match(r'^\d+$', s) or re.match(r'^\d+[.,\\/]\d+$', s)`. Python's
      `$` also matches just before a final newline, so the body may stop there. */
  predicate NumericText(s: string) {
    NumericBody(s) || (|s| > 0 && s[|s| - 1] == '\n' && NumericBody(s[..|s| - 1]))
  }

  /** A numeric text holds nothing but digits, separators and a final newline. */
  lemma NumericTextChars(s: string, i: int)
    requires NumericText(s) && 0 <= i < |s|
    ensures IsDigit(s[i]) || IsSeparator(s[i]) || (i == |s| - 1 && s[i] == '\n')
  {
    var b := if NumericBody(s) then s else s[..|s| - 1];
    if i < |b| {
      assert s[i] == b[i];
      if DecimalBody(b) {
        var n := LeadingDigits(b);
        if i > n {
          assert b[i] == b[n + 1..][i - n - 1];
        }
      }
    }
  }

  /** `re.search(r'\d+[.,\\/]\d+', s)`: somewhere a digit, a separator and a
      digit stand next to each other. */
  predicate HasDecimal(s: string)
    decreases |s|
  {
    |s| >= 3 && ((IsDigit(s[0]) && IsSeparator(s[1]) && IsDigit(s[2])) || HasDecimal(s[1..]))
  }

  /** The pattern matches `s[i..k]`, with the separator at `j`. */
  ghost predicate DecimalAt(s: string, i: int, j: int, k: int) {
    0 <= i < j < k <= |s| && DigitRun(s[i..j]) && IsSeparator(s[j]) && DigitRun(s[j + 1..k])
  }

  lemma {:induction false} HasDecimalIff(s: string)
    ensures HasDecimal(s) <==> exists i, j, k :: DecimalAt(s, i, j, k)
    decreases |s|
  {
    if HasDecimal(s) {
      if IsDigit(s[0]) && IsSeparator(s[1]) && IsDigit(s[2]) {
        assert DecimalAt(s, 0, 1, 3);
      } else {
        HasDecimalIff(s[1..]);
        var i, j, k :| DecimalAt(s[1..], i, j, k);
        DecimalAtShift(s, i, j, k);
      }
    }
    if exists i, j, k :: DecimalAt(s, i, j, k) {
      var i, j, k :| DecimalAt(s, i, j, k);
      assert IsDigit(s[i..j][j - i - 1]) && IsDigit(s[j + 1..k][0]);
      HasDecimalAdjacent(s, j);
    }
  }

  /** A match in `s[1..]` is a match in `s`, one position further on. */
  lemma DecimalAtShift(s: string, i: int, j: int, k: int)
    requires |s| > 0 && DecimalAt(s[1..], i, j, k)
    ensures DecimalAt(s, i + 1, j + 1, k + 1)
  {
    var t := s[1..];
    DigitRunSlice(t, i, j);
    DigitRunSlice(t, j + 1, k);
    DigitRunSlice(s, i + 1, j + 1);
    DigitRunSlice(s, j + 2, k + 1);
    forall m | i + 1 <= m < j + 1
      ensures IsDigit(s[m])
    {
      assert s[m] == t[m - 1];
    }
    forall m | j + 2 <= m < k + 1
      ensures IsDigit(s[m])
    {
      assert s[m] == t[m - 1];
    }
    assert s[j + 1] == t[j];
  }

  /** `\d+` matches `s[a..b]` when every position from `a` to `b` holds a digit. */
  lemma DigitRunSlice(s: string, a: int, b: int)
    requires 0 <= a <= b <= |s|
    ensures DigitRun(s[a..b]) <==> a < b && forall m :: a <= m < b ==> IsDigit(s[m])
  {
    if a < b && forall m :: a <= m < b ==> IsDigit(s[m]) {
      forall m | 0 <= m < b - a
        ensures IsDigit(s[a..b][m])
      {
        assert s[a..b][m] == s[a + m];
      }
    }
  }

  /** A digit, separator, digit triple centred at `j` is found by the scan. */
  lemma {:induction false} HasDecimalAdjacent(s: string, j: int)
    requires 0 < j < |s| - 1
    requires IsDigit(s[j - 1]) && IsSeparator(s[j]) && IsDigit(s[j + 1])
    ensures HasDecimal(s)
    decreases j
  {
    if j > 1 {
      HasDecimalAdjacent(s[1..], j - 1);
    }
  }
}
