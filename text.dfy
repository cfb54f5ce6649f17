/** The Python string operations the classifier relies on, over `seq<char>`:
    substring, prefix and suffix tests, ASCII digits, `str.strip()` and
    `str.lower()` (the latter restricted to the letters the classifier meets). */
module PyText {

  /** `p` occurs in `s` at offset `k`. */
  predicate OccursAt(s: string, p: string, k: int) {
    0 <= k <= |s| - |p| && s[k..k + |p|] == p
  }

  /** Python `p in s` for a string `p`: `p` occurs as a contiguous substring. */
  predicate Contains(s: string, p: string) {
    exists k | 0 <= k <= |s| - |p| :: OccursAt(s, p, k)
  }

  /** Python `s.endswith(p)`. */
  predicate EndsWith(s: string, p: string) {
    |p| <= |s| && s[|s| - |p|..] == p
  }

  /** A one-character substring test is membership (`" " in text`). */
  lemma ContainsChar(s: string, c: char)
    ensures Contains(s, [c]) <==> c in s
  {
    if c in s {
      var k :| 0 <= k < |s| && s[k] == c;
      assert OccursAt(s, [c], k);
    }
    if Contains(s, [c]) {
      var k :| 0 <= k <= |s| - 1 && OccursAt(s, [c], k);
      assert s[k] == s[k..k + 1][0];
    }
  }

  /** A string that lacks one of the characters of `p` does not contain `p`. */
  lemma MissingChar(s: string, p: string, c: char)
    requires c in p && c !in s
    ensures !Contains(s, p)
  {
    var j :| 0 <= j < |p| && p[j] == c;
    forall k | 0 <= k <= |s| - |p|
      ensures !OccursAt(s, p, k)
    {
      assert s[k..k + |p|][j] == s[k + j];
    }
  }

  /** Python's `\d` restricted to ASCII. */
  predicate IsDigit(c: char) {
    '0' <= c <= '9'
  }

  /** `re.search(r'\d', s)` succeeds. */
  predicate HasDigit(s: string) {
    exists i :: 0 <= i < |s| && IsDigit(s[i])
  }

  /** The characters `str.isspace()` accepts, which `str.strip()` removes. */
  predicate IsSpace(c: char) {
    '\t' <= c <= '\r' || '\U{1C}' <= c <= '\U{20}' || c == '\U{85}' || c == '\U{A0}'
    || c == '\U{1680}' || '\U{2000}' <= c <= '\U{200A}' || c == '\U{2028}' || c == '\U{2029}'
    || c == '\U{202F}' || c == '\U{205F}' || c == '\U{3000}'
  }

  predicate AllSpace(s: string) {
    forall i :: 0 <= i < |s| ==> IsSpace(s[i])
  }

  /** `s.lstrip()`. */
  function TrimLeft(s: string): string {
    if |s| > 0 && IsSpace(s[0]) then TrimLeft(s[1..]) else s
  }

  /** `s.rstrip()`. */
  function TrimRight(s: string): string {
    if |s| > 0 && IsSpace(s[|s| - 1]) then TrimRight(s[..|s| - 1]) else s
  }

  /** Python `s.strip()` with no argument. */
  function Strip(s: string): string {
    TrimRight(TrimLeft(s))
  }

  /** `TrimLeft` drops the longest all-whitespace prefix. */
  lemma {:induction false} TrimLeftShape(s: string)
    ensures |TrimLeft(s)| <= |s| && TrimLeft(s) == s[|s| - |TrimLeft(s)|..]
    ensures AllSpace(s[..|s| - |TrimLeft(s)|])
    ensures TrimLeft(s) == [] || !IsSpace(TrimLeft(s)[0])
    decreases |s|
  {
    if |s| > 0 && IsSpace(s[0]) {
      TrimLeftShape(s[1..]);
      var n := |s| - |TrimLeft(s)|;
      assert forall i :: 0 < i < n ==> s[..n][i] == s[1..][..n - 1][i - 1];
    }
  }

  /** `TrimRight` drops the longest all-whitespace suffix. */
  lemma {:induction false} TrimRightShape(s: string)
    ensures |TrimRight(s)| <= |s| && TrimRight(s) == s[..|TrimRight(s)|]
    ensures AllSpace(s[|TrimRight(s)|..])
    ensures TrimRight(s) == [] || !IsSpace(TrimRight(s)[|TrimRight(s)| - 1])
    decreases |s|
  {
    if |s| > 0 && IsSpace(s[|s| - 1]) {
      var t := s[..|s| - 1];
      TrimRightShape(t);
      var n := |TrimRight(t)|;
      assert t[..n] == s[..n];
      forall i | 0 <= i < |s| - n
        ensures IsSpace(s[n..][i])
      {
        if n + i < |t| {
          assert s[n..][i] == t[n..][i];
        }
      }
    }
  }

  lemma {:induction false} TrimLeftEmpty(s: string)
    ensures TrimLeft(s) == [] <==> AllSpace(s)
    decreases |s|
  {
    if |s| > 0 {
      TrimLeftEmpty(s[1..]);
      assert forall i :: 0 < i < |s| ==> s[i] == s[1..][i - 1];
    }
  }

  lemma {:induction false} TrimRightEmpty(s: string)
    ensures TrimRight(s) == [] <==> AllSpace(s)
    decreases |s|
  {
    if |s| > 0 {
      TrimRightEmpty(s[..|s| - 1]);
      assert forall i :: 0 <= i < |s| - 1 ==> s[i] == s[..|s| - 1][i];
    }
  }

  /** `not s.strip()` holds exactly for the empty and all-whitespace strings. */
  lemma StripEmpty(s: string)
    ensures Strip(s) == [] <==> AllSpace(s)
  {
    TrimLeftEmpty(s);
    TrimLeftShape(s);
    TrimRightEmpty(TrimLeft(s));
  }

  /** Python `str.lower()` on one character, for ASCII and Cyrillic capitals
      (U+0400..U+042F with U+0490 "Ґ"); every other character is left as it is. */
  function LowerChar(c: char): (r: char)
    ensures (c == r) <==> !('A' <= c <= 'Z' || 'Ѐ' <= c <= 'Я' || c == 'Ґ')
  {
    if 'A' <= c <= 'Z' then (c as int + 32) as char
    else if 'Ѐ' <= c <= 'Џ' then (c as int + 0x50) as char
    else if 'А' <= c <= 'Я' then (c as int + 0x20) as char
    else if c == 'Ґ' then 'ґ'
    else c
  }

  /** Python `s.lower()`, character by character. */
  function Lower(s: string): (r: string)
    ensures |r| == |s|
    ensures forall i :: 0 <= i < |s| ==> r[i] == LowerChar(s[i])
  {
    seq(|s|, i requires 0 <= i < |s| => LowerChar(s[i]))
  }

  /** Characters that no other character lower-cases to: space, hyphen, digits. */
  predicate LowerFixed(c: char) {
    c == ' ' || c == '-' || c == '\n' || IsDigit(c)
  }

  lemma LowerCharFixed(c: char, d: char)
    requires LowerFixed(c)
    ensures LowerChar(d) == c <==> d == c
  {
  }

  /** Lower-casing neither creates nor removes a space, a hyphen or a digit. */
  lemma LowerKeeps(s: string, c: char)
    requires LowerFixed(c)
    ensures c in Lower(s) <==> c in s
  {
    var l := Lower(s);
    if c in l {
      var i :| 0 <= i < |l| && l[i] == c;
      LowerCharFixed(c, s[i]);
    }
    if c in s {
      var i :| 0 <= i < |s| && s[i] == c;
      assert l[i] == c;
    }
  }
}
