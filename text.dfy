/** Text operations that the tracker uses on categories and column names:
    Python's `str.strip()` (no argument) and `str.lower()`. */
module Text {

  /** The characters for which Python's `str.isspace()` holds; `str.strip()`
      with no argument removes exactly these from both ends. */
  predicate IsSpace(c: char) {
    || c == ' '
    || ('\t' <= c <= '\r')
    || ('\U{1C}' <= c <= '\U{1F}')
    || c == '\U{85}'
    || c == '\U{A0}'
    || c == '\U{1680}'
    || ('\U{2000}' <= c <= '\U{200A}')
    || c == '\U{2028}'
    || c == '\U{2029}'
    || c == '\U{202F}'
    || c == '\U{205F}'
    || c == '\U{3000}'
  }

  predicate AllSpace(s: string) {
    forall k :: 0 <= k < |s| ==> IsSpace(s[k])
  }

  /** Neither the first nor the last character is whitespace. */
  predicate NoSurroundingSpace(s: string) {
    s == [] || (!IsSpace(s[0]) && !IsSpace(s[|s| - 1]))
  }

  /** The first index at or after `i` that does not hold whitespace. */
  function SkipSpace(s: string, i: nat): (r: nat)
    requires i <= |s|
    ensures i <= r <= |s|
    ensures forall k :: i <= k < r ==> IsSpace(s[k])
    ensures r == |s| || !IsSpace(s[r])
    decreases |s| - i
  {
    if i < |s| && IsSpace(s[i]) then SkipSpace(s, i + 1) else i
  }

  /** The smallest index at or after `lo`, and at most `j`, from which
      `s[..j]` holds only whitespace. */
  function SkipSpaceBack(s: string, lo: nat, j: nat): (r: nat)
    requires lo <= j <= |s|
    ensures lo <= r <= j
    ensures forall k :: r <= k < j ==> IsSpace(s[k])
    ensures r == lo || !IsSpace(s[r - 1])
  {
    if j > lo && IsSpace(s[j - 1]) then SkipSpaceBack(s, lo, j - 1) else j
  }

  /** Python's `s.strip()`: the middle slice of `s` left once the whitespace
      at both ends is removed; no whitespace surrounds it. */
  function Strip(s: string): (r: string)
    ensures NoSurroundingSpace(r)
    ensures exists i, j :: 0 <= i <= j <= |s| && r == s[i..j]
                           && (forall k :: 0 <= k < i ==> IsSpace(s[k]))
                           && (forall k :: j <= k < |s| ==> IsSpace(s[k]))
  {
    var i := SkipSpace(s, 0);
    var j := SkipSpaceBack(s, i, |s|);
    assert j > i ==> s[i..j][0] == s[i] && s[i..j][j - i - 1] == s[j - 1];
    s[i..j]
  }

  /** A string that is entirely whitespace strips to nothing, and only such a
      string does: this is the "empty or whitespace-only" test of the tracker. */
  lemma StripEmptyIff(s: string)
    ensures Strip(s) == [] <==> AllSpace(s)
  {
    var r := Strip(s);
    var i, j :| 0 <= i <= j <= |s| && r == s[i..j]
                && (forall k :: 0 <= k < i ==> IsSpace(s[k]))
                && (forall k :: j <= k < |s| ==> IsSpace(s[k]));
    if r != [] {
      assert s[i] == r[0];
    }
  }

  /** A string without surrounding whitespace is its own strip. */
  lemma StripFixpoint(s: string)
    requires NoSurroundingSpace(s)
    ensures Strip(s) == s
  {
    assert SkipSpace(s, 0) == 0;
    assert SkipSpaceBack(s, 0, |s|) == |s|;
    assert s[0..|s|] == s;
  }

  /** Stripping is idempotent. */
  lemma {:induction false} StripIdempotent(s: string)
    ensures Strip(Strip(s)) == Strip(s)
  {
    StripFixpoint(Strip(s));
  }

  /** `str.lower()` on one character; only the ASCII letters are modelled. */
  function LowerChar(c: char): char {
    if 'A' <= c <= 'Z' then (c as int + 32) as char else c
  }

  predicate IsLowerCase(s: string) {
    forall k :: 0 <= k < |s| ==> !('A' <= s[k] <= 'Z')
  }

  /** Python's `s.lower()`, restricted to ASCII letters: each character of
      the result is the character of `s` or its lower-case partner, no
      upper-case letter is left, and everything that is not an upper-case
      letter is kept as it is. */
  function Lower(s: string): (r: string)
    ensures |r| == |s|
    ensures IsLowerCase(r)
    ensures EqualIgnoringCase(s, r)
    ensures forall k :: 0 <= k < |s| && !('A' <= s[k] <= 'Z') ==> r[k] == s[k]
    ensures forall k :: 0 <= k < |s| ==> (IsSpace(r[k]) <==> IsSpace(s[k]))
    ensures IsLowerCase(s) ==> r == s
  {
    LetterPairs();
    var r := seq(|s|, k requires 0 <= k < |s| => LowerChar(s[k]));
    assert forall k :: 0 <= k < |s| ==> SameLetter(s[k], r[k]) by {
      forall k | 0 <= k < |s| ensures SameLetter(s[k], r[k]) {
        if 'A' <= s[k] <= 'Z' {
          var j := s[k] as int - 'A' as int;
          assert UPPER[j] == s[k];
        }
      }
    }
    r
  }

  /** The ASCII letters, upper case and lower case, in alphabetical order. */
  const UPPER: string := "ABCDEFGHIJKLMNOPQRSTUVWXYZ"
  const LOWER: string := "abcdefghijklmnopqrstuvwxyz"

  /** Two characters that are equal, or the two cases of one letter. */
  predicate SameLetter(x: char, y: char) {
    x == y || exists j :: 0 <= j < 26 && ((UPPER[j] == x && LOWER[j] == y) || (LOWER[j] == x && UPPER[j] == y))
  }

  /** ASCII case-insensitive equality of two texts. */
  predicate EqualIgnoringCase(a: string, b: string) {
    |a| == |b| && forall k :: 0 <= k < |a| ==> SameLetter(a[k], b[k])
  }

  /** The alphabet tables agree with the character arithmetic of `LowerChar`. */
  lemma LetterPairs()
    ensures |UPPER| == 26 && |LOWER| == 26
    ensures forall j :: 0 <= j < 26 ==> UPPER[j] == ('A' as int + j) as char && LOWER[j] == ('a' as int + j) as char
  {
  }

  /** A text equal, ignoring case, to a lower-case text lowers to exactly
      that text. */
  lemma LowerMatches(s: string, n: string)
    requires IsLowerCase(n) && EqualIgnoringCase(s, n)
    ensures Lower(s) == n
  {
    LetterPairs();
    var r := Lower(s);
    forall k | 0 <= k < |s| ensures r[k] == n[k] {
      assert SameLetter(s[k], n[k]);
      assert !('A' <= n[k] <= 'Z');
      if s[k] != n[k] {
        var j :| 0 <= j < 26 && ((UPPER[j] == s[k] && LOWER[j] == n[k]) || (LOWER[j] == s[k] && UPPER[j] == n[k]));
        assert UPPER[j] == s[k] && LOWER[j] == n[k];
      }
    }
  }
}
