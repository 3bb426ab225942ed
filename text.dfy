/**
 Character and string helpers for the webhook model: an ASCII letter-case
 mapping standing in for Python's `str.lower()`, and the substring relation
 that Python's `in` operator tests on two strings.
 */
module Text {

  predicate IsAsciiUpper(c: char) {
    'A' <= c <= 'Z'
  }

  predicate IsAsciiLower(c: char) {
    'a' <= c <= 'z'
  }

  /** Lower-cases one character: an ASCII capital becomes the small letter at
      the same position of the alphabet, every other character is kept. */
  function LowerChar(c: char): (r: char)
    ensures !IsAsciiUpper(r)
    ensures IsAsciiUpper(c) ==> IsAsciiLower(r) && r as int - 'a' as int == c as int - 'A' as int
    ensures !IsAsciiUpper(c) ==> r == c
  {
    if IsAsciiUpper(c) then (c as int - 'A' as int + 'a' as int) as char else c
  }

  /** Lower-cases a string character by character, keeping its length. */
  function Lower(s: string): (r: string)
    ensures |r| == |s|
    ensures forall i :: 0 <= i < |s| ==> r[i] == LowerChar(s[i])
  {
    if s == [] then [] else [LowerChar(s[0])] + Lower(s[1..])
  }

  /** `pat` occurs as a contiguous block of `s`, starting at index `i`. */
  predicate OccursAt(s: string, pat: string, i: int) {
    0 <= i && i + |pat| <= |s| && s[i..i + |pat|] == pat
  }

  /** Python's `pat in s` for two strings: `pat` occurs at some index of `s`.
      As in Python, the empty string occurs in every string, every string
      occurs in itself, and nothing longer than `s` occurs in it. */
  function Contains(s: string, pat: string): (found: bool)
    ensures found <==> exists i :: OccursAt(s, pat, i)
    ensures pat == [] ==> found
    ensures pat == s ==> found
    ensures found ==> |pat| <= |s|
  {
    assert pat == [] || pat == s ==> OccursAt(s, pat, 0);
    exists i | 0 <= i <= |s| - |pat| :: OccursAt(s, pat, i)
  }

  /** Lower-casing commutes with taking a slice. */
  lemma LowerSlice(s: string, i: int, j: int)
    requires 0 <= i <= j <= |s|
    ensures Lower(s[i..j]) == Lower(s)[i..j]
  {
  }

  /** The substring relation is transitive: a substring of a substring of `t`
      is a substring of `t`. */
  lemma ContainsTransitive(t: string, s: string, pat: string)
    requires Contains(t, s) && Contains(s, pat)
    ensures Contains(t, pat)
  {
    var i :| OccursAt(t, s, i);
    var j :| OccursAt(s, pat, j);
    assert OccursAt(t, s, i) && OccursAt(s, pat, j);
    forall k | 0 <= k < |pat|
      ensures t[i + j + k] == pat[k]
    {
      assert pat[k] == s[j..j + |pat|][k] == s[j + k];
      assert s[j + k] == t[i..i + |s|][j + k] == t[i + j + k];
    }
    assert t[i + j..i + j + |pat|] == pat;
    assert OccursAt(t, pat, i + j);
  }

  /** Every string occurs in any string that extends it on both sides. */
  lemma ContainsInfix(p: string, s: string, q: string)
    ensures Contains(p + s + q, s)
  {
    assert (p + s + q)[|p|..|p| + |s|] == s;
    assert OccursAt(p + s + q, s, |p|);
  }

  /** Lower-casing keeps substrings: if `s` occurs in `t`, the lower-cased `s`
      occurs in the lower-cased `t`, at the same index. */
  lemma LowerKeepsContains(t: string, s: string)
    requires Contains(t, s)
    ensures Contains(Lower(t), Lower(s))
  {
    var i :| OccursAt(t, s, i);
    assert OccursAt(t, s, i);
    LowerSlice(t, i, i + |s|);
    assert OccursAt(Lower(t), Lower(s), i);
  }

  /** A two-character pattern occurs exactly where its two characters sit side by side. */
  lemma ContainsPair(s: string, a: char, b: char)
    ensures Contains(s, [a, b]) <==> exists i :: 0 <= i < |s| - 1 && s[i] == a && s[i + 1] == b
  {
    if Contains(s, [a, b]) {
      var i :| OccursAt(s, [a, b], i);
      assert OccursAt(s, [a, b], i);
      assert s[i..i + 2][0] == s[i] && s[i..i + 2][1] == s[i + 1];
    }
    if exists i :: 0 <= i < |s| - 1 && s[i] == a && s[i + 1] == b {
      var i :| 0 <= i < |s| - 1 && s[i] == a && s[i + 1] == b;
      assert s[i..i + 2] == [a, b];
      assert OccursAt(s, [a, b], i);
    }
  }
}
