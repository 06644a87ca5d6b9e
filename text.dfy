/** The two JavaScript string searches the program relies on:
    `String.prototype.indexOf` (literal) and `String.prototype.search` with a
    string argument, which JavaScript compiles to a regular expression. The
    only metacharacter the program's patterns contain is `.`, so the regular
    expression case is modelled for patterns whose other characters are
    literal. */
module Text {

  /** Characters that a regular-expression `.` does not match. */
  predicate IsLineTerminator(c: char) {
    c == '\n' || c == '\r' || c == '\U{2028}' || c == '\U{2029}'
  }

  /** Whether pattern character `p` matches subject character `c`. */
  predicate CharMatches(p: char, c: char, dotIsWildcard: bool) {
    if dotIsWildcard && p == '.' then !IsLineTerminator(c) else p == c
  }

  /** `pat` occurs in `s` at offset `j`. */
  predicate MatchAt(s: string, j: int, pat: string, dotIsWildcard: bool) {
    0 <= j && j + |pat| <= |s| &&
    forall k :: 0 <= k < |pat| ==> CharMatches(pat[k], s[j + k], dotIsWildcard)
  }

  /** `pat` occurs literally somewhere in `s`. */
  ghost predicate Contains(s: string, pat: string) {
    exists j :: MatchAt(s, j, pat, false)
  }

  /** Patterns made of literal characters and `.` only. */
  predicate DotOnlyPattern(pat: string) {
    forall k :: 0 <= k < |pat| ==> pat[k] !in "\\^$*+?()[]{}|/"
  }

  /** The first offset at or after `from` where `pat` occurs, or -1. */
  function FirstMatch(s: string, pat: string, dotIsWildcard: bool, from: nat): (r: int)
    decreases |s| - from
    ensures r == -1 || (from <= r && MatchAt(s, r, pat, dotIsWildcard))
    ensures r == -1 ==> forall j :: from <= j ==> !MatchAt(s, j, pat, dotIsWildcard)
    ensures r != -1 ==> forall j :: from <= j < r ==> !MatchAt(s, j, pat, dotIsWildcard)
  {
    if from + |pat| > |s| then -1
    else if MatchAt(s, from, pat, dotIsWildcard) then from
    else FirstMatch(s, pat, dotIsWildcard, from + 1)
  }

  /** `s.indexOf(pat)`: the first literal occurrence, -1 when there is none. */
  function IndexOf(s: string, pat: string): (r: int)
    ensures r == -1 <==> !Contains(s, pat)
    ensures r != -1 ==> MatchAt(s, r, pat, false) && forall j :: 0 <= j < r ==> !MatchAt(s, j, pat, false)
  {
    FirstMatch(s, pat, false, 0)
  }

  /** `s.search(pat)` for a pattern whose only metacharacter is `.`: the first
      offset where every `.` of `pat` matches a character other than a line
      terminator and every other character matches itself, -1 when none. */
  function Search(s: string, pat: string): (r: int)
    requires DotOnlyPattern(pat)
    ensures r == -1 <==> forall j :: !MatchAt(s, j, pat, true)
    ensures r != -1 ==> MatchAt(s, r, pat, true) && forall j :: 0 <= j < r ==> !MatchAt(s, j, pat, true)
  {
    FirstMatch(s, pat, true, 0)
  }

  /** Without a `.`, `search` finds a pattern exactly where `indexOf` does. */
  lemma {:induction false} SearchWithoutDotIsIndexOf(s: string, pat: string)
    requires DotOnlyPattern(pat) && '.' !in pat
    ensures Search(s, pat) == IndexOf(s, pat)
  {
    forall j ensures MatchAt(s, j, pat, true) == MatchAt(s, j, pat, false) {
      if 0 <= j && j + |pat| <= |s| {
        forall k | 0 <= k < |pat| ensures CharMatches(pat[k], s[j + k], true) == CharMatches(pat[k], s[j + k], false) {
          assert pat[k] in pat;
        }
      }
    }
  }

  /** The `.` in a `search` pattern matches any non-terminator character, so
      `search` reports an occurrence where `indexOf` reports none. */
  lemma DotMatchesAnyCharacter()
    ensures Search("T-ajax_get", "T.ajax_get") == 0
    ensures IndexOf("T-ajax_get", "T.ajax_get") == -1
  {
    assert MatchAt("T-ajax_get", 0, "T.ajax_get", true);
    assert !MatchAt("T-ajax_get", 0, "T.ajax_get", false) by {
      assert !CharMatches("T.ajax_get"[1], "T-ajax_get"[1], false);
    }
  }
}
