/** The email check `/\S+@\S+\.\S+/.test(email)` shared by the login and register forms. */
module EmailPattern {
  import opened Text

  /** `w` matches `\S+@\S+\.\S+` as a whole: non-space runs around an `@` and a later `.`. */
  ghost predicate FullMatch(w: string) {
    exists p, q :: FullMatchAt(w, p, q)
  }

  /** The `@` of a whole match is at `p` and its `.` at `q`. */
  ghost predicate FullMatchAt(w: string, p: int, q: int) {
    && 0 < p && p + 1 < q && q + 1 < |w|
    && w[p] == '@' && w[q] == '.'
    && NoSpace(w[..p]) && NoSpace(w[p + 1..q]) && NoSpace(w[q + 1..])
  }

  /** `RegExp.prototype.test` of the unanchored pattern: some substring matches it as a whole. */
  ghost predicate Test(s: string) {
    exists i, j :: 0 <= i <= j <= |s| && FullMatch(s[i..j])
  }

  /**
   * The search as the client can run it: an `@` at `p` and a `.` at `q` at least two places later,
   * with no white space from just before the `@` to just after the `.`.
   */
  predicate MatchAt(s: string, p: int, q: int) {
    && 1 <= p && p + 2 <= q && q + 2 <= |s|
    && s[p] == '@' && s[q] == '.'
    && NoSpace(s[p - 1..q + 2])
  }

  predicate Found(s: string) {
    exists p, q | 0 <= p < |s| && 0 <= q < |s| :: MatchAt(s, p, q)
  }

  /** A match position found by the search is a witness of the regular expression, and back. */
  lemma FoundIffTest(s: string)
    ensures Found(s) <==> Test(s)
  {
    if Found(s) {
      var p, q :| 0 <= p < |s| && 0 <= q < |s| && MatchAt(s, p, q);
      MatchGivesFullMatch(s, p, q);
    }
    if Test(s) {
      var i, j :| 0 <= i <= j <= |s| && FullMatch(s[i..j]);
      FullMatchGivesMatch(s, i, j);
    }
  }

  lemma MatchGivesFullMatch(s: string, p: int, q: int)
    requires MatchAt(s, p, q)
    ensures FullMatch(s[p - 1..q + 2])
  {
    var w := s[p - 1..q + 2];
    var p', q' := 1, q - p + 1;
    assert w[p'] == '@' && w[q'] == '.';
    NoSpaceSlice(w, 0, p');
    NoSpaceSlice(w, p' + 1, q');
    NoSpaceSlice(w, q' + 1, |w|);
    assert w[..p'] == w[0..p'] && w[q' + 1..] == w[q' + 1..|w|];
    assert FullMatchAt(w, p', q');
  }

  lemma FullMatchGivesMatch(s: string, i: int, j: int)
    requires 0 <= i <= j <= |s| && FullMatch(s[i..j])
    ensures Found(s)
  {
    var p', q' :| FullMatchAt(s[i..j], p', q');
    ShiftMatch(s, i, j, p', q');
  }

  lemma ShiftMatch(s: string, i: int, j: int, p': int, q': int)
    requires 0 <= i <= j <= |s| && FullMatchAt(s[i..j], p', q')
    ensures MatchAt(s, i + p', i + q')
  {
    var w := s[i..j];
    var p, q := i + p', i + q';
    var t := s[p - 1..q + 2];
    forall k | 0 <= k < |t|
      ensures !IsSpace(t[k])
    {
      var m := k + p' - 1;
      assert t[k] == s[p - 1 + k];
      assert w[m] == s[i + m];
      if m < p' {
        assert w[m] == w[..p'][m];
      } else if m == p' {
      } else if m < q' {
        assert w[m] == w[p' + 1..q'][m - p' - 1];
      } else if m == q' {
      } else {
        assert w[m] == w[q' + 1..][m - q' - 1];
      }
    }
  }
}
