/** The fixed pattern `emailRegex` = /^[^\s@]+@[^\s@]+\.[^\s@]+$/ (script.js line 75),
    as a reference definition and as the test the form runs. */
module EmailPattern {
  import opened Text

  /** A character the class `[^\s@]` accepts. */
  predicate IsPartChar(c: char) {
    !IsSpace(c) && c != '@'
  }

  /** A string that `[^\s@]+` matches in full. */
  predicate IsPart(s: string) {
    |s| > 0 && forall k :: 0 <= k < |s| ==> IsPartChar(s[k])
  }

  /** `s` reads L "@" D "." T with the '@' at index `i` and the '.' at index `j`,
      where L, D and T each match `[^\s@]+`. */
  predicate SplitsAt(s: string, i: int, j: int) {
    0 <= i < j < |s| && s[i] == '@' && s[j] == '.'
    && IsPart(s[..i]) && IsPart(s[i + 1..j]) && IsPart(s[j + 1..])
  }

  /** The whole of `s` matches the anchored pattern: some choice of the '@' and of
      the literal '.' splits it into three runs of `[^\s@]+`. */
  ghost predicate MatchesPattern(s: string)
    ensures MatchesPattern(s) ==> 5 <= |s| && IsPartChar(s[0]) && IsPartChar(s[|s| - 1])
  {
    exists i, j :: SplitsAt(s, i, j)
  }

  /** The index of the first `c` in `s`, or `|s|` when there is none. */
  function IndexOf(s: string, c: char): (r: nat)
    ensures r <= |s|
    ensures r < |s| ==> s[r] == c
    ensures forall k :: 0 <= k < r ==> s[k] != c
  {
    if s == [] then 0
    else if s[0] == c then 0
    else 1 + IndexOf(s[1..], c)
  }

  /** `emailRegex.test(s)`: since no run may hold '@', the '@' is the first one;
      the text after it has no whitespace and no '@', and a '.' that is neither
      its first nor its last character. */
  predicate TestEmail(s: string)
    ensures TestEmail(s) ==> 5 <= |s| && IsPartChar(s[0]) && IsPartChar(s[|s| - 1])
  {
    var i := IndexOf(s, '@');
    i + 4 <= |s| && IsPart(s[..i]) && IsPart(s[i + 1..]) && '.' in s[i + 2..|s| - 1]
  }

  /** L "@" D "." T matches whenever L, D and T are runs of `[^\s@]+`. */
  lemma PartsMatch(l: string, d: string, t: string)
    requires IsPart(l) && IsPart(d) && IsPart(t)
    ensures MatchesPattern(l + "@" + d + "." + t)
  {
    var s := l + "@" + d + "." + t;
    var i, j := |l|, |l| + 1 + |d|;
    assert s[..i] == l;
    assert s[i + 1..j] == d;
    assert s[j + 1..] == t;
    assert SplitsAt(s, i, j);
  }

  /** A matching string has no whitespace at all and exactly one '@', so a leading
      or trailing space, or a second '@', rules a string out. */
  lemma MatchShape(s: string)
    requires MatchesPattern(s)
    ensures forall k :: 0 <= k < |s| ==> !IsSpace(s[k])
    ensures multiset(s)['@'] == 1
  {
    var i, j :| SplitsAt(s, i, j);
    forall k | 0 <= k < |s| ensures IsPartChar(s[k]) || k == i {
      if k < i { assert s[k] == s[..i][k]; }
      else if i < k < j { assert s[k] == s[i + 1..j][k - i - 1]; }
      else if j < k { assert s[k] == s[j + 1..][k - j - 1]; }
    }
    assert s == s[..i] + [s[i]] + s[i + 1..];
    assert '@' !in s[..i];
    assert '@' !in s[i + 1..];
    assert multiset(s) == multiset(s[..i]) + multiset{'@'} + multiset(s[i + 1..]);
  }

  /** The test the form runs agrees with the pattern on every string. */
  lemma TestEmailIffPattern(s: string)
    ensures TestEmail(s) <==> MatchesPattern(s)
  {
    var i := IndexOf(s, '@');
    if TestEmail(s) {
      var mid := s[i + 2..|s| - 1];
      var m :| 0 <= m < |mid| && mid[m] == '.';
      var j := i + 2 + m;
      assert s[j] == '.';
      assert s[i + 1..j] == s[i + 1..][..j - i - 1];
      assert s[j + 1..] == s[i + 1..][j - i..];
      assert SplitsAt(s, i, j);
    }
    if MatchesPattern(s) {
      var a, b :| SplitsAt(s, a, b);
      forall k | 0 <= k < a ensures s[k] != '@' {
        assert s[k] == s[..a][k];
      }
      assert i == a;
      var rest := s[i + 1..];
      forall k | 0 <= k < |rest| ensures IsPartChar(rest[k]) {
        if k < b - i - 1 { assert rest[k] == s[i + 1..b][k]; }
        else if k > b - i - 1 { assert rest[k] == s[b + 1..][k - (b - i)]; }
      }
      assert s[i + 2..|s| - 1][b - i - 2] == '.';
    }
  }
}
