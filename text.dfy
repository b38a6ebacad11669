/** The whitespace class and String.prototype.trim as the browser script relies on them.
    JavaScript strings are sequences of UTF-16 code units; here a string is a
    sequence of Unicode scalar values (`char`), and `.length` is `|s|`. */
module Text {

  /** WhiteSpace code points of ECMA-262 (2024 edition), section 12.2:
      TAB, VT, FF, ZWNBSP and every code point of general category Zs. */
  predicate IsWhiteSpace(c: char) {
    c == '\t' || c == '\U{000B}' || c == '\U{000C}' || c == '\U{FEFF}'
    || c == ' ' || c == '\U{00A0}' || c == '\U{1680}'
    || ('\U{2000}' <= c && c <= '\U{200A}')
    || c == '\U{202F}' || c == '\U{205F}' || c == '\U{3000}'
  }

  /** LineTerminator code points of ECMA-262 (2024 edition), section 12.3. */
  predicate IsLineTerminator(c: char) {
    c == '\n' || c == '\r' || c == '\U{2028}' || c == '\U{2029}'
  }

  /** The characters the regular-expression class `\s` matches, which are also
      the characters `trim()` strips from both ends. */
  predicate IsSpace(c: char) {
    IsWhiteSpace(c) || IsLineTerminator(c)
  }

  /** Every character of `s` is whitespace (vacuously true of ""). */
  predicate AllSpace(s: string) {
    forall k :: 0 <= k < |s| ==> IsSpace(s[k])
  }

  /** Strips the leading whitespace. */
  function TrimStart(s: string): (r: string)
    ensures |r| <= |s|
  {
    if s != [] && IsSpace(s[0]) then TrimStart(s[1..]) else s
  }

  /** Strips the trailing whitespace. */
  function TrimEnd(s: string): (r: string)
    ensures |r| <= |s|
  {
    if s != [] && IsSpace(s[|s| - 1]) then TrimEnd(s[..|s| - 1]) else s
  }

  /** String.prototype.trim: whitespace removed from both ends. */
  function Trim(s: string): (r: string)
    ensures |r| <= |s|
  {
    TrimEnd(TrimStart(s))
  }

  /** What TrimStart leaves is a suffix of `s` that does not start with whitespace,
      and everything it removed is whitespace. */
  lemma {:induction false} TrimStartStrips(s: string)
    ensures TrimStart(s) == s[|s| - |TrimStart(s)|..]
    ensures AllSpace(s[..|s| - |TrimStart(s)|])
    ensures TrimStart(s) == [] || !IsSpace(TrimStart(s)[0])
  {
    if s != [] && IsSpace(s[0]) {
      TrimStartStrips(s[1..]);
      var n := |s| - |TrimStart(s)|;
      assert s[..n] == [s[0]] + s[1..][..n - 1];
    }
  }

  /** What TrimEnd leaves is a prefix of `s` that does not end with whitespace,
      and everything it removed is whitespace. */
  lemma {:induction false} TrimEndStrips(s: string)
    ensures TrimEnd(s) == s[..|TrimEnd(s)|]
    ensures AllSpace(s[|TrimEnd(s)|..])
    ensures TrimEnd(s) == [] || !IsSpace(TrimEnd(s)[|TrimEnd(s)| - 1])
  {
    if s != [] && IsSpace(s[|s| - 1]) {
      var t := s[..|s| - 1];
      TrimEndStrips(t);
      var n := |TrimEnd(s)|;
      assert s[n..] == t[n..] + [s[|s| - 1]];
    }
  }

  /** `r` is the infix of `s` starting at `k`, with only whitespace on either side. */
  predicate StripsOnlySpace(s: string, k: int, r: string) {
    0 <= k && k + |r| <= |s| && r == s[k..k + |r|]
    && AllSpace(s[..k]) && AllSpace(s[k + |r|..])
  }

  /** Trim leaves the infix of `s` obtained by removing only whitespace on both
      sides; the result neither starts nor ends with whitespace. */
  lemma TrimStrips(s: string)
    ensures exists k :: StripsOnlySpace(s, k, Trim(s))
    ensures Trim(s) == [] || (!IsSpace(Trim(s)[0]) && !IsSpace(Trim(s)[|Trim(s)| - 1]))
  {
    var t := TrimStart(s);
    var r := TrimEnd(t);
    TrimStartStrips(s);
    TrimEndStrips(t);
    var k := |s| - |t|;
    assert s[k..k + |r|] == r;
    assert s[k + |r|..] == t[|r|..];
    assert r == Trim(s);
    assert StripsOnlySpace(s, k, Trim(s));
    if r != [] {
      assert r[0] == t[0];
    }
  }

  /** The test `value.trim() === ''` holds exactly when every character is whitespace. */
  lemma TrimEmptyIffAllSpace(s: string)
    ensures Trim(s) == [] <==> AllSpace(s)
  {
    TrimStrips(s);
    var r := Trim(s);
    var k :| StripsOnlySpace(s, k, r);
    if r == [] {
      assert s == s[..k] + s[k..];
      forall m | 0 <= m < |s| ensures IsSpace(s[m]) {
        if m < k { assert s[m] == s[..k][m]; } else { assert s[m] == s[k..][m - k]; }
      }
    } else {
      assert r[0] == s[k];
    }
  }
}
