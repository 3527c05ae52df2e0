/** The part of JavaScript's String.prototype.trim that the add-box guard relies on. */
module JsString {

  /** ECMAScript WhiteSpace and LineTerminator code points: the characters trim() strips. */
  predicate IsWhitespace(c: char) {
    // tab, line feed, vertical tab, form feed, carriage return, space
    c == '\U{0009}' || c == '\U{000A}' || c == '\U{000B}' || c == '\U{000C}' || c == '\U{000D}' ||
    c == '\U{0020}' ||
    // no-break space, the Unicode space separators (category Zs), the line and paragraph separators
    c == '\U{00A0}' || c == '\U{1680}' || ('\U{2000}' <= c <= '\U{200A}') ||
    c == '\U{2028}' || c == '\U{2029}' || c == '\U{202F}' || c == '\U{205F}' || c == '\U{3000}' ||
    // byte order mark
    c == '\U{FEFF}'
  }

  /** Every character of s is whitespace (the empty string included). */
  predicate IsBlank(s: string) {
    forall i :: 0 <= i < |s| ==> IsWhitespace(s[i])
  }

  /** s without its leading whitespace: a suffix of s that starts with a non-whitespace
      character, and empty exactly when s is blank. */
  function TrimStart(s: string): (r: string)
    ensures |r| <= |s| && r == s[|s| - |r|..]
    ensures forall i :: 0 <= i < |s| - |r| ==> IsWhitespace(s[i])
    ensures r != [] ==> !IsWhitespace(r[0])
    ensures r == [] <==> IsBlank(s)
  {
    if s != [] && IsWhitespace(s[0]) then TrimStart(s[1..]) else s
  }

  /** s without its trailing whitespace: a prefix of s that ends with a non-whitespace
      character, and empty exactly when s is blank. */
  function TrimEnd(s: string): (r: string)
    ensures |r| <= |s| && r == s[..|r|]
    ensures forall i :: |r| <= i < |s| ==> IsWhitespace(s[i])
    ensures r != [] ==> !IsWhitespace(r[|r| - 1])
    ensures r == [] <==> IsBlank(s)
  {
    if s != [] && IsWhitespace(s[|s| - 1]) then TrimEnd(s[..|s| - 1]) else s
  }

  /** JavaScript's s.trim(): the empty string exactly when s is blank, and otherwise the
      slice of s left once its leading and trailing whitespace is dropped, so it neither
      starts nor ends with whitespace. */
  function Trim(s: string): (r: string)
    ensures r == [] <==> IsBlank(s)
    ensures r != [] ==> !IsWhitespace(r[0]) && !IsWhitespace(r[|r| - 1])
    ensures exists lo, hi :: 0 <= lo <= hi <= |s| && r == s[lo..hi] && IsBlank(s[..lo]) && IsBlank(s[hi..])
  {
    var t := TrimStart(s);
    var r := TrimEnd(t);
    TrimDropsOnlyEnds(s, t, r);
    r
  }

  /** What TrimStart and then TrimEnd drop is the blank head and the blank tail of s. */
  lemma TrimDropsOnlyEnds(s: string, t: string, r: string)
    requires |t| <= |s| && t == s[|s| - |t|..] && forall i :: 0 <= i < |s| - |t| ==> IsWhitespace(s[i])
    requires |r| <= |t| && r == t[..|r|] && forall i :: |r| <= i < |t| ==> IsWhitespace(t[i])
    ensures var lo := |s| - |t|; var hi := lo + |r|;
      0 <= lo <= hi <= |s| && r == s[lo..hi] && IsBlank(s[..lo]) && IsBlank(s[hi..])
  {
    var lo := |s| - |t|;
    var hi := lo + |r|;
    assert forall i :: hi <= i < |s| ==> s[i] == t[i - lo];
    BlankSlice(s, 0, lo);
    BlankSlice(s, hi, |s|);
    assert s[..lo] == s[0..lo] && s[hi..] == s[hi..|s|];
  }

  /** A stretch of whitespace characters is a blank string. */
  lemma BlankSlice(s: string, a: nat, b: nat)
    requires a <= b <= |s|
    requires forall i :: a <= i < b ==> IsWhitespace(s[i])
    ensures IsBlank(s[a..b])
  {
    assert forall i :: 0 <= i < b - a ==> s[a..b][i] == s[a + i];
  }
}
