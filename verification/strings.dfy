/** The string primitives the lexer relies on: the blank characters ' ' and
    '\t', prefix tests, and trimming of blanks at both ends (Go's
    strings.HasPrefix, strings.TrimPrefix and strings.Trim with cutset " \t").
    All characters involved are ASCII, so bytes and runes coincide. */
module Strings {

  /** The only two characters the lexer treats as whitespace. */
  predicate IsBlank(c: char) {
    c == ' ' || c == '\t'
  }

  predicate AllBlank(s: string) {
    forall k :: 0 <= k < |s| ==> IsBlank(s[k])
  }

  predicate HasPrefix(s: string, prefix: string) {
    |prefix| <= |s| && s[..|prefix|] == prefix
  }

  /** The number of blank characters s starts with. */
  function LeadingBlanks(s: string): (n: nat)
    ensures n <= |s|
    ensures AllBlank(s[..n])
    ensures n < |s| ==> !IsBlank(s[n])
  {
    if |s| > 0 && IsBlank(s[0]) then
      assert forall k :: 1 <= k < 1 + LeadingBlanks(s[1..]) ==> s[k] == s[1..][k - 1];
      1 + LeadingBlanks(s[1..])
    else 0
  }

  /** s without its trailing blanks. */
  function TrimRight(s: string): (r: string)
    ensures |r| <= |s|
    ensures r == s[..|r|]
    ensures AllBlank(s[|r|..])
    ensures r == [] || !IsBlank(r[|r| - 1])
  {
    if |s| > 0 && IsBlank(s[|s| - 1]) then
      var r := TrimRight(s[..|s| - 1]);
      assert forall k :: |r| <= k < |s| - 1 ==> s[k] == s[..|s| - 1][k];
      r
    else s
  }

  /** strings.Trim(s, " \t"): the middle part of s left once the blanks at
      both ends are cut off. It is empty exactly when s is all blanks. */
  function Trim(s: string): (r: string)
    ensures |r| <= |s|
    ensures r == [] <==> AllBlank(s)
    ensures r != [] ==> !IsBlank(r[0]) && !IsBlank(r[|r| - 1])
  {
    var n := LeadingBlanks(s);
    var r := TrimRight(s[n..]);
    assert r != [] ==> r[0] == s[n];
    TrimEmptyIffBlank(s);
    r
  }

  /** Trim removes nothing but blanks: its result starts where the leading
      blanks of s end, and only blanks follow it. */
  lemma TrimCutsBlanks(s: string)
    ensures var n := LeadingBlanks(s);
      && n + |Trim(s)| <= |s|
      && Trim(s) == s[n..n + |Trim(s)|]
      && AllBlank(s[n + |Trim(s)|..])
  {
    var n := LeadingBlanks(s);
    var l := s[n..];
    var r := TrimRight(l);
    assert Trim(s) == r;
    assert s[n + |r|..] == l[|r|..];
  }

  lemma TrimEmptyIffBlank(s: string)
    ensures TrimRight(s[LeadingBlanks(s)..]) == [] <==> AllBlank(s)
  {
    var n := LeadingBlanks(s);
    var l := s[n..];
    AllBlankSplit(s, n);
    AllBlankSplit(l, |TrimRight(l)|);
  }

  /** A string is all blanks iff both parts of any split of it are. */
  lemma AllBlankSplit(s: string, a: nat)
    requires a <= |s|
    ensures AllBlank(s) <==> AllBlank(s[..a]) && AllBlank(s[a..])
  {
    assert s == s[..a] + s[a..];
  }
}
