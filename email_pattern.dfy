/** The e-mail pattern the registration pages and the invite modal test:
    `^[^\s@]+@[^\s@]+\.[^\s@]+$`, a JavaScript regular expression without flags. */
module EmailPattern {
  import opened Text

  /** A character of the class `[^\s@]`. */
  predicate Plain(c: char) {
    !IsJsSpace(c) && c != '@'
  }

  /** One run `[^\s@]+`. */
  predicate Run(t: string) {
    |t| > 0 && forall k :: 0 <= k < |t| ==> Plain(t[k])
  }

  /** The regular expression matches `s` with its `@` at `i` and its `\.` at `j`. */
  predicate MatchesAt(s: string, i: int, j: int) {
    0 < i < j < |s| && s[i] == '@' && s[j] == '.'
    && Run(s[..i]) && Run(s[i + 1..j]) && Run(s[j + 1..])
  }

  /** What the regular expression accepts: some split of `s` into the three runs. */
  ghost predicate Matches(s: string) {
    exists i, j :: MatchesAt(s, i, j)
  }

  /** A direct scan deciding the pattern: no white space anywhere, exactly one `@`,
      not first, and a `.` strictly inside the part after it, not right after the `@`. */
  function Test(s: string): (r: bool)
  {
    var i := IndexOf(s, '@');
    0 < i < |s|
    && (forall k :: 0 <= k < |s| ==> !IsJsSpace(s[k]))
    && IndexOf(s[i + 1..], '@') == |s| - i - 1
    && i + 2 < |s| && IndexOf(s[i + 2..|s| - 1], '.') < |s| - i - 3
  }

  /** The scan accepts exactly the strings the regular expression matches. */
  lemma TestIsPattern(s: string)
    ensures Test(s) <==> Matches(s)
  {
    if Test(s) { TestMatches(s); }
    if Matches(s) { var i, j :| MatchesAt(s, i, j); MatchPasses(s, i, j); }
  }

  lemma TestMatches(s: string)
    requires Test(s)
    ensures Matches(s)
  {
    var i := IndexOf(s, '@');
    var t := s[i + 2..|s| - 1];
    var d := IndexOf(t, '.');
    var j := i + 2 + d;
    assert s[j] == t[d];
    NoAtAfter(s, i);
    assert Run(s[..i]);
    assert Run(s[i + 1..j]);
    assert Run(s[j + 1..]);
    assert MatchesAt(s, i, j);
  }

  lemma NoAtAfter(s: string, i: nat)
    requires i < |s| && IndexOf(s[i + 1..], '@') == |s| - i - 1
    ensures forall k :: i < k < |s| ==> s[k] != '@'
  {
    forall k | i < k < |s| ensures s[k] != '@' { assert s[k] == s[i + 1..][k - i - 1]; }
  }

  lemma MatchPasses(s: string, i: int, j: int)
    requires MatchesAt(s, i, j)
    ensures Test(s)
  {
    forall k | 0 <= k < |s| ensures !IsJsSpace(s[k]) && (k != i ==> s[k] != '@') {
      if k < i { assert s[k] == s[..i][k]; }
      else if i < k < j { assert s[k] == s[i + 1..j][k - i - 1]; }
      else if k > j { assert s[k] == s[j + 1..][k - j - 1]; }
    }
    IndexOfFirst(s, '@', i);
    IndexOfNone(s[i + 1..], '@');
    var t := s[i + 2..|s| - 1];
    assert t[j - i - 2] == '.';
    IndexOfAtMost(t, '.', j - i - 2);
  }

  lemma {:induction false} IndexOfFirst(s: string, c: char, i: nat)
    requires i < |s| && s[i] == c && forall k :: 0 <= k < i ==> s[k] != c
    ensures IndexOf(s, c) == i
  {
    if i > 0 { IndexOfFirst(s[1..], c, i - 1); }
  }

  lemma {:induction false} IndexOfNone(s: string, c: char)
    requires forall k :: 0 <= k < |s| ==> s[k] != c
    ensures IndexOf(s, c) == |s|
  {
    if |s| > 0 { IndexOfNone(s[1..], c); }
  }

  lemma {:induction false} IndexOfAtMost(s: string, c: char, i: nat)
    requires i < |s| && s[i] == c
    ensures IndexOf(s, c) <= i
  {
    if i > 0 && s[0] != c { IndexOfAtMost(s[1..], c, i - 1); }
  }

  /** A plain address is accepted. */
  lemma AcceptsAddress()
    ensures Matches("a@b.c")
  {
    assert MatchesAt("a@b.c", 1, 3);
  }

  /** White space anywhere makes an address rejected. */
  lemma RejectsSpace()
    ensures !Matches("a b@c.d")
  {
    TestIsPattern("a b@c.d");
  }

  /** A second `@` makes an address rejected. */
  lemma RejectsSecondAt()
    ensures !Matches("a@b@c.d")
  {
    TestIsPattern("a@b@c.d");
  }

  /** An address without a dot after the `@` is rejected. */
  lemma RejectsNoDot()
    ensures !Matches("a@bc")
  {
    TestIsPattern("a@bc");
  }

  /** An address with nothing before the `@` is rejected. */
  lemma RejectsEmptyLocalPart()
    ensures !Matches("@b.c")
  {
    TestIsPattern("@b.c");
  }
}
