/** The client's e-mail pattern /^[^\s@]+@[^\s@]+\.[^\s@]+$/
    (frontend/src/components/Contact.js:42): what it means as a regular
    expression, and the plain description of the strings it accepts. */
module EmailPattern {
  import opened Text

  /** A character of the class [^\s@]. */
  predicate PlainChar(c: char) {
    !IsJsSpace(c) && c != '@'
  }

  /** s is matched by [^\s@]+. */
  predicate PlainRun(s: string) {
    |s| > 0 && AllIn(s, PlainChar)
  }

  /** The anchored pattern matches s: s splits at an '@' (index i) and a later
      '.' (index j) into three runs of [^\s@]+. */
  ghost predicate MatchesEmailRegex(s: string) {
    exists i, j :: 0 <= i < j < |s| && s[i] == '@' && s[j] == '.'
      && PlainRun(s[..i]) && PlainRun(s[i + 1..j]) && PlainRun(s[j + 1..])
  }

  /** Number of occurrences of c in s. */
  function Count(s: string, c: char): nat {
    if s == [] then 0 else (if s[0] == c then 1 else 0) + Count(s[1..], c)
  }

  /** The domain holds a '.' that is neither its first nor its last character. */
  predicate DotInside(d: string) {
    exists k :: 0 < k < |d| - 1 && d[k] == '.'
  }

  /** Exactly one '@', no whitespace, a non-empty local part, and a domain
      with an inner dot. */
  predicate EmailShape(s: string) {
    Count(s, '@') == 1
    && AllIn(s, c => !IsJsSpace(c))
    && exists i :: 0 < i < |s| && s[i] == '@' && DotInside(s[i + 1..])
  }

  /** The regular expression's test(s), decided through EmailShape. */
  function TestEmailPattern(s: string): (r: bool)
    ensures r <==> MatchesEmailRegex(s)
  {
    EmailShapeIsRegex(s);
    EmailShape(s)
  }

  lemma {:induction false} CountAppend(a: string, b: string, c: char)
    ensures Count(a + b, c) == Count(a, c) + Count(b, c)
  {
    if a != [] {
      assert (a + b)[1..] == a[1..] + b;
      CountAppend(a[1..], b, c);
    } else {
      assert a + b == b;
    }
  }

  lemma {:induction false} CountZero(s: string, c: char)
    ensures Count(s, c) == 0 <==> forall k :: 0 <= k < |s| ==> s[k] != c
  {
    if s != [] {
      CountZero(s[1..], c);
      assert forall k :: 1 <= k < |s| ==> s[k] == s[1..][k - 1];
    }
  }

  /** s is s[..i] + [s[i]] + s[i + 1..] as far as Count can tell. */
  lemma CountAround(s: string, i: nat, c: char)
    requires i < |s|
    ensures Count(s, c) == Count(s[..i], c) + (if s[i] == c then 1 else 0) + Count(s[i + 1..], c)
  {
    assert s == s[..i] + [s[i]] + s[i + 1..];
    CountAppend(s[..i] + [s[i]], s[i + 1..], c);
    CountAppend(s[..i], [s[i]], c);
  }

  /** The pattern accepts exactly the strings with one '@', no whitespace, a
      non-empty local part and a dot strictly inside the domain. */
  lemma EmailShapeIsRegex(s: string)
    ensures MatchesEmailRegex(s) <==> EmailShape(s)
  {
    if MatchesEmailRegex(s) {
      var i, j :| 0 <= i < j < |s| && s[i] == '@' && s[j] == '.'
        && PlainRun(s[..i]) && PlainRun(s[i + 1..j]) && PlainRun(s[j + 1..]);
      RegexGivesShape(s, i, j);
    }
    if EmailShape(s) {
      var i :| 0 < i < |s| && s[i] == '@' && DotInside(s[i + 1..]);
      var k :| 0 < k < |s[i + 1..]| - 1 && s[i + 1..][k] == '.';
      ShapeGivesRegex(s, i, i + 1 + k);
    }
  }

  lemma RegexGivesShape(s: string, i: nat, j: nat)
    requires i < j < |s| && s[i] == '@' && s[j] == '.'
    requires PlainRun(s[..i]) && PlainRun(s[i + 1..j]) && PlainRun(s[j + 1..])
    ensures EmailShape(s)
  {
    forall k | 0 <= k < |s| ensures !IsJsSpace(s[k]) {
      if k < i { assert s[k] == s[..i][k]; }
      else if i < k < j { assert s[k] == s[i + 1..j][k - i - 1]; }
      else if j < k { assert s[k] == s[j + 1..][k - j - 1]; }
    }
    CountZero(s[..i], '@');
    CountZero(s[i + 1..j], '@');
    CountZero(s[j + 1..], '@');
    assert s[i + 1..] == s[i + 1..j] + [s[j]] + s[j + 1..];
    CountAppend(s[i + 1..j] + [s[j]], s[j + 1..], '@');
    CountAppend(s[i + 1..j], [s[j]], '@');
    CountAround(s, i, '@');
    assert s[i + 1..][j - i - 1] == '.';
  }

  lemma ShapeGivesRegex(s: string, i: nat, j: nat)
    requires EmailShape(s)
    requires 0 < i && i + 1 < j < |s| - 1 && s[i] == '@' && s[j] == '.'
    ensures MatchesEmailRegex(s)
  {
    CountAround(s, i, '@');
    CountZero(s[..i], '@');
    CountZero(s[i + 1..], '@');
    forall k | 0 <= k < |s| && k != i ensures PlainChar(s[k]) {
      if k < i { assert s[k] == s[..i][k]; } else { assert s[k] == s[i + 1..][k - i - 1]; }
    }
    var local, domain, top := s[..i], s[i + 1..j], s[j + 1..];
    forall k | 0 <= k < |local| ensures PlainChar(local[k]) { assert local[k] == s[k]; }
    forall k | 0 <= k < |domain| ensures PlainChar(domain[k]) { assert domain[k] == s[i + 1 + k]; }
    forall k | 0 <= k < |top| ensures PlainChar(top[k]) { assert top[k] == s[j + 1 + k]; }
    assert PlainRun(local) && PlainRun(domain) && PlainRun(top);
  }
}
