/** Whitespace and trimming as the two runtimes of the contact form define
    them: JavaScript's String.prototype.trim and regular-expression class \s on
    the client, Python's str.strip and re's \s on the server. Both trims are
    one operation, Strip, parameterised by the set of characters removed. */
module Text {

  /** ECMAScript WhiteSpace and LineTerminator code points: what trim() removes
      and what \s matches in a JavaScript regular expression. */
  predicate IsJsSpace(c: char) {
    c == '\t' || c == '\n' || c == '\U{B}' || c == '\U{C}' || c == '\r' || c == ' '
    || c == '\U{A0}' || c == '\U{1680}' || ('\U{2000}' <= c <= '\U{200A}')
    || c == '\U{2028}' || c == '\U{2029}' || c == '\U{202F}' || c == '\U{205F}'
    || c == '\U{3000}' || c == '\U{FEFF}'
  }

  /** Python's str.isspace: what str.strip() removes and what \s matches in a
      pattern applied to a str. */
  predicate IsPySpace(c: char) {
    ('\t' <= c <= '\r') || ('\U{1C}' <= c <= '\U{1F}') || c == ' ' || c == '\U{85}'
    || c == '\U{A0}' || c == '\U{1680}' || ('\U{2000}' <= c <= '\U{200A}')
    || c == '\U{2028}' || c == '\U{2029}' || c == '\U{202F}' || c == '\U{205F}'
    || c == '\U{3000}'
  }

  /** Every character of s satisfies p. */
  predicate AllIn(s: string, p: char -> bool) {
    forall k :: 0 <= k < |s| ==> p(s[k])
  }

  /** Neither end of s is a character of ws. */
  predicate NoEdge(s: string, ws: char -> bool) {
    s == [] || (!ws(s[0]) && !ws(s[|s| - 1]))
  }

  /** s without its leading run of ws characters. */
  function TrimStart(s: string, ws: char -> bool): (r: string)
    ensures |r| <= |s|
  {
    if s != [] && ws(s[0]) then TrimStart(s[1..], ws) else s
  }

  /** What TrimStart removes is a run of ws, and what it keeps is the rest of
      s, starting with a character outside ws. */
  lemma {:induction false} TrimStartIsSuffix(s: string, ws: char -> bool)
    ensures TrimStart(s, ws) == s[|s| - |TrimStart(s, ws)|..]
    ensures AllIn(s[..|s| - |TrimStart(s, ws)|], ws)
    ensures TrimStart(s, ws) != [] ==> !ws(TrimStart(s, ws)[0])
  {
    if s != [] && ws(s[0]) {
      TrimStartIsSuffix(s[1..], ws);
      var r := TrimStart(s, ws);
      assert s[1..][|s| - 1 - |r|..] == s[|s| - |r|..];
      var cut, rest := s[..|s| - |r|], s[1..][..|s| - 1 - |r|];
      assert forall k :: 0 < k < |cut| ==> cut[k] == rest[k - 1];
    }
  }

  /** s without its trailing run of ws characters. */
  function TrimEnd(s: string, ws: char -> bool): (r: string)
    ensures |r| <= |s|
  {
    if s != [] && ws(s[|s| - 1]) then TrimEnd(s[..|s| - 1], ws) else s
  }

  /** What TrimEnd removes is a run of ws, and what it keeps is the start of
      s, ending with a character outside ws. */
  lemma {:induction false} TrimEndIsPrefix(s: string, ws: char -> bool)
    ensures TrimEnd(s, ws) == s[..|TrimEnd(s, ws)|]
    ensures AllIn(s[|TrimEnd(s, ws)|..], ws)
    ensures TrimEnd(s, ws) != [] ==> !ws(TrimEnd(s, ws)[|TrimEnd(s, ws)| - 1])
  {
    if s != [] && ws(s[|s| - 1]) {
      TrimEndIsPrefix(s[..|s| - 1], ws);
      var r := TrimEnd(s, ws);
      assert s[..|s| - 1][..|r|] == s[..|r|];
      var cut, rest := s[|r|..], s[..|s| - 1][|r|..];
      assert forall k :: 0 <= k < |rest| ==> cut[k] == rest[k];
    }
  }

  /** s without leading and trailing ws characters. */
  function Strip(s: string, ws: char -> bool): (r: string)
    ensures |r| <= |s|
    ensures NoEdge(r, ws)
    ensures r == [] <==> AllIn(s, ws)
  {
    var t := TrimStart(s, ws);
    var r := TrimEnd(t, ws);
    TrimStartIsSuffix(s, ws);
    TrimEndIsPrefix(t, ws);
    assert r == [] ==> t == [] && s[..|s|] == s;
    assert r != [] ==> s[|s| - |t|] == r[0];
    r
  }

  /** JavaScript's s.trim(). */
  function JsTrim(s: string): string {
    Strip(s, IsJsSpace)
  }

  /** !s.trim() in JavaScript: s is all whitespace, so trimming leaves the
      empty (falsy) string. */
  function JsBlank(s: string): (b: bool)
    ensures b <==> AllIn(s, IsJsSpace)
  {
    s == [] || (IsJsSpace(s[0]) && JsBlank(s[1..]))
  }

  /** JsBlank(s) is the falsiness of s.trim(). */
  lemma JsBlankIsEmptyTrim(s: string)
    ensures JsBlank(s) <==> JsTrim(s) == []
  {
  }

  /** Python's s.strip() with no argument. */
  function PyStrip(s: string): string {
    Strip(s, IsPySpace)
  }

  /** Strip removes only a run of ws at each end: what it returns is the slice
      s[i..i + |Strip(s, ws)|] and everything outside that slice is in ws. */
  lemma {:induction false} StripIsInfix(s: string, ws: char -> bool) returns (i: nat)
    ensures i + |Strip(s, ws)| <= |s|
    ensures Strip(s, ws) == s[i..i + |Strip(s, ws)|]
    ensures AllIn(s[..i], ws) && AllIn(s[i + |Strip(s, ws)|..], ws)
  {
    var t := TrimStart(s, ws);
    TrimStartIsSuffix(s, ws);
    var r := TrimEnd(t, ws);
    TrimEndIsPrefix(t, ws);
    assert Strip(s, ws) == r;
    i := |s| - |t|;
    assert r == s[i..][..|r|];
    assert s[i..][..|r|] == s[i..i + |r|];
    assert s[i + |r|..] == t[|r|..];
  }

  /** Stripping twice is stripping once. */
  lemma {:induction false} StripIdempotent(s: string, ws: char -> bool)
    ensures Strip(Strip(s, ws), ws) == Strip(s, ws)
  {
    var r := Strip(s, ws);
    if r != [] {
      assert TrimStart(r, ws) == r;
      assert TrimEnd(r, ws) == r;
    }
  }

  /** A string with no ws character at either end is left as it is. */
  lemma StripNoEdge(s: string, ws: char -> bool)
    requires NoEdge(s, ws)
    ensures Strip(s, ws) == s
  {
    if s != [] {
      assert TrimStart(s, ws) == s;
      assert TrimEnd(s, ws) == s;
    }
  }
}
