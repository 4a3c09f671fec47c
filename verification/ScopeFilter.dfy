/** The filter that keeps retrieval inside a scope (internal/db/store.go): the escaping of LIKE's
    own characters, and what SQLite's LIKE then matches. */
module ScopeFilter {
  import opened Text
  import opened Paths

  /** strings.ReplaceAll of one character. */
  function ReplaceAll(s: string, c: char, into: string): string {
    if s == "" then "" else (if s[0] == c then into else [s[0]]) + ReplaceAll(s[1..], c, into)
  }

  /** The source's loop: each of the three characters in turn, over the result so far. */
  method LikeLiteral(s: string) returns (r: string)
    ensures r == Escaped(s)
  {
    var cs := "\\%_";
    r := s;
    for i := 0 to |cs|
      invariant r == if i == 0 then s else if i == 1 then ReplaceAll(s, '\\', "\\\\")
        else if i == 2 then ReplaceAll(ReplaceAll(s, '\\', "\\\\"), '%', "\\%")
        else ReplaceAll(ReplaceAll(ReplaceAll(s, '\\', "\\\\"), '%', "\\%"), '_', "\\_")
    {
      r := ReplaceAll(r, cs[i], "\\" + [cs[i]]);
      assert "\\" + ['\\'] == "\\\\" && "\\" + ['%'] == "\\%" && "\\" + ['_'] == "\\_";
    }
    ThreePassesAreOne(s);
  }

  predicate IsSyntax(c: char) { c == '\\' || c == '%' || c == '_' }

  /** One pass: a backslash in front of every character LIKE would read as syntax. */
  function Escaped(s: string): string {
    if s == "" then "" else (if IsSyntax(s[0]) then "\\" + [s[0]] else [s[0]]) + Escaped(s[1..])
  }

  lemma {:induction false} ReplaceConcat(a: string, b: string, c: char, into: string)
    ensures ReplaceAll(a + b, c, into) == ReplaceAll(a, c, into) + ReplaceAll(b, c, into)
  {
    if a == "" {
      assert a + b == b;
    } else {
      var first := if a[0] == c then into else [a[0]];
      ReplaceConcat(a[1..], b, c, into);
      assert (a + b)[1..] == a[1..] + b;
      assert ReplaceAll(a + b, c, into) == first + ReplaceAll(a[1..] + b, c, into);
      assert ReplaceAll(a, c, into) == first + ReplaceAll(a[1..], c, into);
      hide ReplaceAll;
      Assoc(first, ReplaceAll(a[1..], c, into), ReplaceAll(b, c, into));
    }
  }

  /** Replacing in turn never escapes an escape: the backslash goes first. */
  lemma {:induction false} ThreePassesAreOne(s: string)
    ensures ReplaceAll(ReplaceAll(ReplaceAll(s, '\\', "\\\\"), '%', "\\%"), '_', "\\_") == Escaped(s)
  {
    if s != "" {
      var first := if s[0] == '\\' then "\\\\" else [s[0]];
      var rest := ReplaceAll(s[1..], '\\', "\\\\");
      ReplaceConcat(first, rest, '%', "\\%");
      ReplaceConcat(ReplaceAll(first, '%', "\\%"), ReplaceAll(rest, '%', "\\%"), '_', "\\_");
      ThreePassesOnOne(s[0]);
      ThreePassesAreOne(s[1..]);
    }
  }

  lemma ThreePassesOnOne(c: char)
    ensures ReplaceAll(ReplaceAll(if c == '\\' then "\\\\" else [c], '%', "\\%"), '_', "\\_") ==
      if IsSyntax(c) then "\\" + [c] else [c]
  {
    ReplaceTwo('\\', '\\', '%', "\\%");
    ReplaceTwo('\\', '\\', '_', "\\_");
    ReplaceTwo('\\', '%', '_', "\\_");
    ReplaceOne(c, '%', "\\%");
    ReplaceOne(c, '_', "\\_");
  }

  lemma ReplaceOne(x: char, c: char, into: string)
    ensures ReplaceAll([x], c, into) == if x == c then into else [x]
  {
    assert [x][1..] == "";
    assert into + "" == into;
  }

  lemma ReplaceTwo(x: char, y: char, c: char, into: string)
    requires x != c && y != c
    ensures ReplaceAll([x, y], c, into) == [x, y]
  {
    assert [x, y][1..] == [y];
    ReplaceOne(y, c, into);
  }

  /** SQLite's LIKE with a backslash as the escape character: case does not count for ASCII
      letters. */
  predicate Like(pattern: string, s: string)
    decreases |pattern| + |s|
  {
    if pattern == "" then s == ""
    else if pattern[0] == '%' then Like(pattern[1..], s) || (s != "" && Like(pattern, s[1..]))
    else if pattern[0] == '_' then s != "" && Like(pattern[1..], s[1..])
    else if pattern[0] == '\\' then
      |pattern| > 1 && s != "" && LowerChar(pattern[1]) == LowerChar(s[0]) && Like(pattern[2..], s[1..])
    else s != "" && LowerChar(pattern[0]) == LowerChar(s[0]) && Like(pattern[1..], s[1..])
  }

  lemma {:induction false} PercentMatchesAll(s: string)
    ensures Like("%", s)
    decreases |s|
  {
    assert "%"[1..] == "";
    if s != "" { PercentMatchesAll(s[1..]); }
  }

  predicate FoldPrefix(a: string, s: string) {
    |a| <= |s| && EqualFold(a, s[..|a|])
  }

  /** An escaped text in front of a pattern matches itself, letter case aside, and nothing else. */
  lemma {:induction false} LikeEscaped(a: string, pattern: string, s: string)
    ensures Like(Escaped(a) + pattern, s) <==> FoldPrefix(a, s) && Like(pattern, s[|a|..])
    decreases |a|
  {
    if a == "" {
      assert Escaped(a) + pattern == pattern;
    } else {
      LikeStep(a, pattern, s);
      if s != "" {
        LikeEscaped(a[1..], pattern, s[1..]);
        FoldStep(a, s);
        hide Like, Escaped, FoldPrefix;
        assert |a| <= |s| ==> s[1..][|a| - 1..] == s[|a|..];
      }
    }
  }

  lemma LikeStep(a: string, pattern: string, s: string)
    requires a != ""
    ensures Like(Escaped(a) + pattern, s)
       <==> s != "" && LowerChar(a[0]) == LowerChar(s[0]) && Like(Escaped(a[1..]) + pattern, s[1..])
  {
    var rest := Escaped(a[1..]) + pattern;
    LikeOne(a[0], rest, s);
    hide Like, LowerChar;
    if IsSyntax(a[0]) {
      assert Escaped(a) + pattern == ['\\', a[0]] + rest;
    } else {
      assert Escaped(a) + pattern == [a[0]] + rest;
    }
  }

  lemma LikeOne(c: char, rest: string, s: string)
    ensures Like(if IsSyntax(c) then ['\\', c] + rest else [c] + rest, s)
       <==> s != "" && LowerChar(c) == LowerChar(s[0]) && Like(rest, s[1..])
  {
    hide LowerChar;
    if IsSyntax(c) {
      assert (['\\', c] + rest)[2..] == rest;
    } else {
      assert ([c] + rest)[1..] == rest;
    }
  }

  lemma FoldStep(a: string, s: string)
    requires a != "" && s != ""
    ensures FoldPrefix(a, s) <==> LowerChar(a[0]) == LowerChar(s[0]) && FoldPrefix(a[1..], s[1..])
  {
    if |a| <= |s| {
      var b := s[..|a|];
      assert s[1..][..|a| - 1] == b[1..];
      if FoldPrefix(a, s) {
        assert Lower(a)[0] == Lower(b)[0];
        forall i | 0 <= i < |a| - 1 ensures Lower(a[1..])[i] == Lower(b[1..])[i] {
          assert Lower(a)[i + 1] == Lower(b)[i + 1];
        }
      }
      if LowerChar(a[0]) == LowerChar(s[0]) && FoldPrefix(a[1..], s[1..]) {
        forall i | 0 <= i < |a| ensures Lower(a)[i] == Lower(b)[i] {
          if i > 0 { assert Lower(a[1..])[i - 1] == Lower(b[1..])[i - 1]; }
        }
      }
    }
  }

  /** What the WHERE clause keeps; no scope keeps everything. */
  predicate InScope(scope: string, path: string) {
    scope == "" || path == scope || Like(Escaped(scope) + "/%", path)
  }

  /** A scope reaches the document it names and what lies below it, whatever characters it holds;
      letter case in the folder does not count. */
  lemma ScopeReachesItsSubtree(scope: string, path: string)
    requires scope != ""
    ensures InScope(scope, path) <==> path == scope || FoldPrefix(scope + "/", path)
  {
    LikeEscaped(scope, "/%", path);
    assert "/%"[1..] == "%";
    if FoldPrefix(scope, path) {
      var rest := path[|scope|..];
      if rest != "" { PercentMatchesAll(rest[1..]); }
      SlashFold(scope, path);
    } else {
      SlashFold(scope, path);
    }
  }

  lemma SlashFold(scope: string, path: string)
    ensures FoldPrefix(scope + "/", path) <==> FoldPrefix(scope, path) && |path| > |scope| && path[|scope|] == '/'
  {
    var a := scope + "/";
    if |a| <= |path| {
      var b := path[..|a|];
      assert path[..|scope|] == b[..|scope|];
      forall i | 0 <= i < |scope| ensures Lower(a)[i] == Lower(scope)[i] && Lower(b)[i] == Lower(b[..|scope|])[i] {}
      assert Lower(a)[|scope|] == '/';
      assert Lower(b)[|scope|] == LowerChar(path[|scope|]);
      if EqualFold(a, b) {
        assert Lower(a)[|scope|] == Lower(b)[|scope|];
        forall i | 0 <= i < |scope| ensures Lower(scope)[i] == Lower(b[..|scope|])[i] {
          assert Lower(a)[i] == Lower(b)[i];
        }
      }
      if FoldPrefix(scope, path) && path[|scope|] == '/' {
        assert Lower(a) == Lower(b);
      }
    }
  }

  /** No scope reaches everything. */
  lemma NoScopeReachesAll(path: string)
    ensures InScope("", path)
  {
  }

  /** Over a set of documents, a scope reaches exactly the documents at or below it if and only if
      no document lies below another spelling of the same folder. */
  lemma ExactScopeIff(scope: string, paths: set<string>)
    requires scope != ""
    ensures (forall p | p in paths :: InScope(scope, p) <==> p == scope || scope + "/" <= p)
       <==> (forall p | p in paths && p != scope && FoldPrefix(scope + "/", p) :: scope + "/" <= p)
  {
    forall p | p in paths ensures InScope(scope, p) <==> p == scope || FoldPrefix(scope + "/", p) {
      ScopeReachesItsSubtree(scope, p);
    }
    forall p | p in paths && scope + "/" <= p ensures FoldPrefix(scope + "/", p) {
      assert p[..|scope + "/"|] == scope + "/";
    }
  }

  /** So the documents of a folder that differs in case are reached as well. */
  lemma ScopeReachesOtherCase()
    ensures InScope("booking", "Booking/x.md") && !("booking/" <= "Booking/x.md")
  {
    var p := "Booking/x.md";
    assert p[..8] == "Booking/" && "booking" + "/" == "booking/";
    SameLetters();
    hide InScope, EqualFold;
    ScopeReachesItsSubtree("booking", p);
    assert p[0] != "booking/"[0];
  }

  lemma SameLetters()
    ensures EqualFold("booking/", "Booking/")
  {
    var a, b := "booking/", "Booking/";
    assert LowerChar('B') == 'b' == LowerChar('b');
    assert forall i | 0 < i < 8 :: a[i] == b[i];
    assert Lower(a) == Lower(b);
  }
}
