/** Quoting the labels of a flowchart (web/ui/src/lib/diagram.js): where a label is, which part of
    it is text, and which texts need quotes. */
module Diagram {
  import opened Text
  import opened Paths
  import ScopeFilter

  predicate IsWord(c: char) { 'a' <= c <= 'z' || 'A' <= c <= 'Z' || '0' <= c <= '9' || c == '_' }

  predicate IsBracket(c: char) { c == '[' || c == '(' || c == '{' }

  predicate IsOpener(c: char) { IsBracket(c) || c == '/' || c == '\\' }

  function Shut(c: char): char
    requires IsBracket(c)
  {
    if c == '[' then ']' else if c == '(' then ')' else '}'
  }

  /** What may stand on the right of a shape for what stands on its left. */
  predicate Mirrors(left: char, right: char) {
    if IsBracket(left) then right == Shut(left) else IsOpener(left) && (right == '/' || right == '\\')
  }

  predicate IsClaimed(c: char) {
    c == '"' || c == '(' || c == ')' || c == '{' || c == '}' || c == '[' || c == ']' || c == '@' || c == '|'
  }

  /* ---- quoting ---- */

  predicate IsQuoted(s: string) { |s| > 1 && s[0] == '"' && Last(s) == '"' }

  predicate Readable(body: string) { (forall i | 0 <= i < |body| :: !IsClaimed(body[i])) || IsQuoted(Trim(body)) }

  function Quote(body: string): string {
    if Readable(body) then body else "\"" + Join(Split(body, "\""), "#quot;") + "\""
  }

  lemma QuoteEnds(body: string)
    ensures Quote(body) == body || IsQuoted(Quote(body))
  {
  }

  /** What has been quoted, or needed no quotes, is left alone. */
  lemma QuoteIdempotent(body: string)
    ensures Readable(Quote(body)) && Quote(Quote(body)) == Quote(body)
  {
    var q := Quote(body);
    if q != body {
      QuoteEnds(body);
      TrimOfTrimmed(q);
    }
  }

  /** Quoting a text is seen in its length. */
  lemma QuoteGrows(body: string)
    ensures |Quote(body)| >= |body| && (Quote(body) == body <==> |Quote(body)| == |body|)
  {
    EscapeGrows(body);
  }

  lemma {:induction false} EscapeGrows(s: string)
    ensures |Join(Split(s, "\""), "#quot;")| >= |s|
  {
    if s != "" {
      EscapeGrows(s[1..]);
      EscapeStep(s);
    }
  }

  lemma EscapeStep(s: string)
    requires s != ""
    ensures Join(Split(s, "\""), "#quot;")
         == (if s[0] == '"' then "#quot;" else [s[0]]) + Join(Split(s[1..], "\""), "#quot;")
  {
    var rest := Split(s[1..], "\"");
    if s[0] == '"' {
      assert Split(s, "\"") == [""] + rest by { assert "\"" <= s; }
      hide Split, Join;
      JoinCons("", rest, "#quot;");
      assert "" + "#quot;" == "#quot;";
    } else {
      assert Split(s, "\"") == Before(s[0], rest) by { assert !("\"" <= s); }
      hide Split, Join;
      JoinGrowsHead(s[0], rest, "#quot;");
    }
  }

  /* ---- finding ---- */

  /** How many marks open the shape. */
  function RunLength(s: string): (n: nat)
    ensures n <= |s| && (n < |s| ==> !IsOpener(s[n])) && forall i | 0 <= i < n :: IsOpener(s[i])
  {
    if s != "" && IsOpener(s[0]) then 1 + RunLength(s[1..]) else 0
  }

  function Count(s: string, c: char): nat {
    if s == "" then 0 else (if s[0] == c then 1 else 0) + Count(s[1..], c)
  }

  /** Where `depth` open brackets are all shut, on this line. */
  function ShutAt(s: string, bracket: char, depth: nat): (r: Option<nat>)
    requires IsBracket(bracket)
    ensures r.Some? ==> r.value < |s| && s[r.value] == Shut(bracket)
  {
    if s == "" || s[0] == '\n' then None
    else if s[0] == bracket then Further(ShutAt(s[1..], bracket, depth + 1))
    else if s[0] == Shut(bracket) then
      if depth <= 1 then Some(0) else Further(ShutAt(s[1..], bracket, depth - 1))
    else Further(ShutAt(s[1..], bracket, depth))
  }

  function Further(r: Option<nat>): Option<nat> { if r.Some? then Some(r.value + 1) else None }

  /** The text without what mirrors the shape's inner marks. */
  function Stripped(raw: string, inner: string): (body: string)
    ensures |body| <= |raw|
  {
    if inner != "" && raw != "" && Mirrors(Last(inner), Last(raw)) then Stripped(DropLast(raw), DropLast(inner)) else raw
  }

  /** The first pipe, if it is on this line. */
  function PipeAt(s: string): (r: Option<nat>)
    ensures r.Some? ==> r.value < |s| && s[r.value] == '|' && forall i | 0 <= i < r.value :: s[i] != '|' && s[i] != '\n'
  {
    if s == "" || s[0] == '\n' then None else if s[0] == '|' then Some(0) else Further(PipeAt(s[1..]))
  }

  datatype Piece = Bare(c: char) | Label(open: string, body: string, shut: string)

  function PipeLabel(s: string): (r: Option<Piece>)
    requires s != "" && s[0] == '|'
  {
    var k := PipeAt(s[1..]);
    if k.None? then None else Some(Label("|", s[1..k.value + 1], "|"))
  }

  function ShapeLabel(s: string): (r: Option<Piece>)
    requires s != "" && IsBracket(s[0])
  {
    var open, rest := s[..RunLength(s)], s[RunLength(s)..];
    var k := ShutAt(rest, s[0], Count(open, s[0]));
    if k.None? then None else Some(Cut(open, rest, k.value))
  }

  /** A shape opened by `open`, and shut in what follows it at `k`. */
  function Cut(open: string, rest: string, k: nat): (p: Piece)
    requires open != "" && k < |rest|
  {
    var body := Stripped(rest[..k], open[1..]);
    Label(open, body, rest[|body|..k + 1])
  }

  /** The label that starts `s`; `word` says whether a word character comes before it. */
  function LabelOf(word: bool, s: string): (r: Option<Piece>)
    requires s != ""
    ensures r.Some? ==> 0 < |Source(r.value)| <= |s|
  {
    if s[0] == '|' then PipeLabel(s) else if IsBracket(s[0]) && word then ShapeLabel(s) else None
  }

  /** A label is a stretch of the source, and no word character ends it. */
  lemma LabelIsPrefix(word: bool, s: string)
    requires s != "" && LabelOf(word, s).Some?
    ensures var p := LabelOf(word, s).value;
      p.Label? && p.open != "" && p.shut != "" && Source(p) == s[..|Source(p)|] && !IsWord(Last(Source(p)))
  {
    if s[0] == '|' {
      PipeIsPrefix(s);
    } else {
      ShapeIsPrefix(s);
    }
    hide PipeLabel, ShapeLabel, Source;
  }

  lemma PipeIsPrefix(s: string)
    requires s != "" && s[0] == '|' && PipeLabel(s).Some?
    ensures var p := PipeLabel(s).value;
      p.Label? && p.open != "" && p.shut != "" && Source(p) == s[..|Source(p)|] && Last(Source(p)) == '|'
  {
  }

  lemma ShapeIsPrefix(s: string)
    requires s != "" && IsBracket(s[0]) && ShapeLabel(s).Some?
    ensures var p := ShapeLabel(s).value;
      p.Label? && p.open != "" && p.shut != "" && Source(p) == s[..|Source(p)|] && Last(Source(p)) == Shut(s[0])
  {
    hide ShutAt, Count, Cut, RunLength, Source;
    var open, rest := s[..RunLength(s)], s[RunLength(s)..];
    CutIsPrefix(open, rest, ShutAt(rest, s[0], Count(open, s[0])).value);
    assert open + rest == s;
  }

  lemma CutIsPrefix(open: string, rest: string, k: nat)
    requires open != "" && k < |rest|
    ensures var p := Cut(open, rest, k);
      p.Label? && p.open != "" && p.shut != "" && Source(p) == (open + rest)[..|Source(p)|] && Last(Source(p)) == rest[k]
  {
    CutParts(open, rest, k);
    hide Cut;
    TakeOpen(open, rest, k + 1);
  }

  lemma TakeOpen(open: string, rest: string, n: nat)
    requires 0 < n <= |rest|
    ensures (open + rest)[..|open + rest[..n]|] == open + rest[..n] && Last(open + rest[..n]) == rest[n - 1]
  {
  }

  lemma CutParts(open: string, rest: string, k: nat)
    requires open != "" && k < |rest|
    ensures var p := Cut(open, rest, k);
      && p.Label? && p.open == open && p.shut != "" && Last(p.shut) == rest[k] && p.body + p.shut == rest[..k + 1]
      && Stripped(p.body + DropLast(p.shut), open[1..]) == p.body
  {
    var p := Cut(open, rest, k);
    StrippedIsPrefix(rest[..k], open[1..]);
    hide Stripped;
    assert p.body + DropLast(p.shut) == rest[..k];
  }

  lemma {:induction false} StrippedIsPrefix(raw: string, inner: string)
    ensures Stripped(raw, inner) == raw[..|Stripped(raw, inner)|]
  {
    if inner != "" && raw != "" && Mirrors(Last(inner), Last(raw)) {
      StrippedIsPrefix(DropLast(raw), DropLast(inner));
    }
  }

  function Source(p: Piece): string {
    match p
    case Bare(c) => [c]
    case Label(open, body, shut) => open + (body + shut)
  }

  function Repaired(p: Piece): Piece {
    match p
    case Bare(_) => p
    case Label(open, body, shut) => Label(open, Quote(body), shut)
  }

  /** The whole source as labels and the characters between them. */
  function Pieces(word: bool, s: string): seq<Piece>
    decreases |s|
  {
    if s == "" then []
    else
      var found := LabelOf(word, s);
      if found.None? then [Bare(s[0])] + Pieces(IsWord(s[0]), s[1..])
      else [found.value] + Pieces(false, s[|Source(found.value)|..])
  }

  function Print(ps: seq<Piece>): string {
    if ps == [] then "" else Source(ps[0]) + Print(ps[1..])
  }

  function RepairedAll(ps: seq<Piece>): seq<Piece> {
    if ps == [] then [] else [Repaired(ps[0])] + RepairedAll(ps[1..])
  }

  /** repair, once the source is known to be a flowchart. */
  function Scan(word: bool, s: string): string { Print(RepairedAll(Pieces(word, s))) }

  /** The pieces are the source, cut up: nothing is left out, doubled or moved. */
  lemma {:induction false} PiecesAreTheSource(word: bool, s: string)
    ensures Print(Pieces(word, s)) == s
    decreases |s|
  {
    if s != "" {
      var found := LabelOf(word, s);
      var p, rest := if found.None? then Bare(s[0]) else found.value, if found.None? then s[1..] else s[|Source(found.value)|..];
      PiecesAreTheSource(found.None? && IsWord(s[0]), rest);
      if found.Some? { LabelIsPrefix(word, s); }
      assert s == Source(p) + rest;
    }
  }

  lemma ScanStep(word: bool, s: string)
    requires s != ""
    ensures Scan(word, s) == match LabelOf(word, s)
                             case None => [s[0]] + Scan(IsWord(s[0]), s[1..])
                             case Some(p) => Source(Repaired(p)) + Scan(false, s[|Source(p)|..])
  {
    hide LabelOf, IsWord, Quote;
  }

  /* ---- what a label is, mark by mark ---- */

  lemma CountStep(s: string, n: nat, c: char)
    requires 0 < n <= |s|
    ensures Count(s[..n], c) == (if s[0] == c then 1 else 0) + Count(s[1..][..n - 1], c)
  {
    assert s[..n][1..] == s[1..][..n - 1];
  }

  /** After `n` characters as many brackets are open as stood open before and were opened, less those shut. */
  function OpenAt(s: string, n: nat, b: char, depth: nat): int
    requires n <= |s| && IsBracket(b)
  {
    depth + Count(s[..n], b) - Count(s[..n], Shut(b))
  }

  /** A shape is shut at the first place on its line after which no bracket of its own stands open; and not at
      all, when on the line there is none. */
  lemma {:induction false} ShutAtFirst(s: string, b: char, depth: nat)
    requires IsBracket(b) && depth > 0
    ensures ShutAt(s, b, depth).Some? ==> var k := ShutAt(s, b, depth).value;
      k < |s| && '\n' !in s[..k] && OpenAt(s, k + 1, b, depth) == 0 && forall j | 0 <= j <= k :: OpenAt(s, j, b, depth) > 0
    ensures ShutAt(s, b, depth).None? ==> forall j | 0 <= j <= |s| && '\n' !in s[..j] :: OpenAt(s, j, b, depth) > 0
  {
    hide Count, ShutAt;
    CountNone(b);
    CountNone(Shut(b));
    assert s[..0] == "";
    if s == "" {
      ShutNowhere(s, b, depth);
    } else {
      ShutStep(s, b, depth);
      forall n | 0 < n <= |s| ensures OpenAt(s, n, b, depth) ==
        OpenAt(s[1..], n - 1, b, depth) + (if s[0] == b then 1 else 0) - (if s[0] == Shut(b) then 1 else 0)
      {
        CountStep(s, n, b);
        CountStep(s, n, Shut(b));
      }
      forall n | 0 < n <= |s| ensures '\n' in s[..n] <==> s[0] == '\n' || '\n' in s[1..][..n - 1] {
        assert s[..n] == [s[0]] + s[1..][..n - 1];
      }
      if s[0] != '\n' && !(s[0] == Shut(b) && depth <= 1) {
        ShutAtFirst(s[1..], b, Deeper(s[0], b, depth));
        forall n | 0 < n <= |s| ensures OpenAt(s, n, b, depth) == OpenAt(s[1..], n - 1, b, Deeper(s[0], b, depth)) {}
      }
    }
  }

  lemma CountNone(c: char)
    ensures Count("", c) == 0
  {
  }

  lemma MirrorsAre(left: char, right: char)
    ensures Mirrors(left, right) <==>
      (left == '[' && right == ']') || (left == '(' && right == ')') || (left == '{' && right == '}')
      || ((left == '/' || left == '\\') && (right == '/' || right == '\\'))
  {
  }

  /** The `i`-th mark from the inside on the left and on the right. */
  predicate MirrorsAt(inner: string, raw: string, i: nat) {
    i < |inner| && i < |raw| && Mirrors(inner[|inner| - 1 - i], raw[|raw| - 1 - i])
  }

  /** What is taken off a text is the marks at its end that mirror the inner marks of the opening, one for one
      from the inside out, and no fewer than there are. */
  lemma {:induction false} StrippedIs(raw: string, inner: string)
    ensures var body := Stripped(raw, inner); var m := |raw| - |body|;
      body == raw[..|body|] && (forall i | 0 <= i < m :: MirrorsAt(inner, raw, i)) && !MirrorsAt(inner, raw, m)
  {
    hide Mirrors;
    if inner != "" && raw != "" && Mirrors(Last(inner), Last(raw)) {
      var inner', raw' := DropLast(inner), DropLast(raw);
      StrippedIs(raw', inner');
      var m := |raw| - |Stripped(raw, inner)|;
      forall i: nat ensures MirrorsAt(inner, raw, i + 1) <==> MirrorsAt(inner', raw', i) {}
      forall i | 0 <= i < m ensures MirrorsAt(inner, raw, i) {
        if i > 0 { assert MirrorsAt(inner', raw', i - 1); }
      }
      assert !MirrorsAt(inner', raw', m - 1);
    }
  }

  /** Between two pipes on a line there is a label, its text up to the second one; a pipe that is the last on
      its line starts none. */
  lemma EdgeLabelIs(word: bool, body: string, rest: string)
    requires '|' !in body && '\n' !in body
    ensures LabelOf(word, "|" + body + "|" + rest) == Some(Label("|", body, "|"))
    ensures rest == "" || rest[0] == '\n' ==> LabelOf(word, "|" + body + rest) == None
  {
    hide *;
    var t, u := body + ("|" + rest), body + rest;
    assert "|" + body + "|" + rest == "|" + t && "|" + body + rest == "|" + u;
    PipeAfter(body, "|" + rest);
    PipeHere(rest);
    ShutSum(|body|);
    PipeFirst(word, t);
    assert t[..|body|] == body;
    PipeFirst(word, u);
    if rest == "" || rest[0] == '\n' {
      PipeAfter(body, rest);
      PipeNone(rest, |body|);
    }
  }

  lemma PipeHere(rest: string)
    ensures PipeAt("|" + rest) == Some(0)
  {
  }

  lemma PipeNone(rest: string, n: nat)
    requires rest == "" || rest[0] == '\n'
    ensures Shifted(PipeAt(rest), n) == None
  {
  }

  lemma PipeFirst(word: bool, t: string)
    ensures LabelOf(word, "|" + t) == var k := PipeAt(t); if k.None? then None else Some(Label("|", t[..k.value], "|"))
  {
    hide PipeAt;
    var s, k := "|" + t, PipeAt(t);
    assert s[1..] == t;
    if k.Some? { assert s[1..k.value + 1] == t[..k.value]; }
  }

  lemma {:induction false} PipeAfter(body: string, rest: string)
    requires '|' !in body && '\n' !in body
    ensures PipeAt(body + rest) == Shifted(PipeAt(rest), |body|)
  {
    if body == "" {
      assert body + rest == rest;
    } else {
      assert body[0] in body && (body + rest)[1..] == body[1..] + rest && forall c | c in body[1..] :: c in body;
      PipeAfter(body[1..], rest);
    }
  }

  /** A bracket after a word character starts a label, which is its text up to the bracket that shuts it; one
      after anything else does not, and no other character does. */
  lemma NodeLabelIs(b: char, e: char, body: string, rest: string)
    requires (b == '[' && e == ']') || (b == '(' && e == ')') || (b == '{' && e == '}')
    requires b !in body && e !in body && '\n' !in body && (body != "" ==> !IsOpener(body[0]))
    ensures LabelOf(true, [b] + body + [e] + rest) == Some(Label([b], body, [e]))
    ensures LabelOf(false, [b] + body + [e] + rest) == None
  {
    BracketPairs(b, e);
    NotOpener(e, if body == "" then e else body[0]);
    hide *;
    var s, t := [b] + body + [e] + rest, body + [e] + rest;
    assert s == [b] + t && t == body + ([e] + rest);
    OneBracket(b, t, if body == "" then e else body[0]);
    ShutAfter(body, [e] + rest, b, 1);
    ShutHere(b, e, rest);
    ShutSum(|body|);
    CutPlain(b, e, body, rest);
    ShapeStep(b, t, |body|);
  }

  lemma BracketPairs(b: char, e: char)
    requires (b == '[' && e == ']') || (b == '(' && e == ')') || (b == '{' && e == '}')
    ensures IsBracket(b) && e == Shut(b)
  {
  }

  lemma NotOpener(e: char, c: char)
    ensures e == ']' || e == ')' || e == '}' ==> (c == e ==> !IsOpener(c))
  {
  }

  lemma ShutSum(n: nat)
    ensures Shifted(Some(0), n) == Some(n)
  {
  }

  lemma ShapeStep(b: char, t: string, k: nat)
    requires IsBracket(b) && k < |t| && RunLength([b] + t) == 1 && Count([b], b) == 1 && ShutAt(t, b, 1) == Some(k)
    ensures LabelOf(true, [b] + t) == Some(Cut([b], t, k)) && LabelOf(false, [b] + t) == None
  {
    hide RunLength, Count, ShutAt, Cut;
    var s := [b] + t;
    assert s[..1] == [b] && s[1..] == t;
  }

  lemma OneBracket(b: char, t: string, c: char)
    requires IsBracket(b) && t != "" && t[0] == c && !IsOpener(c)
    ensures RunLength([b] + t) == 1 && Count([b], b) == 1
  {
    assert ([b] + t)[1..] == t && [b][1..] == "";
    assert RunLength(t) == 0;
  }

  lemma ShutHere(b: char, e: char, rest: string)
    requires IsBracket(b) && e == Shut(b)
    ensures ShutAt([e] + rest, b, 1) == Some(0)
  {
  }

  lemma CutPlain(b: char, e: char, body: string, rest: string)
    ensures Cut([b], body + [e] + rest, |body|) == Label([b], body, [e])
  {
    var t := body + [e] + rest;
    assert t[..|body|] == body && t[|body|..|body| + 1] == [e] && [b][1..] == "";
  }

  lemma {:induction false} ShutAfter(body: string, rest: string, b: char, depth: nat)
    requires IsBracket(b) && b !in body && Shut(b) !in body && '\n' !in body
    ensures ShutAt(body + rest, b, depth) == Shifted(ShutAt(rest, b, depth), |body|)
  {
    hide ShutAt, Shut, Ending;
    if body == "" {
      assert body + rest == rest;
    } else {
      assert body[0] in body && (body + rest)[1..] == body[1..] + rest && forall c | c in body[1..] :: c in body;
      ShutStep(body + rest, b, depth);
      ShutAfter(body[1..], rest, b, depth);
    }
  }

  lemma OthersStartNone(word: bool, s: string)
    requires s != "" && s[0] != '|' && s[0] != '[' && s[0] != '(' && s[0] != '{'
    ensures LabelOf(word, s) == None
  {
  }

  /** A text is quoted when the grammar would read a character of it, and it is not quoted yet: in quotes, with
      its own quotes written out. */
  lemma QuoteIs(body: string)
    ensures Quote(body) ==
      if (exists c | c in body :: c in "\"(){}[]@|") && !(|Trim(body)| > 1 && Trim(body)[0] == '"' && Last(Trim(body)) == '"')
      then "\"" + ScopeFilter.ReplaceAll(body, '"', "#quot;") + "\"" else body
  {
    EscapeIs(body);
    hide Trim, Split, Join;
    forall c: char ensures IsClaimed(c) <==> c in "\"(){}[]@|" { ClaimedAre(c); }
    hide IsClaimed;
    if exists c | c in body :: c in "\"(){}[]@|" {
      var c :| c in body && c in "\"(){}[]@|";
      var i :| 0 <= i < |body| && body[i] == c;
    } else {
      forall i | 0 <= i < |body| ensures !IsClaimed(body[i]) { assert body[i] in body; }
    }
  }

  lemma ClaimedAre(c: char)
    ensures IsClaimed(c) <==> c in "\"(){}[]@|"
  {
    var s := "\"(){}[]@|";
    assert s == ['"', '(', ')', '{', '}', '[', ']', '@', '|'];
  }

  lemma {:induction false} EscapeIs(s: string)
    ensures Join(Split(s, "\""), "#quot;") == ScopeFilter.ReplaceAll(s, '"', "#quot;")
  {
    if s != "" {
      EscapeIs(s[1..]);
      EscapeStep(s);
    }
  }

  /** In a flowchart, a node's text is quoted where that is due, whatever comes after it, and what comes after
      a character that is no letter, digit or underscore is no node's text. */
  lemma NodeIsQuoted(w: char, b: char, e: char, body: string, rest: string)
    requires (b == '[' && e == ']') || (b == '(' && e == ')') || (b == '{' && e == '}')
    requires b !in body && e !in body && '\n' !in body && (body != "" ==> !IsOpener(body[0]))
    requires w !in "|[({"
    ensures var word := 'a' <= w <= 'z' || 'A' <= w <= 'Z' || '0' <= w <= '9' || w == '_';
      Scan(false, [w] + ([b] + body + [e] + rest)) ==
        if word then [w] + ([b] + Quote(body) + [e] + Scan(false, rest)) else [w] + ([b] + Scan(false, body + [e] + rest))
  {
    hide LabelOf, Quote, Scan;
    var s := [b] + body + [e] + rest;
    NoMark(w);
    OthersStartNone(false, [w] + s);
    NodeLabelIs(b, e, body, rest);
    ScanStep(false, [w] + s);
    ScanStep(IsWord(w), s);
    hide IsWord;
    NodeParts(w, b, e, body, rest);
    NotWord(b);
    LabelTexts(b, e, body, Scan(false, rest));
  }

  lemma NotWord(b: char)
    requires IsBracket(b)
    ensures !IsWord(b)
  {
  }

  lemma NodeParts(w: char, b: char, e: char, body: string, rest: string)
    ensures var s := [b] + body + [e] + rest;
      s[0] == b && s[1..] == body + [e] + rest && s[|body| + 2..] == rest && ([w] + s)[1..] == s && ([w] + s)[0] == w
  {
  }

  lemma LabelTexts(b: char, e: char, body: string, rest: string)
    ensures Source(Label([b], body, [e])) == [b] + body + [e] && |Source(Label([b], body, [e]))| == |body| + 2
    ensures Source(Repaired(Label([b], body, [e]))) + rest == [b] + Quote(body) + [e] + rest
  {
    hide Quote;
    assert [b] + (body + [e]) == [b] + body + [e];
    assert [b] + (Quote(body) + [e]) == [b] + Quote(body) + [e];
  }

  lemma NoMark(w: char)
    ensures w !in "|[({" <==> w != '|' && w != '[' && w != '(' && w != '{'
  {
    assert "|[({" == ['|', '[', '(', '{'];
  }

  /* ---- the marks that decide where labels are ---- */

  predicate IsMark(c: char) { IsBracket(c) || c == ')' || c == ']' || c == '}' || c == '|' || c == '\n' }

  function Marks(s: string): string {
    if s == "" then "" else if IsMark(s[0]) then [s[0]] + Marks(s[1..]) else Marks(s[1..])
  }

  lemma {:induction false} MarksAppend(a: string, b: string)
    ensures Marks(a + b) == Marks(a) + Marks(b)
  {
    if a == "" {
      assert a + b == b;
    } else {
      assert (a + b)[1..] == a[1..] + b;
      MarksAppend(a[1..], b);
    }
  }

  lemma {:induction false} EscapeKeepsMarks(s: string)
    ensures Marks(Join(Split(s, "\""), "#quot;")) == Marks(s)
  {
    if s != "" {
      var rest := Join(Split(s[1..], "\""), "#quot;");
      EscapeStep(s);
      EscapeKeepsMarks(s[1..]);
      FirstOfRest(s, 0);
      QuotMarks();
      hide *;
      MarksCongruent(if s[0] == '"' then "#quot;" else [s[0]], [s[0]], rest, s[1..]);
    }
  }

  lemma QuotMarks()
    ensures Marks("#quot;") == Marks(['"'])
  {
    assert Marks("ot;") == "";
    assert Marks("#quot;") == "";
  }

  lemma QuoteKeepsMarks(body: string)
    ensures Marks(Quote(body)) == Marks(body)
  {
    var q := Join(Split(body, "\""), "#quot;");
    EscapeKeepsMarks(body);
    hide Split, Join;
    assert "\"" + q + "\"" == "\"" + (q + "\"");
    MarksAppend("\"", q + "\"");
    MarksAppend(q, "\"");
  }

  /** Quoting touches no bracket, no pipe and no line break: the diagram keeps its structure. */
  lemma {:induction false} ScanKeepsMarks(word: bool, s: string)
    ensures Marks(Scan(word, s)) == Marks(s)
    decreases |s|
  {
    if s != "" {
      ScanStep(word, s);
      hide *;
      match LabelOf(word, s) {
        case None =>
          ScanKeepsMarks(IsWord(s[0]), s[1..]);
          FirstOfRest(s, 0);
          MarksCongruent([s[0]], [s[0]], Scan(IsWord(s[0]), s[1..]), s[1..]);
        case Some(p) =>
          var rest := LabelRest(word, s);
          ScanKeepsMarks(false, rest);
          RepairKeepsMarks(p);
          MarksCongruent(Source(Repaired(p)), Source(p), Scan(false, rest), rest);
      }
    }
  }

  lemma LabelRest(word: bool, s: string) returns (rest: string)
    requires s != "" && LabelOf(word, s).Some?
    ensures rest == s[|Source(LabelOf(word, s).value)|..] && s == Source(LabelOf(word, s).value) + rest && |rest| < |s|
  {
    LabelIsPrefix(word, s);
    hide LabelOf;
    rest := s[|Source(LabelOf(word, s).value)|..];
  }

  lemma MarksCongruent(a: string, a': string, b: string, b': string)
    requires Marks(a) == Marks(a') && Marks(b) == Marks(b')
    ensures Marks(a + b) == Marks(a' + b')
  {
    MarksAppend(a, b);
    MarksAppend(a', b');
  }

  lemma RepairKeepsMarks(p: Piece)
    ensures Marks(Source(Repaired(p))) == Marks(Source(p))
  {
    if p.Label? {
      hide Quote, Marks;
      QuoteKeepsMarks(p.body);
      MarksCongruent(Quote(p.body), p.body, p.shut, p.shut);
      MarksCongruent(p.open, p.open, Quote(p.body) + p.shut, p.body + p.shut);
    }
  }

  function Deeper(c: char, b: char, depth: nat): nat
    requires IsBracket(b)
  {
    if c == b then depth + 1 else if c == Shut(b) && depth > 1 then depth - 1 else depth
  }

  lemma {:induction false} ShutByMarks(s: string, b: char, depth: nat)
    requires IsBracket(b)
    ensures ShutAt(s, b, depth).None? <==> ShutAt(Marks(s), b, depth).None?
  {
    if s != "" {
      ShutByMarks(s[1..], b, Deeper(s[0], b, depth));
      if IsMark(s[0]) { assert Marks(s)[1..] == Marks(s[1..]); }
    }
  }

  lemma {:induction false} PipeByMarks(s: string)
    ensures PipeAt(s).None? <==> PipeAt(Marks(s)).None?
  {
    if s != "" {
      PipeByMarks(s[1..]);
      if IsMark(s[0]) { assert Marks(s)[1..] == Marks(s[1..]); }
    }
  }

  /** How deep `s` leaves the brackets, when it neither shuts them all nor leaves the line. */
  function Ending(s: string, b: char, depth: nat): Option<nat>
    requires IsBracket(b)
  {
    if s == "" then Some(depth)
    else if s[0] == '\n' then None
    else if s[0] == b then Ending(s[1..], b, depth + 1)
    else if s[0] == Shut(b) then if depth <= 1 then None else Ending(s[1..], b, depth - 1)
    else Ending(s[1..], b, depth)
  }

  lemma {:induction false} EndingByMarks(s: string, b: char, depth: nat)
    requires IsBracket(b)
    ensures Ending(s, b, depth) == Ending(Marks(s), b, depth)
  {
    if s != "" {
      EndingByMarks(s[1..], b, Deeper(s[0], b, depth));
      if IsMark(s[0]) { assert Marks(s)[1..] == Marks(s[1..]); }
    }
  }

  function Shifted(r: Option<nat>, n: nat): Option<nat> { if r.Some? then Some(r.value + n) else None }

  lemma ShutStep(s: string, b: char, depth: nat)
    requires IsBracket(b) && s != ""
    ensures ShutAt(s, b, depth) == if s[0] == '\n' then None
                                   else if s[0] == Shut(b) && depth <= 1 then Some(0)
                                   else Further(ShutAt(s[1..], b, Deeper(s[0], b, depth)))
    ensures Ending(s, b, depth) == if s[0] == '\n' || (s[0] == Shut(b) && depth <= 1) then None
                                   else Ending(s[1..], b, Deeper(s[0], b, depth))
  {
  }

  /** The brackets of `x + t` are shut within `x`, or where those that `x` leaves open are. */
  lemma {:induction false} ShutBeyond(x: string, t: string, b: char, depth: nat)
    requires IsBracket(b)
    ensures Ending(x, b, depth).Some? ==> ShutAt(x + t, b, depth) == Shifted(ShutAt(t, b, Ending(x, b, depth).value), |x|)
    ensures Ending(x, b, depth).None? ==> ShutAt(x + t, b, depth) == ShutAt(x, b, depth)
  {
    if x == "" {
      assert x + t == t;
    } else {
      hide ShutAt, Ending, Deeper, Shut;
      assert (x + t)[1..] == x[1..] + t;
      ShutStep(x, b, depth);
      ShutStep(x + t, b, depth);
      ShutBeyond(x[1..], t, b, Deeper(x[0], b, depth));
    }
  }

  /** A text with other words but the same marks shuts at the same bracket, whatever follows. */
  lemma ShutAgain(x: string, x': string, y: string, t: string, t': string, b: char, depth: nat)
    requires IsBracket(b) && y != "" && Marks(x) == Marks(x')
    requires ShutAt(x + y + t, b, depth) == Some(|x| + |y| - 1)
    ensures ShutAt(x' + y + t', b, depth) == Some(|x'| + |y| - 1)
  {
    Assoc(x, y, t);
    Assoc(x', y, t');
    ShutBeyond(x, y + t, b, depth);
    ShutBeyond(x', y + t', b, depth);
    EndingByMarks(x, b, depth);
    EndingByMarks(x', b, depth);
    hide ShutAt, Ending, Marks;
    var d := Ending(x, b, depth);
    if d.Some? {
      ShutLocal(y, t, t', b, d.value);
    }
  }

  lemma {:induction false} ShutLocal(y: string, t: string, t': string, b: char, depth: nat)
    requires IsBracket(b) && y != ""
    requires ShutAt(y + t, b, depth) == Some(|y| - 1)
    ensures ShutAt(y + t', b, depth) == Some(|y| - 1)
  {
    assert (y + t)[1..] == y[1..] + t && (y + t')[1..] == y[1..] + t';
    if |y| > 1 {
      ShutLocal(y[1..], t, t', b, Deeper(y[0], b, depth));
    }
  }

  /** What was stripped off one text is stripped off another in its place, if that is the same or
      ends in a quote. */
  lemma {:induction false} StrippedAgain(body: string, body': string, mid: string, inner: string)
    requires Stripped(body + mid, inner) == body && (body' == body || IsQuoted(body'))
    ensures Stripped(body' + mid, inner) == body'
    decreases |mid|
  {
    if mid == "" {
      assert body + mid == body && body' + mid == body';
    } else {
      assert inner != "";
      assert Last(body + mid) == Last(mid) == Last(body' + mid);
      assert DropLast(body + mid) == body + DropLast(mid) && DropLast(body' + mid) == body' + DropLast(mid);
      StrippedAgain(body, body', DropLast(mid), DropLast(inner));
    }
  }

  /* ---- the repaired source has the same labels ---- */

  lemma QuoteIsSame(body: string)
    ensures Marks(Quote(body)) == Marks(body) && (Quote(body) == body || IsQuoted(Quote(body)))
  {
    QuoteKeepsMarks(body);
    QuoteEnds(body);
  }

  lemma {:induction false} PipeLocal(x: string, t: string)
    requires forall i | 0 <= i < |x| :: x[i] != '|' && x[i] != '\n'
    ensures PipeAt(x + "|" + t) == Some(|x|)
  {
    if x == "" {
      assert x + "|" + t == "|" + t;
    } else {
      assert (x + "|" + t)[1..] == x[1..] + "|" + t;
      PipeLocal(x[1..], t);
    }
  }

  lemma {:induction false} FreeByMarks(x: string, x': string, c: char)
    requires Marks(x) == Marks(x') && IsMark(c) && c !in x
    ensures c !in x'
  {
    MarksHold(x, c);
    MarksHold(x', c);
  }

  lemma {:induction false} MarksHold(x: string, c: char)
    requires IsMark(c)
    ensures c in Marks(x) <==> c in x
  {
    if x != "" {
      MarksHold(x[1..], c);
      assert c in x <==> c == x[0] || c in x[1..];
    }
  }

  /** A pipe label with another text of the same marks is read back with that text. */
  lemma PipeLabelAgain(s: string, body: string, t: string)
    requires s != "" && s[0] == '|' && PipeLabel(s).Some? && Marks(PipeLabel(s).value.body) == Marks(body)
    ensures PipeLabel("|" + (body + "|" + t)) == Some(Label("|", body, "|"))
  {
    FreeByMarks(PipeLabel(s).value.body, body, '|');
    FreeByMarks(PipeLabel(s).value.body, body, '\n');
    PipeLocal(body, t);
    assert ("|" + (body + "|" + t))[1..] == body + "|" + t;
    assert ("|" + (body + "|" + t))[1..|body| + 1] == body;
  }

  lemma {:induction false} RunIs(run: string, t: string)
    requires (forall i | 0 <= i < |run| :: IsOpener(run[i])) && (t != "" ==> !IsOpener(t[0]))
    ensures RunLength(run + t) == |run|
  {
    if run == "" {
      assert run + t == t;
    } else {
      assert (run + t)[1..] == run[1..] + t;
      RunIs(run[1..], t);
    }
  }

  lemma ShapeIs(open: string, rest: string, k: nat)
    requires open != "" && IsBracket(open[0]) && (forall i | 0 <= i < |open| :: IsOpener(open[i]))
    requires k < |rest| && !IsOpener(rest[0]) && ShutAt(rest, open[0], Count(open, open[0])) == Some(k)
    ensures ShapeLabel(open + rest) == Some(Cut(open, rest, k))
  {
    hide ShutAt, Count, Cut;
    RunIs(open, rest);
    assert (open + rest)[..|open|] == open && (open + rest)[|open|..] == rest;
  }

  lemma CutAgain(open: string, body: string, shut: string, t: string)
    requires open != "" && shut != "" && Stripped(body + DropLast(shut), open[1..]) == body
    ensures Cut(open, body + shut + t, |body| + |shut| - 1) == Label(open, body, shut)
  {
    TakeBoth(body, shut, t);
    hide Stripped;
  }

  lemma TakeBoth(a: string, b: string, t: string)
    requires b != ""
    ensures (a + b + t)[..|a| + |b| - 1] == a + DropLast(b) && (a + b + t)[|a|..|a| + |b|] == b
  {
  }

  lemma ShapeOf(open: string, body: string, shut: string, t: string)
    requires open != "" && IsBracket(open[0]) && shut != "" && (forall i | 0 <= i < |open| :: IsOpener(open[i]))
    requires !IsOpener((body + shut + t)[0]) && Stripped(body + DropLast(shut), open[1..]) == body
    requires ShutAt(body + shut + t, open[0], Count(open, open[0])) == Some(|body| + |shut| - 1)
    ensures ShapeLabel(open + (body + shut + t)) == Some(Label(open, body, shut))
  {
    hide *;
    CutAgain(open, body, shut, t);
    ShapeIs(open, body + shut + t, |body| + |shut| - 1);
  }

  lemma ShapeParts(s: string, p: Piece) returns (after: string)
    requires s != "" && IsBracket(s[0]) && ShapeLabel(s) == Some(p)
    ensures p.Label? && p.open != "" && p.open[0] == s[0] && forall i | 0 <= i < |p.open| :: IsOpener(p.open[i])
    ensures p.shut != "" && Stripped(p.body + DropLast(p.shut), p.open[1..]) == p.body
    ensures !IsOpener((p.body + p.shut + after)[0])
    ensures ShutAt(p.body + p.shut + after, p.open[0], Count(p.open, p.open[0])) == Some(|p.body| + |p.shut| - 1)
  {
    hide ShutAt, Count, Cut, Stripped;
    var open, rest := s[..RunLength(s)], s[RunLength(s)..];
    var k := ShutAt(rest, s[0], Count(open, s[0])).value;
    after := rest[k + 1..];
    CutParts(open, rest, k);
    assert rest == p.body + p.shut + after;
    assert |p.body + p.shut| == k + 1;
  }

  lemma FirstStays(body: string, body': string, shut: string, after: string, t: string)
    requires shut != "" && (body' == body || IsQuoted(body')) && !IsOpener((body + shut + after)[0])
    ensures !IsOpener((body' + shut + t)[0])
  {
  }

  /** And so is a shape's, when the text is the same or quoted. */
  lemma ShapeLabelAgain(s: string, p: Piece, body: string, t: string)
    requires s != "" && IsBracket(s[0]) && ShapeLabel(s) == Some(p)
    requires Marks(p.body) == Marks(body) && (body == p.body || IsQuoted(body))
    ensures p.open != "" && p.open[0] == s[0]
    ensures ShapeLabel(p.open + (body + p.shut + t)) == Some(Label(p.open, body, p.shut))
  {
    hide *;
    var after := ShapeParts(s, p);
    ShapeSame(p.open, p.body, p.shut, after, body, t);
  }

  lemma ShapeSame(open: string, body: string, shut: string, after: string, body': string, t: string)
    requires open != "" && IsBracket(open[0]) && shut != "" && (forall i | 0 <= i < |open| :: IsOpener(open[i]))
    requires !IsOpener((body + shut + after)[0]) && Stripped(body + DropLast(shut), open[1..]) == body
    requires ShutAt(body + shut + after, open[0], Count(open, open[0])) == Some(|body| + |shut| - 1)
    requires Marks(body) == Marks(body') && (body' == body || IsQuoted(body'))
    ensures ShapeLabel(open + (body' + shut + t)) == Some(Label(open, body', shut))
  {
    hide *;
    ShutAgain(body, body', shut, after, t, open[0], Count(open, open[0]));
    StrippedAgain(body, body', DropLast(shut), open[1..]);
    FirstStays(body, body', shut, after, t);
    ShapeOf(open, body', shut, t);
  }

  lemma LabelAgain(word: bool, s: string, p: Piece, t: string)
    requires s != "" && LabelOf(word, s) == Some(p)
    ensures Source(Repaired(p)) != ""
    ensures LabelOf(word, Source(Repaired(p)) + t) == Some(Repaired(p))
  {
    QuoteIsSame(p.body);
    hide Quote, Marks, PipeLabel, ShapeLabel;
    var body := Quote(p.body);
    if s[0] == '|' {
      PipeLabelIs(s, p);
      PipeLabelAgain(s, body, t);
      Assoc("|", body + "|", t);
    } else {
      ShapeLabelAgain(s, p, body, t);
      Assoc(p.open, body + p.shut, t);
    }
  }

  lemma PipeLabelIs(s: string, p: Piece)
    requires s != "" && s[0] == '|' && PipeLabel(s) == Some(p)
    ensures p.open == "|" && p.shut == "|"
  {
  }

  /* ---- where there was no label there is none ---- */

  /** The marks that open a shape are not in anything that is quoted. */
  lemma {:induction false} RunStays(s: string)
    ensures var o, n := Scan(false, s), RunLength(s);
      RunLength(o) == n && o[..n] == s[..n] && o[n..] == Scan(false, s[n..])
  {
    if s != "" && IsOpener(s[0]) {
      OpenerStep(s);
      RunStays(s[1..]);
      hide *;
      FirstOfRest(s, 0);
      RunGrows(s[0], Scan(false, s[1..]), s[1..]);
    } else if s != "" {
      NoRun(s);
      hide Scan;
    }
  }

  lemma OpenerStep(s: string)
    requires s != "" && IsOpener(s[0])
    ensures Scan(false, s) == [s[0]] + Scan(false, s[1..])
  {
    hide Scan;
    ScanStep(false, s);
  }

  lemma NoRun(s: string)
    requires s != "" && !IsOpener(s[0])
    ensures RunLength(s) == RunLength(Scan(false, s)) == 0
  {
    hide Scan;
    ScanStep(false, s);
    if LabelOf(false, s).Some? { PipeLabelIs(s, LabelOf(false, s).value); }
    hide LabelOf;
    assert Scan(false, s)[0] == s[0];
  }

  lemma RunGrows(c: char, o: string, s: string)
    requires IsOpener(c) && RunLength(o) == RunLength(s) && o[..RunLength(s)] == s[..RunLength(s)]
    ensures RunLength([c] + o) == RunLength([c] + s) == 1 + RunLength(s)
    ensures ([c] + o)[..1 + RunLength(s)] == ([c] + s)[..1 + RunLength(s)]
    ensures ([c] + o)[1 + RunLength(s)..] == o[RunLength(s)..] && ([c] + s)[1 + RunLength(s)..] == s[RunLength(s)..]
  {
    assert ([c] + o)[1..] == o && ([c] + s)[1..] == s;
    var n := RunLength(s);
    hide IsOpener;
    assert ([c] + o)[..1 + n] == [c] + o[..n] && ([c] + s)[..1 + n] == [c] + s[..n];
  }

  lemma NoneStays(word: bool, s: string)
    requires s != "" && LabelOf(word, s) == None
    ensures LabelOf(word, [s[0]] + Scan(IsWord(s[0]), s[1..])) == None
  {
    var o := Scan(IsWord(s[0]), s[1..]);
    if s[0] == '|' {
      assert ([s[0]] + o)[1..] == o;
      ScanKeepsMarks(false, s[1..]);
      PipeByMarks(s[1..]);
      PipeByMarks(o);
    } else if IsBracket(s[0]) && word {
      NoShapeStays(s);
    }
  }

  lemma NoShapeStays(s: string)
    requires s != "" && IsBracket(s[0]) && ShapeLabel(s) == None
    ensures ShapeLabel([s[0]] + Scan(false, s[1..])) == None
  {
    var rest := ShapeOpensSame(s);
    var depth := Count(s[..RunLength(s)], s[0]);
    ScanKeepsMarks(false, rest);
    ShutByMarks(rest, s[0], depth);
    ShutByMarks(Scan(false, rest), s[0], depth);
    hide Marks, Scan, RunLength, Count, ShutAt, Cut;
  }

  lemma ShapeOpensSame(s: string) returns (rest: string)
    requires s != "" && IsBracket(s[0])
    ensures RunLength(s) <= |s| && rest == s[RunLength(s)..]
    ensures var s' := [s[0]] + Scan(false, s[1..]); var n := RunLength(s);
      RunLength(s') == n && s'[..n] == s[..n] && s'[n..] == Scan(false, rest)
  {
    rest := s[RunLength(s)..];
    RunStays(s[1..]);
    hide Scan, RunLength;
    RunGrows(s[0], Scan(false, s[1..]), s[1..]);
    assert [s[0]] + s[1..] == s;
  }

  /* ---- the whole scan ---- */

  lemma PiecesStep(word: bool, s: string)
    requires s != ""
    ensures Pieces(word, s) == match LabelOf(word, s)
                               case None => [Bare(s[0])] + Pieces(IsWord(s[0]), s[1..])
                               case Some(p) => [p] + Pieces(false, s[|Source(p)|..])
  {
  }

  lemma RepairedCons(p: Piece, ps: seq<Piece>)
    ensures RepairedAll([p] + ps) == [Repaired(p)] + RepairedAll(ps)
  {
    assert ([p] + ps)[1..] == ps;
  }

  /** The repaired source is read as the same labels, in the same places, with quoted texts. */
  lemma {:induction false} SameLabels(word: bool, s: string)
    ensures Pieces(word, Scan(word, s)) == RepairedAll(Pieces(word, s))
    decreases |s|
  {
    if s != "" {
      ScanStep(word, s);
      PiecesStep(word, s);
      hide *;
      match LabelOf(word, s) {
        case None =>
          SameLabels(IsWord(s[0]), s[1..]);
          NoneStays(word, s);
          NextIsBare(word, s[0], Scan(IsWord(s[0]), s[1..]));
          RepairedBare(s[0], Pieces(IsWord(s[0]), s[1..]));
        case Some(p) =>
          var rest := LabelRest(word, s);
          SameLabels(false, rest);
          LabelAgain(word, s, p, Scan(false, rest));
          NextIsLabel(word, Repaired(p), Scan(false, rest));
          RepairedCons(p, Pieces(false, rest));
      }
    }
  }

  lemma NextIsBare(word: bool, c: char, o: string)
    requires LabelOf(word, [c] + o) == None
    ensures Pieces(word, [c] + o) == [Bare(c)] + Pieces(IsWord(c), o)
  {
    PiecesStep(word, [c] + o);
    assert ([c] + o)[1..] == o;
  }

  lemma RepairedBare(c: char, ps: seq<Piece>)
    ensures RepairedAll([Bare(c)] + ps) == [Bare(c)] + RepairedAll(ps)
  {
    RepairedCons(Bare(c), ps);
  }

  lemma NextIsLabel(word: bool, p: Piece, o: string)
    requires Source(p) != "" && LabelOf(word, Source(p) + o) == Some(p)
    ensures Pieces(word, Source(p) + o) == [p] + Pieces(false, o)
  {
    PiecesStep(word, Source(p) + o);
    assert (Source(p) + o)[|Source(p)|..] == o;
  }

  lemma {:induction false} RepairedTwice(ps: seq<Piece>)
    ensures RepairedAll(RepairedAll(ps)) == RepairedAll(ps)
  {
    if ps != [] {
      RepairedTwice(ps[1..]);
      if ps[0].Label? { QuoteIdempotent(ps[0].body); }
      hide Quote;
      RepairedCons(Repaired(ps[0]), RepairedAll(ps[1..]));
    }
  }

  /** Repairing a repaired flowchart changes nothing. */
  lemma ScanIdempotent(word: bool, s: string)
    ensures Scan(word, Scan(word, s)) == Scan(word, s)
  {
    SameLabels(word, s);
    RepairedTwice(Pieces(word, s));
  }

  ghost predicate AllReadable(ps: seq<Piece>) { forall i | 0 <= i < |ps| && ps[i].Label? :: Readable(ps[i].body) }

  lemma {:induction false} RepairedLength(ps: seq<Piece>)
    ensures |Print(RepairedAll(ps))| >= |Print(ps)|
    ensures AllReadable(ps) ==> RepairedAll(ps) == ps
    ensures !AllReadable(ps) ==> |Print(RepairedAll(ps))| > |Print(ps)|
  {
    if ps != [] {
      var rest := ps[1..];
      RepairedLength(rest);
      if ps[0].Label? {
        QuoteGrows(ps[0].body);
        QuoteIsNew(ps[0].body);
      }
      hide Quote, Readable, Print;
      assert AllReadable(ps) <==> AllReadable(rest) && (ps[0].Label? ==> Readable(ps[0].body)) by {
        assert forall i | 0 <= i < |rest| :: rest[i] == ps[i + 1];
        assert forall i | 0 < i < |ps| :: ps[i] == rest[i - 1];
      }
      PrintCons(ps[0], rest);
      PrintCons(Repaired(ps[0]), RepairedAll(rest));
      assert ps == [ps[0]] + rest;
    }
  }

  lemma PrintCons(p: Piece, ps: seq<Piece>)
    ensures Print([p] + ps) == Source(p) + Print(ps)
  {
    assert ([p] + ps)[1..] == ps;
  }

  lemma QuoteIsNew(body: string)
    ensures Quote(body) == body <==> Readable(body)
  {
    EscapeGrows(body);
  }

  /** A flowchart is changed exactly when some label's text is not readable without quotes. */
  lemma ScanChangesIff(word: bool, s: string)
    ensures Scan(word, s) == s <==> AllReadable(Pieces(word, s))
  {
    RepairedLength(Pieces(word, s));
    PiecesAreTheSource(word, s);
  }

  /** And afterwards all of them are. */
  lemma ScanMakesReadable(word: bool, s: string)
    ensures AllReadable(Pieces(word, Scan(word, s)))
  {
    ScanIdempotent(word, s);
    ScanChangesIff(word, Scan(word, s));
  }

  /* ---- which sources are flowcharts ---- */

  /** The first word, after blanks and directives. */
  predicate IsFlow(s: string) {
    s != "" && ((IsSpace(s[0]) && IsFlow(s[1..])) || StartsWith(s, "graph") || StartsWith(s, "flowchart")
                || ("%%{" <= s && InDirective(s[3..])))
  }

  /** A directive goes on, on its line, to some `}%%`. */
  predicate InDirective(s: string) {
    s != "" && (("}%%" <= s && IsFlow(s[3..])) || (s[0] != '\n' && s[0] != '\r' && InDirective(s[1..])))
  }

  predicate StartsWith(s: string, word: string) {
    |word| <= |s| && EqualFold(s[..|word|], word) && (|s| == |word| || !IsWord(s[|word|]))
  }

  /** Blanks, and directives that end on their line, may come before the word; the word may be in any case, and
      no word character follows it. */
  lemma FlowOpens(before: string, word: string, after: string, s: string)
    requires EqualFold(word, "graph") || EqualFold(word, "flowchart")
    requires after == "" || !IsWord(after[0])
    ensures IsFlow(word + after)
    ensures Blank(before) && IsFlow(s) ==> IsFlow(before + s)
    ensures '\n' !in before && '\r' !in before && IsFlow(s) ==> IsFlow("%%{" + before + "}%%" + s)
  {
    WordStarts(word, after);
    if IsFlow(s) {
      if Blank(before) { FlowAfterBlanks(before, s); }
      if '\n' !in before && '\r' !in before {
        DirectiveCloses(before, s);
        hide IsFlow, InDirective;
        DirectiveStarts(before + "}%%" + s);
        assert "%%{" + before + "}%%" + s == "%%{" + (before + "}%%" + s);
      }
    }
  }

  lemma DirectiveStarts(t: string)
    requires InDirective(t)
    ensures IsFlow("%%{" + t)
  {
    assert ("%%{" + t)[3..] == t;
  }

  lemma WordStarts(word: string, after: string)
    requires EqualFold(word, "graph") || EqualFold(word, "flowchart")
    requires after == "" || !IsWord(after[0])
    ensures IsFlow(word + after)
  {
    var t := word + after;
    assert |Lower(word)| == |word| && |Lower("graph")| == 5 && |Lower("flowchart")| == 9;
    assert t[..|word|] == word && (|t| > |word| ==> t[|word|] == after[0]);
    hide EqualFold, InDirective;
    assert StartsWith(t, "graph") || StartsWith(t, "flowchart");
  }

  lemma {:induction false} FlowAfterBlanks(before: string, s: string)
    requires Blank(before) && IsFlow(s)
    ensures IsFlow(before + s)
  {
    if before == "" {
      assert before + s == s;
    } else {
      assert before[0] in before && (before + s)[1..] == before[1..] + s && forall c | c in before[1..] :: c in before;
      FlowAfterBlanks(before[1..], s);
    }
  }

  lemma {:induction false} DirectiveCloses(before: string, s: string)
    requires '\n' !in before && '\r' !in before && IsFlow(s)
    ensures InDirective(before + "}%%" + s)
  {
    var t := before + "}%%" + s;
    if before == "" {
      assert t[..3] == "}%%" && t[3..] == s;
    } else {
      assert before[0] in before && t[0] == before[0] && t[1..] == before[1..] + "}%%" + s && forall c | c in before[1..] :: c in before;
      DirectiveCloses(before[1..], s);
    }
  }

  /** Anything else is none. */
  lemma NoFlow(s: string)
    requires s == "" || (!IsSpace(s[0]) && s[0] != '%' && LowerChar(s[0]) != 'g' && LowerChar(s[0]) != 'f')
    ensures !IsFlow(s)
  {
    if s != "" {
      StartsAs(s, "graph");
      StartsAs(s, "flowchart");
    }
  }

  lemma StartsAs(s: string, word: string)
    requires s != "" && word != ""
    ensures StartsWith(s, word) ==> LowerChar(s[0]) == LowerChar(word[0])
  {
    if StartsWith(s, word) { assert Lower(s[..|word|])[0] == Lower(word)[0]; }
  }

  predicate Opens(c: char) { IsOpener(c) || c == '|' }

  predicate Shuts(c: char) { c == ']' || c == ')' || c == '}' || c == '/' || c == '\\' || c == '|' }

  /** What quoting may do to a text: put a quote after a mark that opens or before one that shuts, and
      write a quote out. `start` says that a mark which opens comes before the text. */
  predicate Edited(start: bool, s: string, o: string)
    decreases |o|
  {
    if o == "" then s == ""
    else
      || (s != "" && s[0] == o[0] && Edited(Opens(s[0]), s[1..], o[1..]))
      || (s != "" && s[0] == '"' && "#quot;" <= o && Edited(false, s[1..], o[6..]))
      || (o[0] == '"' && (start || (s != "" && Shuts(s[0]))) && Edited(false, s, o[1..]))
  }

  predicate OpenAfter(start: bool, x: string) { if x == "" then start else Opens(Last(x)) }

  lemma {:induction false} CopyEdited(start: bool, x: string, s: string, o: string)
    requires Edited(OpenAfter(start, x), s, o)
    ensures Edited(start, x + s, x + o)
    decreases |x|
  {
    if x == "" {
      assert x + s == s && x + o == o;
    } else {
      hide Opens;
      assert (x + s)[1..] == x[1..] + s && (x + o)[1..] == x[1..] + o;
      CopyEdited(Opens(x[0]), x[1..], s, o);
    }
  }

  lemma {:induction false} EscapeEdited(start: bool, body: string, s: string, o: string)
    requires s != "" && Shuts(s[0]) && Edited(false, s, o)
    ensures Edited(start, body + s, Join(Split(body, "\""), "#quot;") + ("\"" + o))
    decreases |body|
  {
    if body == "" {
      assert Join(Split("", "\""), "#quot;") == "";
      hide Join, Split, Opens, Shuts;
      assert "" + s == s && "" + ("\"" + o) == "\"" + o && ("\"" + o)[1..] == o;
    } else {
      EscapeStep(body);
      var rest := Join(Split(body[1..], "\""), "#quot;") + ("\"" + o);
      hide Join, Split, Opens, Shuts;
      EscapeEdited(Opens(body[0]), body[1..], s, o);
      EscapeEdited(false, body[1..], s, o);
      EditStep(start, body, s, rest);
      Assoc(if body[0] == '"' then "#quot;" else [body[0]], Join(Split(body[1..], "\""), "#quot;"), "\"" + o);
    }
  }

  lemma EditStep(start: bool, body: string, s: string, rest: string)
    requires body != "" && Edited(Opens(body[0]), body[1..] + s, rest) && Edited(false, body[1..] + s, rest)
    ensures Edited(start, body + s, (if body[0] == '"' then "#quot;" else [body[0]]) + rest)
  {
    hide Opens, Shuts;
    var o := (if body[0] == '"' then "#quot;" else [body[0]]) + rest;
    assert (body + s)[1..] == body[1..] + s;
    assert o[|o| - |rest|..] == rest;
  }

  lemma {:induction false} StrippedOff(raw: string, inner: string)
    ensures forall i | |Stripped(raw, inner)| <= i < |raw| :: Shuts(raw[i])
  {
    if inner != "" && raw != "" && Mirrors(Last(inner), Last(raw)) {
      StrippedOff(DropLast(raw), DropLast(inner));
    }
  }

  /** A label's text stands between a mark that opens and one that shuts. */
  lemma LabelMarks(word: bool, s: string)
    requires s != "" && LabelOf(word, s).Some?
    ensures var p := LabelOf(word, s).value;
      p.Label? && p.open != "" && p.shut != "" && Opens(Last(p.open)) && Shuts(p.shut[0])
  {
    if s[0] == '|' {
      PipeLabelIs(s, LabelOf(word, s).value);
    } else {
      ShapeMarks(s);
    }
  }

  lemma ShapeMarks(s: string)
    requires s != "" && IsBracket(s[0]) && ShapeLabel(s).Some?
    ensures var p := ShapeLabel(s).value; p.Label? && p.open != "" && p.shut != "" && Opens(Last(p.open)) && Shuts(p.shut[0])
  {
    hide ShutAt, Count, RunLength, Stripped;
    var open, rest := s[..RunLength(s)], s[RunLength(s)..];
    var k := ShutAt(rest, s[0], Count(open, s[0])).value;
    StrippedOff(rest[..k], open[1..]);
    CutParts(open, rest, k);
    var p := Cut(open, rest, k);
    assert p.shut[0] == rest[|p.body|];
  }

  lemma {:induction false} ScanIsEdited(start: bool, word: bool, s: string)
    ensures Edited(start, s, Scan(word, s))
    decreases |s|
  {
    if s != "" {
      ScanStep(word, s);
      match LabelOf(word, s) {
        case None =>
          hide Scan, LabelOf;
          ScanIsEdited(Opens(s[0]), IsWord(s[0]), s[1..]);
          FirstOfRest(s, 0);
          CopyEdited(start, [s[0]], s[1..], Scan(IsWord(s[0]), s[1..]));
        case Some(p) =>
          var rest := LabelRest(word, s);
          LabelMarks(word, s);
          hide Scan, LabelOf, Edited, Quote;
          ScanIsEdited(Opens(Last(p.shut)), false, rest);
          LabelIsEdited(start, p, rest, Scan(false, rest));
      }
    } else {
      assert Scan(word, "") == "";
    }
  }

  lemma LabelIsEdited(start: bool, p: Piece, s: string, o: string)
    requires p.Label? && p.open != "" && p.shut != "" && Opens(Last(p.open)) && Shuts(p.shut[0])
    requires Edited(Opens(Last(p.shut)), s, o)
    ensures Edited(start, Source(p) + s, Source(Repaired(p)) + o)
  {
    BodyIsEdited(p.body, p.shut, s, o);
    var t, u := p.body + (p.shut + s), Quote(p.body) + (p.shut + o);
    hide Edited, Quote;
    CopyEdited(start, p.open, t, u);
    Assoc(p.body, p.shut, s);
    Assoc(p.open, p.body + p.shut, s);
    Assoc(Quote(p.body), p.shut, o);
    Assoc(p.open, Quote(p.body) + p.shut, o);
  }

  lemma BodyIsEdited(body: string, shut: string, s: string, o: string)
    requires shut != "" && Shuts(shut[0]) && Edited(Opens(Last(shut)), s, o)
    ensures Edited(true, body + (shut + s), Quote(body) + (shut + o))
  {
    hide Opens, Shuts, Readable;
    if Readable(body) {
      CopyEdited(OpenAfter(true, body), shut, s, o);
      CopyEdited(true, body, shut + s, shut + o);
    } else {
      CopyEdited(false, shut, s, o);
      var text := Join(Split(body, "\""), "#quot;");
      EscapeEdited(false, body, shut + s, shut + o);
      hide Join, Split;
      assert Quote(body) + (shut + o) == "\"" + (text + ("\"" + (shut + o)));
      assert ("\"" + (text + ("\"" + (shut + o))))[1..] == text + ("\"" + (shut + o));
    }
  }

  /** A character that nothing is put before, and that is no quote, stays. */
  lemma Stays(s: string, o: string)
    requires s != "" && s[0] != '"' && !Shuts(s[0]) && Edited(false, s, o)
    ensures o != "" && o[0] == s[0] && Edited(Opens(s[0]), s[1..], o[1..])
  {
  }

  lemma {:induction false} WordStays(s: string, o: string, n: nat)
    requires n <= |s| && Edited(false, s, o)
    requires forall i | 0 <= i < n :: s[i] != '"' && !Shuts(s[i]) && !Opens(s[i])
    ensures n <= |o| && o[..n] == s[..n] && Edited(false, s[n..], o[n..])
  {
    if n == 0 {
      assert s[0..] == s && o[0..] == o;
    } else {
      Stays(s, o);
      hide Edited, Opens, Shuts;
      WordStays(s[1..], o[1..], n - 1);
      assert s[1..][n - 1..] == s[n..] && o[1..][n - 1..] == o[n..];
      assert s[..n] == [s[0]] + s[1..][..n - 1] && o[..n] == [o[0]] + o[1..][..n - 1];
    }
  }

  lemma StartStays(s: string, o: string, word: string)
    requires StartsWith(s, word) && Edited(false, s, o) && forall i | 0 <= i < |word| :: 'a' <= word[i] <= 'z'
    ensures StartsWith(o, word)
  {
    var n := |word|;
    forall i | 0 <= i < n ensures s[i] != '"' && !Shuts(s[i]) && !Opens(s[i]) {
      assert Lower(s[..n])[i] == Lower(word)[i];
    }
    hide EqualFold;
    WordStays(s, o, n);
    if |o| > n { NextStays(s[n..], o[n..]); }
  }

  lemma NextStays(s: string, o: string)
    requires Edited(false, s, o) && o != "" && (s == "" || !IsWord(s[0]))
    ensures !IsWord(o[0])
  {
  }

  lemma {:induction false} FlowEdited(s: string, o: string)
    requires Edited(false, s, o) && IsFlow(s)
    ensures IsFlow(o)
    decreases |o|, 1
  {
    if IsSpace(s[0]) && IsFlow(s[1..]) {
      Stays(s, o);
      hide Edited;
      FlowEdited(s[1..], o[1..]);
    } else if StartsWith(s, "graph") {
      StartStays(s, o, "graph");
    } else if StartsWith(s, "flowchart") {
      StartStays(s, o, "flowchart");
    } else {
      hide IsFlow, StartsWith, InDirective;
      DirectiveOpens(s, o);
      DirectiveEdited(true, s[3..], o[3..]);
      DirectiveIsFlow(o);
    }
    FlowHas(o);
  }

  lemma FlowHas(o: string)
    ensures StartsWith(o, "graph") || StartsWith(o, "flowchart") ==> IsFlow(o)
    ensures o != "" && IsSpace(o[0]) && IsFlow(o[1..]) ==> IsFlow(o)
  {
  }

  lemma DirectiveIsFlow(o: string)
    requires "%%{" <= o && InDirective(o[3..])
    ensures IsFlow(o)
  {
    hide InDirective;
  }

  lemma DirectiveOpens(s: string, o: string)
    requires Edited(false, s, o) && "%%{" <= s
    ensures "%%{" <= o && Edited(true, s[3..], o[3..])
  {
    WordStays(s, o, 2);
    Stays(s[2..], o[2..]);
    hide Edited;
    assert s[2..][1..] == s[3..] && o[2..][1..] == o[3..];
    assert s[2..][0] == '{' && o[..2] == "%%";
  }

  lemma {:induction false} DirectiveEdited(start: bool, s: string, o: string)
    requires Edited(start, s, o) && InDirective(s)
    ensures InDirective(o)
    decreases |o|, 0
  {
    hide IsFlow;
    if o[0] == '"' && Edited(false, s, o[1..]) {
      DirectiveEdited(false, s, o[1..]);
      DotsThen([o[0]], o[1..]);
      FirstOfRest(o, 0);
    } else if "}%%" <= s && IsFlow(s[3..]) {
      DirectiveEnds(s, o);
      FlowEdited(s[3..], o[3..]);
    } else if s[0] == '"' && "#quot;" <= o && Edited(false, s[1..], o[6..]) {
      DirectiveEdited(false, s[1..], o[6..]);
      DotsThen("#quot;", o[6..]);
      assert o == "#quot;" + o[6..];
    } else {
      DirectiveEdited(Opens(s[0]), s[1..], o[1..]);
      DotsThen([o[0]], o[1..]);
      FirstOfRest(o, 0);
    }
  }

  lemma DirectiveEnds(s: string, o: string)
    requires "}%%" <= s && o != "" && s[0] == o[0] && Edited(Opens(s[0]), s[1..], o[1..])
    ensures "}%%" <= o && Edited(false, s[3..], o[3..])
  {
    hide Edited;
    WordStays(s[1..], o[1..], 2);
    assert s[1..][2..] == s[3..] && o[1..][2..] == o[3..];
    assert s[1..][..2] == "%%" && o[..3] == [o[0]] + o[1..][..2];
  }

  lemma {:induction false} DotsThen(x: string, t: string)
    requires InDirective(t) && forall i | 0 <= i < |x| :: x[i] != '\n' && x[i] != '\r'
    ensures InDirective(x + t)
  {
    hide IsFlow;
    if x == "" {
      assert x + t == t;
    } else {
      assert (x + t)[1..] == x[1..] + t;
      DotsThen(x[1..], t);
    }
  }

  /** A repaired flowchart is one still. */
  lemma FlowStays(s: string)
    requires IsFlow(s)
    ensures IsFlow(Scan(false, s))
  {
    hide IsFlow, Edited;
    ScanIsEdited(false, false, s);
    FlowEdited(s, Scan(false, s));
  }

  /* ---- repair and label as they are written ---- */

  predicate WordBefore(src: string, i: nat)
    requires i <= |src|
  {
    i > 0 && IsWord(src[i - 1])
  }

  /** label: reads one label and the shape around it, or decides that there is none here. */
  method FindLabel(src: string, i: nat) returns (found: Option<Piece>, end: nat)
    requires i < |src|
    ensures found == LabelOf(WordBefore(src, i), src[i..])
    ensures found.Some? ==> end == i + |Source(found.value)|
  {
    hide PipeLabel, ShapeLabel;
    if src[i] == '|' {
      found, end := FindPipe(src, i);
    } else if IsBracket(src[i]) && WordBefore(src, i) {
      found, end := FindShape(src, i);
    } else {
      return None, i;
    }
  }

  method FindPipe(src: string, i: nat) returns (found: Option<Piece>, end: nat)
    requires i < |src| && src[i] == '|'
    ensures found == PipeLabel(src[i..]) && (found.Some? ==> end == i + |Source(found.value)|)
  {
    hide PipeAt, PipeLabel;
    var k := PipeIndex(src, i + 1);
    PipeFound(src, i);
    if k.None? { return None, i; }
    return Some(Label("|", src[i + 1..k.value], "|")), k.value + 1;
  }

  method PipeIndex(src: string, j: nat) returns (r: Option<nat>)
    requires j <= |src|
    ensures r == Shifted(PipeAt(src[j..]), j)
    ensures r.Some? ==> j <= r.value < |src|
  {
    hide PipeAt;
    var k := j;
    while k < |src| && src[k] != '|' && src[k] != '\n'
      invariant j <= k <= |src|
      invariant PipeAt(src[j..]) == Shifted(PipeAt(src[k..]), k - j)
    {
      PipeStep(src, k);
      k := k + 1;
    }
    PipeStep(src, k);
    return if k < |src| && src[k] == '|' then Some(k) else None;
  }

  lemma PipeStep(src: string, k: nat)
    requires k <= |src|
    ensures PipeAt(src[k..]) == if k == |src| || src[k] == '\n' then None
                                else if src[k] == '|' then Some(0) else Further(PipeAt(src[k + 1..]))
  {
    if k < |src| {
      FirstOfRest(src, k);
      assert src[k..][1..] == src[k + 1..];
    }
  }

  lemma PipeFound(src: string, i: nat)
    requires i < |src| && src[i] == '|'
    ensures var k := PipeAt(src[i + 1..]);
      PipeLabel(src[i..]) == if k.None? then None else Some(Label("|", src[i + 1..i + 1 + k.value], "|"))
  {
    hide PipeAt;
    assert src[i..][1..] == src[i + 1..];
    var k := PipeAt(src[i + 1..]);
    if k.Some? { assert src[i..][1..k.value + 1] == src[i + 1..i + 1 + k.value]; }
  }

  method FindShape(src: string, i: nat) returns (found: Option<Piece>, end: nat)
    requires i < |src| && IsBracket(src[i])
    ensures found == ShapeLabel(src[i..]) && (found.Some? ==> end == i + |Source(found.value)|)
  {
    hide ShutAt, Count, Cut, Stripped, RunLength, ShapeLabel;
    var j := RunEnd(src, i);
    CountPositive(src[i..j], src[i]);
    var k := ShutIndex(src, j, src[i], Count(src[i..j], src[i]));
    ShapeFound(src, i, j);
    if k.None? { return None, i; }
    var body := StripMirrors(src[j..k.value], src[i + 1..j]);
    CutAt(src, i, j, k.value);
    return Some(Label(src[i..j], body, src[j + |body|..k.value + 1])), k.value + 1;
  }

  lemma ShapeFound(src: string, i: nat, j: nat)
    requires i < j <= |src| && j - i == RunLength(src[i..]) && IsBracket(src[i])
    ensures var k := ShutAt(src[j..], src[i], Count(src[i..j], src[i]));
      ShapeLabel(src[i..]) == if k.None? then None else Some(Cut(src[i..j], src[j..], k.value))
  {
    hide ShutAt, Count, Cut, RunLength;
    assert src[i..][..j - i] == src[i..j] && src[i..][j - i..] == src[j..];
  }

  lemma CutAt(src: string, i: nat, j: nat, k: nat)
    requires i < j <= k < |src|
    ensures var p, body := Cut(src[i..j], src[j..], k - j), Stripped(src[j..k], src[i + 1..j]);
      p == Label(src[i..j], body, src[j + |body|..k + 1]) && i + |Source(p)| == k + 1
  {
    hide Stripped;
    assert src[j..][..k - j] == src[j..k] && src[i..j][1..] == src[i + 1..j];
    var body := Stripped(src[j..k], src[i + 1..j]);
    assert src[j..][|body|..k - j + 1] == src[j + |body|..k + 1];
  }

  /** Where the bracket is shut that stands open `first` times at `j`. */
  method ShutIndex(src: string, j: nat, bracket: char, first: nat) returns (r: Option<nat>)
    requires j <= |src| && IsBracket(bracket) && first > 0
    ensures r == Shifted(ShutAt(src[j..], bracket, first), j)
    ensures r.Some? ==> j <= r.value < |src|
  {
    hide ShutAt;
    var k, depth := j, first;
    while k < |src| && src[k] != '\n'
      invariant j <= k <= |src| && depth > 0
      invariant ShutAt(src[j..], bracket, first) == Shifted(ShutAt(src[k..], bracket, depth), k - j)
    {
      ShutStep(src[k..], bracket, depth);
      FirstOfRest(src, k);
      if src[k] == bracket {
        depth := depth + 1;
      } else if src[k] == Shut(bracket) {
        depth := depth - 1;
        if depth == 0 { return Some(k); }
      }
      k := k + 1;
    }
    if k < |src| { ShutStep(src[k..], bracket, depth); }
    ShutNowhere(src[k..], bracket, depth);
    return None;
  }

  lemma ShutNowhere(s: string, bracket: char, depth: nat)
    requires IsBracket(bracket) && (s == "" || s[0] == '\n')
    ensures ShutAt(s, bracket, depth) == None
  {
  }

  method RunEnd(src: string, i: nat) returns (j: nat)
    requires i < |src| && IsOpener(src[i])
    ensures i < j <= |src| && j - i == RunLength(src[i..])
  {
    j := i;
    while j < |src| && IsOpener(src[j])
      invariant i <= j <= |src| && (j == i || j > i)
      invariant RunLength(src[i..]) == j - i + RunLength(src[j..])
    {
      FirstOfRest(src, j);
      j := j + 1;
    }
  }

  lemma CountPositive(s: string, c: char)
    requires s != "" && s[0] == c
    ensures Count(s, c) > 0
  {
  }

  /** The text, without what mirrors the inner marks of the shape's opening. */
  method StripMirrors(raw: string, inner: string) returns (body: string)
    ensures body == Stripped(raw, inner)
  {
    body := raw;
    var n := |inner|;
    assert inner[..n] == inner;
    while n > 0 && body != "" && Mirrors(inner[n - 1], Last(body))
      invariant 0 <= n <= |inner|
      invariant Stripped(body, inner[..n]) == Stripped(raw, inner)
    {
      assert Last(inner[..n]) == inner[n - 1] && DropLast(inner[..n]) == inner[..n - 1];
      body := DropLast(body);
      n := n - 1;
    }
  }

  function RepairedSource(source: string): string {
    if IsFlow(source) then Scan(false, source) else source
  }

  /** repair: of a flowchart only. */
  method Repair(source: string) returns (out: string)
    ensures out == RepairedSource(source)
  {
    if !IsFlow(source) { return source; }
    hide *;
    out := "";
    var i := 0;
    DoneFirst(source);
    while i < |source|
      invariant i <= |source| && Done(source, i, out)
      decreases |source| - i
    {
      var found, end := FindLabel(source, i);
      var text;
      if found.None? {
        BareStep(source, i);
        text, end := [source[i]], i + 1;
      } else {
        var p := found.value;
        LabelStep(source, i, p);
        text := p.open + (Quote(p.body) + p.shut);
      }
      DoneMore(source, i, out, text, end);
      out, i := out + text, end;
    }
    DoneLast(source, out);
  }

  /** What is to come at `i`. */
  ghost function ScanFrom(source: string, i: nat): string
    requires i <= |source|
  {
    Scan(WordBefore(source, i), source[i..])
  }

  ghost predicate Done(source: string, i: nat, out: string)
    requires i <= |source|
  {
    out + ScanFrom(source, i) == Scan(false, source)
  }

  lemma DoneFirst(source: string)
    ensures Done(source, 0, "")
  {
    assert source[0..] == source;
    assert "" + Scan(false, source) == Scan(false, source);
  }

  lemma DoneMore(source: string, i: nat, out: string, text: string, end: nat)
    requires i <= end <= |source| && Done(source, i, out) && ScanFrom(source, i) == text + ScanFrom(source, end)
    ensures Done(source, end, out + text)
  {
    hide ScanFrom, Scan;
    Assoc(out, text, ScanFrom(source, end));
  }

  lemma DoneLast(source: string, out: string)
    requires Done(source, |source|, out)
    ensures out == Scan(false, source)
  {
    assert out + "" == out;
  }

  lemma BareStep(source: string, i: nat)
    requires i < |source| && LabelOf(WordBefore(source, i), source[i..]) == None
    ensures ScanFrom(source, i) == [source[i]] + ScanFrom(source, i + 1)
  {
    hide Scan, LabelOf, IsWord;
    ScanStep(WordBefore(source, i), source[i..]);
    AfterPrefix(source, i, 1);
  }

  lemma LabelStep(source: string, i: nat, p: Piece)
    requires i < |source| && LabelOf(WordBefore(source, i), source[i..]) == Some(p)
    ensures var end := i + |Source(p)|;
      p.Label? && i < end <= |source| && ScanFrom(source, i) == p.open + (Quote(p.body) + p.shut) + ScanFrom(source, end)
  {
    ScanStep(WordBefore(source, i), source[i..]);
    LabelIsPrefix(WordBefore(source, i), source[i..]);
    hide Scan, LabelOf, IsWord, Quote;
    AfterPrefix(source, i, |Source(p)|);
  }

  lemma AfterPrefix(source: string, i: nat, n: nat)
    requires 0 < n && i + n <= |source|
    ensures source[i..][n..] == source[i + n..] && source[i + n - 1] == Last(source[i..][..n])
  {
  }

  /** Repairing twice is repairing once: a repaired flowchart is a flowchart, and its labels can all be
      read. */
  lemma RepairIdempotent(source: string)
    ensures RepairedSource(RepairedSource(source)) == RepairedSource(source)
    ensures IsFlow(RepairedSource(source)) <==> IsFlow(source)
    ensures IsFlow(source) ==> AllReadable(Pieces(false, RepairedSource(source)))
  {
    hide Scan, Pieces, AllReadable, IsFlow;
    if IsFlow(source) {
      FlowStays(source);
      ScanIdempotent(false, source);
      ScanMakesReadable(false, source);
    }
  }
}
