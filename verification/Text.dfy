/** Byte strings as the Go and JavaScript string libraries see them: splitting on a separator,
    joining, and trimming ASCII whitespace. */
module Text {

  datatype Option<+T> = None | Some(value: T)

  function Last<T>(xs: seq<T>): T requires xs != [] { xs[|xs| - 1] }

  function DropLast<T>(xs: seq<T>): seq<T> requires xs != [] { xs[..|xs| - 1] }

  lemma FirstOfRest<T>(xs: seq<T>, i: nat)
    requires i < |xs|
    ensures xs[i..] == [xs[i]] + xs[i + 1..]
  {
  }

  lemma Assoc<T>(a: seq<T>, b: seq<T>, c: seq<T>)
    ensures (a + b) + c == a + (b + c)
  {
  }

  lemma SubsetSize<T>(a: set<T>, b: set<T>)
    requires a <= b
    ensures |a| <= |b|
  {
    assert b == a + (b - a);
  }

  /* ---- splitting and joining ---- */

  /** Go's strings.Split and JavaScript's String.split: cut at every leftmost match. */
  function Split(s: string, sep: string): (parts: seq<string>)
    requires sep != ""
    ensures |parts| >= 1
    decreases |s|
  {
    if s == "" then [""]
    else if sep <= s then [""] + Split(s[|sep|..], sep)
    else Before(s[0], Split(s[1..], sep))
  }

  /** `parts` with `c` in front of its first piece. */
  function Before(c: char, parts: seq<string>): (r: seq<string>)
    requires parts != []
  {
    [[c] + parts[0]] + parts[1..]
  }

  function Join(parts: seq<string>, sep: string): string {
    if parts == [] then ""
    else if |parts| == 1 then parts[0]
    else parts[0] + sep + Join(parts[1..], sep)
  }

  lemma JoinCons(first: string, rest: seq<string>, sep: string)
    requires rest != []
    ensures Join([first] + rest, sep) == first + sep + Join(rest, sep)
  {
    assert ([first] + rest)[1..] == rest;
  }

  /** A character put in front of the first piece is put in front of the joined text. */
  lemma JoinGrowsHead(c: char, parts: seq<string>, sep: string)
    requires parts != []
    ensures Join(Before(c, parts), sep) == [c] + Join(parts, sep)
  {
    if |parts| > 1 {
      JoinCons([c] + parts[0], parts[1..], sep);
    }
  }

  lemma {:induction false} JoinAppend(parts: seq<string>, last: string, sep: string)
    requires parts != []
    ensures Join(parts + [last], sep) == Join(parts, sep) + sep + last
  {
    if |parts| > 1 {
      JoinAppend(parts[1..], last, sep);
      assert (parts + [last])[1..] == parts[1..] + [last];
    } else {
      assert (parts + [last])[1..] == [last];
    }
  }

  lemma {:induction false} JoinSplit(s: string, sep: string)
    requires sep != ""
    ensures Join(Split(s, sep), sep) == s
    decreases |s|
  {
    if s == "" {
    } else if sep <= s {
      var u := s[|sep|..];
      assert s == sep + u;
      JoinSplit(u, sep);
      SplitSep(u, sep);
      JoinCons("", Split(u, sep), sep);
    } else {
      var u := s[1..];
      assert s == [s[0]] + u;
      JoinSplit(u, sep);
      SplitChar(s[0], u, sep);
      JoinGrowsHead(s[0], Split(u, sep), sep);
    }
  }

  lemma {:induction false} SplitShort(s: string, sep: string)
    requires |s| < |sep|
    ensures Split(s, sep) == [s]
  {
    if s != "" {
      SplitShort(s[1..], sep);
      assert s == [s[0]] + s[1..];
    }
  }

  /** Splitting what has arrived and going on with the open tail is splitting the whole text. */
  lemma {:induction false} SplitAppend(s: string, t: string, sep: string)
    requires sep != ""
    ensures Split(s + t, sep) == DropLast(Split(s, sep)) + Split(Last(Split(s, sep)) + t, sep)
    decreases |s|
  {
    if |s| < |sep| {
      SplitShort(s, sep);
    } else if sep <= s {
      var rest := s[|sep|..];
      assert (s + t)[|sep|..] == rest + t;
      SplitAppend(rest, t, sep);
      assert DropLast(Split(s, sep)) == [""] + DropLast(Split(rest, sep));
    } else {
      SplitAppend(s[1..], t, sep);
      AppendAfterChar(s, t, sep);
    }
  }

  lemma AppendAfterChar(s: string, t: string, sep: string)
    requires 0 < |sep| <= |s| && !(sep <= s)
    requires var rest := Split(s[1..], sep); Split(s[1..] + t, sep) == DropLast(rest) + Split(Last(rest) + t, sep)
    ensures Split(s + t, sep) == DropLast(Split(s, sep)) + Split(Last(Split(s, sep)) + t, sep)
  {
    hide Split;
    var c, u := s[0], s[1..];
    var rest := Split(u, sep);
    assert s == [c] + u && s + t == [c] + (u + t);
    assert !(sep <= s + t) by { assert (s + t)[..|sep|] == s[..|sep|]; }
    SplitChar(c, u, sep);
    SplitChar(c, u + t, sep);
    if |rest| == 1 {
      JoinSplit(u, sep);
      assert Last(Split(s, sep)) + t == [c] + (u + t);
    } else {
      BeforeLonger(c, rest, Split(Last(rest) + t, sep));
    }
  }

  lemma SplitSep(u: string, sep: string)
    requires sep != ""
    ensures Split(sep + u, sep) == [""] + Split(u, sep)
  {
    assert (sep + u)[|sep|..] == u;
  }

  lemma SplitChar(c: char, u: string, sep: string)
    requires sep != "" && !(sep <= [c] + u)
    ensures Split([c] + u, sep) == Before(c, Split(u, sep))
  {
    assert ([c] + u)[1..] == u;
  }

  lemma BeforeLonger(c: char, parts: seq<string>, tail: seq<string>)
    requires |parts| > 1
    ensures Last(Before(c, parts)) == Last(parts)
    ensures Before(c, DropLast(parts) + tail) == DropLast(Before(c, parts)) + tail
  {
  }

  /** `t` is the text in front of the `n`-th separator: it holds exactly the first `n` pieces. */
  ghost predicate Keeps(s: string, t: string, sep: string, n: nat)
    requires sep != "" && n <= |Split(s, sep)|
  {
    t <= s && Split(t, sep) == Split(s, sep)[..n]
  }

  /** Keeping the first `n` pieces and joining them gives a prefix of the text, which splits into
      exactly those pieces. */
  lemma {:induction false} SplitJoinPrefix(s: string, sep: string, n: nat)
    requires sep != "" && 1 <= n <= |Split(s, sep)|
    ensures Keeps(s, Join(Split(s, sep)[..n], sep), sep, n)
    decreases |s|
  {
    if s == "" || (sep <= s && n == 1) {
      assert Split(s, sep)[..n] == [""];
    } else if sep <= s {
      SplitJoinPrefix(s[|sep|..], sep, n - 1);
      KeepsAfterSep(s, sep, n - 1);
    } else {
      SplitJoinPrefix(s[1..], sep, n);
      KeepsAfterChar(s, sep, n);
    }
  }

  lemma KeepsAfterSep(s: string, sep: string, n: nat)
    requires sep != "" && sep <= s && 1 <= n <= |Split(s[|sep|..], sep)|
    requires Keeps(s[|sep|..], Join(Split(s[|sep|..], sep)[..n], sep), sep, n)
    ensures n + 1 <= |Split(s, sep)|
    ensures Keeps(s, Join(Split(s, sep)[..n + 1], sep), sep, n + 1)
  {
    hide Split;
    hide Join;
    var u := s[|sep|..];
    var rest := Split(u, sep)[..n];
    assert s == sep + u;
    SplitSep(u, sep);
    assert ([""] + Split(u, sep))[..n + 1] == [""] + rest;
    JoinCons("", rest, sep);
    SplitSep(Join(rest, sep), sep);
    assert Join(Split(s, sep)[..n + 1], sep) == sep + Join(rest, sep);
  }

  lemma KeepsAfterChar(s: string, sep: string, n: nat)
    requires sep != "" && s != "" && !(sep <= s) && 1 <= n <= |Split(s[1..], sep)|
    requires Keeps(s[1..], Join(Split(s[1..], sep)[..n], sep), sep, n)
    ensures n <= |Split(s, sep)|
    ensures Keeps(s, Join(Split(s, sep)[..n], sep), sep, n)
  {
    hide Split;
    hide Join;
    var c, u := s[0], s[1..];
    var rest := Split(u, sep)[..n];
    assert s == [c] + u;
    SplitChar(c, u, sep);
    assert Before(c, Split(u, sep))[..n] == Before(c, rest);
    JoinGrowsHead(c, rest, sep);
    var t := [c] + Join(rest, sep);
    assert t == s[..|t|];
    SplitChar(c, Join(rest, sep), sep);
  }

  /** A piece without the one-character separator is cut off whole. */
  lemma {:induction false} SplitPiece(p: string, c: char, rest: string)
    requires c !in p
    ensures Split(p, [c]) == [p]
    ensures Split(p + [c] + rest, [c]) == [p] + Split(rest, [c])
  {
    var t := p + [c] + rest;
    if p == "" {
      assert t[1..] == rest;
    } else {
      assert t[1..] == p[1..] + [c] + rest;
      SplitPiece(p[1..], c, rest);
      assert p == [p[0]] + p[1..];
    }
  }

  /** With a one-character separator, joining pieces that do not hold it is undone by Split. */
  lemma {:induction false} SplitJoin(parts: seq<string>, c: char)
    requires parts != [] && forall p | p in parts :: c !in p
    ensures Split(Join(parts, [c]), [c]) == parts
  {
    if |parts| == 1 {
      SplitPiece(parts[0], c, "");
    } else {
      SplitPiece(parts[0], c, Join(parts[1..], [c]));
      SplitJoin(parts[1..], c);
    }
  }

  /** A separator put after `p` is the first one there. */
  predicate ClearOf(p: string, sep: string) {
    forall i | 0 <= i < |p| :: !(sep <= (p + sep)[i..])
  }

  /** So it cuts `p` off whole. */
  lemma {:induction false} SplitClear(p: string, sep: string, rest: string)
    requires sep != "" && ClearOf(p, sep)
    ensures Split(p + sep + rest, sep) == [p] + Split(rest, sep)
  {
    var t := p + sep + rest;
    if p == "" {
      assert t == sep + rest;
      SplitSep(rest, sep);
    } else {
      assert t == [p[0]] + (p[1..] + sep + rest) && p == [p[0]] + p[1..];
      assert !(sep <= t) by { assert (p + sep)[0..] == p + sep && t[..|sep|] == (p + sep)[..|sep|]; }
      forall i | 0 <= i < |p| - 1 ensures !(sep <= (p[1..] + sep)[i..]) {
        assert (p[1..] + sep)[i..] == (p + sep)[i + 1..];
      }
      SplitClear(p[1..], sep, rest);
      SplitChar(p[0], p[1..] + sep + rest, sep);
      assert Before(p[0], [p[1..]] + Split(rest, sep)) == [p] + Split(rest, sep);
    }
  }

  lemma {:induction false} ClearStays(p: string, sep: string)
    requires sep != "" && ClearOf(p, sep)
    ensures Split(p, sep) == [p]
  {
    if p != "" {
      assert p == [p[0]] + p[1..];
      assert |sep| <= |p| ==> p[..|sep|] == (p + sep)[0..][..|sep|];
      forall i | 0 <= i < |p| - 1 ensures !(sep <= (p[1..] + sep)[i..]) {
        assert (p[1..] + sep)[i..] == (p + sep)[i + 1..];
      }
      ClearStays(p[1..], sep);
      SplitChar(p[0], p[1..], sep);
    }
  }

  /** Joining such pieces is undone by Split, whatever the separator. */
  lemma {:induction false} SplitJoined(parts: seq<string>, sep: string)
    requires sep != "" && parts != [] && forall p | p in parts :: ClearOf(p, sep)
    ensures Split(Join(parts, sep), sep) == parts
  {
    hide ClearOf, Split;
    assert parts[0] in parts;
    if |parts| == 1 {
      ClearStays(parts[0], sep);
    } else {
      var first, rest := parts[0], parts[1..];
      assert forall p | p in rest :: p in parts;
      SplitJoined(rest, sep);
      hide Join;
      assert parts == [first] + rest;
      JoinCons(first, rest, sep);
      SplitClear(first, sep, Join(rest, sep));
    }
  }

  /** No piece of a split holds a one-character separator. */
  lemma {:induction false} SplitFree(s: string, c: char)
    ensures forall p | p in Split(s, [c]) :: c !in p
    decreases |s|
  {
    if s != "" {
      SplitFree(s[1..], c);
    }
  }

  /** No piece of a split holds a character the text does not. */
  lemma {:induction false} SplitKeepsOut(s: string, sep: char, c: char)
    requires c !in s
    ensures forall p | p in Split(s, [sep]) :: c !in p
    decreases |s|
  {
    if s != "" {
      SplitKeepsOut(s[1..], sep, c);
    }
  }

  /** The pieces with anything in them. */
  function NonEmptyOf(xs: seq<string>): seq<string> {
    if xs == [] then [] else (if xs[0] == "" then [] else [xs[0]]) + NonEmptyOf(xs[1..])
  }

  lemma {:induction false} NonEmptyAppend(xs: seq<string>, x: string)
    ensures NonEmptyOf(xs + [x]) == NonEmptyOf(xs) + (if x == "" then [] else [x])
  {
    if xs != [] {
      NonEmptyAppend(xs[1..], x);
      assert (xs + [x])[1..] == xs[1..] + [x];
    }
  }

  /** They are all of them, in order: nothing else is left out, and nothing goes missing around what is. */
  lemma {:induction false} NonEmptyKeeps(a: seq<string>, b: seq<string>)
    ensures (forall x | x in a :: x != "") ==> NonEmptyOf(a) == a
    ensures NonEmptyOf(a + [""] + b) == NonEmptyOf(a + b)
  {
    if a == [] {
      assert [] + [""] + b == [""] + b && [] + b == b && ([""] + b)[1..] == b;
    } else {
      assert a[0] in a && forall x | x in a[1..] :: x in a;
      assert (a + [""] + b)[1..] == a[1..] + [""] + b && (a + b)[1..] == a[1..] + b;
      NonEmptyKeeps(a[1..], b);
    }
  }

  /* ---- blank lines ---- */

  const BREAK: string := "\n\n"

  predicate NoBreak(s: string) {
    forall i | 0 <= i < |s| - 1 :: !(s[i] == '\n' && s[i + 1] == '\n')
  }

  lemma {:induction false} SplitBlock(block: string, rest: string)
    requires NoBreak(block) && (block != "" ==> Last(block) != '\n')
    ensures Split(block + BREAK + rest, BREAK) == [block] + Split(rest, BREAK)
  {
    var t := block + BREAK + rest;
    if block == "" {
      assert t[2..] == rest;
    } else {
      assert t[0] == block[0] && t[1] == if |block| > 1 then block[1] else '\n';
      assert t[1..] == block[1..] + BREAK + rest;
      SplitBlock(block[1..], rest);
      assert block == [block[0]] + block[1..];
    }
  }

  lemma {:induction false} SplitOpen(s: string)
    requires NoBreak(s)
    ensures Split(s, BREAK) == [s]
  {
    if s != "" {
      SplitOpen(s[1..]);
      assert s == [s[0]] + s[1..];
    }
  }

  /** No piece between blank lines has a blank line in it. */
  lemma {:induction false} PiecesHaveNoBreak(s: string)
    ensures forall p | p in Split(s, BREAK) :: NoBreak(p)
    ensures Split(s, BREAK)[0] <= s
    decreases |s|
  {
    if s == "" {
    } else if BREAK <= s {
      PiecesHaveNoBreak(s[2..]);
    } else {
      PiecesHaveNoBreak(s[1..]);
      assert s == [s[0]] + s[1..];
      var parts := Split(s[1..], BREAK);
      assert parts[0] in parts && NoBreak(parts[0]);
      if parts[0] != "" {
        assert parts[0][0] == s[1];
        assert s[..2] == [s[0], s[1]] && s[..2] != BREAK;
      }
      assert NoBreak([s[0]] + parts[0]);
    }
  }

  /** A text without blank lines at which no line break hangs has no empty line. */
  lemma {:induction false} NoEmptyLine(s: string)
    requires NoBreak(s) && (s != "" ==> Last(s) != '\n')
    ensures forall i | 1 <= i < |Split(s, "\n")| :: Split(s, "\n")[i] != ""
    ensures Split(s, "\n")[0] == "" <==> s == "" || s[0] == '\n'
  {
    if s != "" {
      NoEmptyLine(s[1..]);
    }
  }

  /* ---- trimming ---- */

  predicate IsSpace(c: char) {
    c == ' ' || '\t' <= c <= '\r'
  }

  predicate Blank(s: string) { forall c | c in s :: IsSpace(c) }

  function TrimLeft(s: string): (r: string)
    ensures |r| <= |s|
    ensures r != "" ==> !IsSpace(r[0])
  {
    if s != "" && IsSpace(s[0]) then TrimLeft(s[1..]) else s
  }

  function TrimRight(s: string): (r: string)
    ensures r <= s
    ensures r != "" ==> !IsSpace(Last(r))
  {
    if s != "" && IsSpace(Last(s)) then TrimRight(DropLast(s)) else s
  }

  predicate Trimmed(s: string) { s == "" || (!IsSpace(s[0]) && !IsSpace(Last(s))) }

  function Trim(s: string): (r: string)
    ensures Trimmed(r) && |r| <= |s|
  {
    TrimRight(TrimLeft(s))
  }

  lemma TrimOfTrimmed(s: string)
    requires Trimmed(s)
    ensures Trim(s) == s
  {
  }

  lemma {:induction false} TrimLeftSplits(s: string)
    ensures s == s[..|s| - |TrimLeft(s)|] + TrimLeft(s) && Blank(s[..|s| - |TrimLeft(s)|])
  {
    if s != "" && IsSpace(s[0]) {
      TrimLeftSplits(s[1..]);
      var n := |s| - |TrimLeft(s)|;
      assert s[..n] == [s[0]] + s[1..][..n - 1];
    }
  }

  lemma {:induction false} TrimRightSplits(s: string)
    ensures s == TrimRight(s) + s[|TrimRight(s)|..] && Blank(s[|TrimRight(s)|..])
  {
    if s != "" && IsSpace(Last(s)) {
      TrimRightSplits(DropLast(s));
      var n := |TrimRight(s)|;
      assert s[n..] == DropLast(s)[n..] + [Last(s)];
    }
  }

  /** Trimming only takes whitespace away, and only from the two ends. */
  lemma TrimSplits(s: string) returns (l: string, r: string)
    ensures s == l + Trim(s) + r && Blank(l) && Blank(r)
  {
    var t := TrimLeft(s);
    TrimLeftSplits(s);
    TrimRightSplits(t);
    l, r := s[..|s| - |t|], t[|TrimRight(t)|..];
    calc {
      s;
      l + t;
      l + (TrimRight(t) + r);
      l + Trim(s) + r;
    }
  }

  lemma TrimWhole(s: string)
    requires |Trim(s)| == |s|
    ensures Trim(s) == s
  {
    var l, r := TrimSplits(s);
  }

  lemma TrimEmptyIffBlank(s: string)
    ensures Trim(s) == "" <==> Blank(s)
  {
    var l, r := TrimSplits(s);
    if Trim(s) == "" {
      assert s == l + r;
    } else {
      assert Trim(s)[0] in s;
    }
  }
}
