/** Headings and breadcrumbs of internal/rag/chunk.go: reading a heading line, keeping the heading
    stack, and naming a merged chunk by what its sections share. */
module Headings {
  import opened Text

  /** What joins the heading stack into the breadcrumb a citation shows. */
  const CRUMB_SEP: string := " > "

  /** A heading line; level 0 stands for "not a heading". */
  datatype Heading = Heading(level: nat, text: string)

  const NOT_A_HEADING := Heading(0, "")

  function Hashes(t: string): (n: nat)
    ensures n <= |t|
    ensures n < |t| ==> t[n] != '#'
  {
    if t != "" && t[0] == '#' then 1 + Hashes(t[1..]) else 0
  }

  function HeadingIn(line: string): (h: Heading)
    ensures h.level <= 6
  {
    var t := Trim(line);
    var n := Hashes(t);
    if n == 0 || n > 6 || n >= |t| || t[n] != ' ' then NOT_A_HEADING
    else Heading(n, Trim(t[n..]))
  }

  function Sharp(n: nat): (s: string)
    ensures |s| == n && forall i | 0 <= i < n :: s[i] == '#'
  {
    seq(n, _ => '#')
  }

  /** A line is a heading of level `n` exactly when it is `n` hashes, one to six, a space and then its
      text, once blanks are off its ends; the text has them taken off as well. */
  lemma HeadingIff(line: string, n: nat, rest: string)
    ensures Trim(line) == Sharp(n) + " " + rest && 1 <= n <= 6 ==> HeadingIn(line) == Heading(n, Trim(rest))
    ensures HeadingIn(line).level > 0 ==>
      exists tail: string :: Trim(line) == Sharp(HeadingIn(line).level) + " " + tail && HeadingIn(line).text == Trim(tail)
  {
    hide Trim, Hashes;
    var t := Trim(line);
    if t == Sharp(n) + " " + rest {
      assert t[n] == ' ' && t[n..] == " " + rest;
      HashesAre(t, n);
      TrimSpaceFirst(rest);
    }
    if HeadingIn(line).level > 0 {
      var k := Hashes(t);
      HashesRun(t);
      var tail := t[k + 1..];
      assert t[k..] == " " + tail;
      TrimSpaceFirst(tail);
      assert t == t[..k] + " " + tail && t[..k] == Sharp(k);
    }
  }

  lemma TrimSpaceFirst(s: string)
    ensures Trim(" " + s) == Trim(s)
  {
    assert (" " + s)[1..] == s;
  }

  lemma {:induction false} HashesAre(t: string, n: nat)
    requires n < |t| && t[n] != '#' && forall i | 0 <= i < n :: t[i] == '#'
    ensures Hashes(t) == n
  {
    if n > 0 { HashesAre(t[1..], n - 1); }
  }

  lemma {:induction false} HashesRun(t: string)
    ensures forall i | 0 <= i < Hashes(t) :: t[i] == '#'
  {
    if t != "" && t[0] == '#' {
      HashesRun(t[1..]);
      assert forall i | 0 < i < Hashes(t) :: t[i] == t[1..][i - 1];
    }
  }

  method HeadingOf(line: string) returns (h: Heading)
    ensures h == HeadingIn(line)
  {
    var t := Trim(line);
    if !("#" <= t) {
      return NOT_A_HEADING;
    }
    var i := 0;
    while i < |t| && t[i] == '#'
      invariant 0 <= i <= |t|
      invariant Hashes(t) == i + Hashes(t[i..])
    {
      i := i + 1;
    }
    if i == 0 || i > 6 || i >= |t| || t[i] != ' ' {
      return NOT_A_HEADING;
    }
    return Heading(i, Trim(t[i..]));
  }

  /* ---- the heading stack ---- */

  function Blanks(n: nat): (r: seq<string>)
    ensures |r| == n && forall i | 0 <= i < n :: r[i] == ""
  {
    seq(n, _ => "")
  }

  /** The stack after a heading: cut back to its parents, padded where levels were skipped. */
  function Pushed(crumb: seq<string>, h: Heading): (r: seq<string>)
    requires h.level > 0
    ensures |r| == h.level
  {
    (if h.level - 1 < |crumb| then crumb[..h.level - 1] else crumb + Blanks(h.level - 1 - |crumb|)) + [h.text]
  }

  method Push(crumb: seq<string>, h: Heading) returns (r: seq<string>)
    requires h.level > 0
    ensures r == Pushed(crumb, h)
  {
    r := crumb;
    if h.level - 1 < |r| {
      r := r[..h.level - 1];
    }
    ghost var cut := r;
    while |r| < h.level - 1
      invariant |cut| <= |r| <= h.level - 1
      invariant r == cut + Blanks(|r| - |cut|)
    {
      r := r + [""];
    }
    r := r + [h.text];
  }

  function Stack(hs: seq<Heading>): seq<string>
    requires forall h | h in hs :: h.level > 0
  {
    if hs == [] then [] else Pushed(Stack(DropLast(hs)), Last(hs))
  }

  /** The most recent heading of level at most `l`, if there is one. */
  function Governing(hs: seq<Heading>, l: nat): Option<Heading> {
    if hs == [] then None
    else if Last(hs).level <= l then Some(Last(hs))
    else Governing(DropLast(hs), l)
  }

  /** Entry `l` of the stack (counting levels from 1) is the most recent heading of level at most
      `l` when that heading has level `l` exactly; a level that was skipped is empty. */
  lemma {:induction false} StackEntry(hs: seq<Heading>, l: nat)
    requires forall h | h in hs :: h.level > 0
    requires 1 <= l <= |Stack(hs)|
    ensures hs != [] && |Stack(hs)| == Last(hs).level
    ensures var g := Governing(hs, l);
      Stack(hs)[l - 1] == if g.Some? && g.value.level == l then g.value.text else ""
  {
    var before, h := DropLast(hs), Last(hs);
    if l < h.level {
      if l <= |Stack(before)| {
        StackEntry(before, l);
      } else {
        GoverningIsShallow(before, l);
      }
    }
  }

  /** Above the top of the stack nothing governs but a heading further up. */
  lemma {:induction false} GoverningIsShallow(hs: seq<Heading>, l: nat)
    requires forall h | h in hs :: h.level > 0
    requires l > |Stack(hs)|
    ensures Governing(hs, l) == if hs == [] then None else Some(Last(hs))
  {
  }

  method NonEmpty(xs: seq<string>) returns (out: seq<string>)
    ensures out == NonEmptyOf(xs)
  {
    out := [];
    for i := 0 to |xs|
      invariant out == NonEmptyOf(xs[..i])
    {
      NonEmptyAppend(xs[..i], xs[i]);
      assert xs[..i + 1] == xs[..i] + [xs[i]];
      if xs[i] != "" {
        out := out + [xs[i]];
      }
    }
    assert xs[..|xs|] == xs;
  }

  function Breadcrumb(crumb: seq<string>): string {
    Join(NonEmptyOf(crumb), CRUMB_SEP)
  }

  /** A section's own name: the last component of its breadcrumb. */
  function Leaf(crumb: string): string {
    Last(Split(crumb, CRUMB_SEP))
  }

  function SubHeading(crumb: string): string {
    "## " + Leaf(crumb)
  }

  /** A name that the breadcrumb's separator cannot be confused with. */
  predicate Separable(name: string) {
    && (forall i | 0 <= i <= |name| - 3 :: !(name[i] == ' ' && name[i + 1] == '>' && name[i + 2] == ' '))
    && (|name| >= 2 ==> !(name[|name| - 2] == ' ' && Last(name) == '>'))
  }

  lemma SeparableIsClear(name: string)
    requires Separable(name)
    ensures ClearOf(name, CRUMB_SEP)
  {
    var t := name + CRUMB_SEP;
    forall i | 0 <= i < |name| ensures !(CRUMB_SEP <= t[i..]) {
      assert t[i..][0] == t[i] && t[i..][1] == t[i + 1] && t[i..][2] == t[i + 2];
      assert t[|name|] == ' ' && t[|name| + 1] == '>';
    }
  }

  /** The breadcrumb is the non-empty entries of the stack, and can be read back. */
  lemma BreadcrumbSplits(crumb: seq<string>)
    requires forall name | name in crumb :: Separable(name)
    ensures NonEmptyOf(crumb) != [] ==> Split(Breadcrumb(crumb), " > ") == NonEmptyOf(crumb)
    ensures NonEmptyOf(crumb) == [] ==> Breadcrumb(crumb) == ""
  {
    var names := NonEmptyOf(crumb);
    NonEmptyAreIn(crumb);
    forall name | name in names ensures ClearOf(name, CRUMB_SEP) { SeparableIsClear(name); }
    hide ClearOf, Separable;
    if names != [] { SplitJoined(names, CRUMB_SEP); }
  }

  lemma {:induction false} NonEmptyAreIn(xs: seq<string>)
    ensures forall x | x in NonEmptyOf(xs) :: x in xs && x != ""
  {
    if xs != [] {
      NonEmptyAreIn(xs[1..]);
      assert forall x | x in xs[1..] :: x in xs;
    }
  }

  /** A merged section's own heading says the last of its names. */
  lemma SubHeadingSays(crumb: seq<string>)
    requires forall name | name in crumb :: Separable(name)
    ensures SubHeading(Breadcrumb(crumb)) == "## " + if NonEmptyOf(crumb) == [] then "" else Last(NonEmptyOf(crumb))
  {
    BreadcrumbSplits(crumb);
    hide Breadcrumb;
    if NonEmptyOf(crumb) == [] { assert Split("", CRUMB_SEP) == [""]; }
  }

  /* ---- what merged sections share ---- */

  function CommonPrefix(a: seq<string>, b: seq<string>): (r: seq<string>)
    ensures r <= a && r <= b
    ensures |r| < |a| && |r| < |b| ==> a[|r|] != b[|r|]
  {
    if a != [] && b != [] && a[0] == b[0] then [a[0]] + CommonPrefix(a[1..], b[1..]) else []
  }

  function Shared(a: string, b: string): string {
    var common := CommonPrefix(Split(a, CRUMB_SEP), Split(b, CRUMB_SEP));
    if common == [] then a else Join(common, CRUMB_SEP)
  }

  method SharedCrumb(a: string, b: string) returns (r: string)
    ensures r == Shared(a, b)
  {
    var shared := CommonComponents(Split(a, CRUMB_SEP), Split(b, CRUMB_SEP));
    return if shared == [] then a else Join(shared, CRUMB_SEP);
  }

  method CommonComponents(xs: seq<string>, ys: seq<string>) returns (shared: seq<string>)
    ensures shared == CommonPrefix(xs, ys)
  {
    shared := [];
    var i := 0;
    while i < |xs| && i < |ys|
      invariant 0 <= i <= |xs| && i <= |ys|
      invariant shared == xs[..i]
      invariant forall j | 0 <= j < i :: xs[j] == ys[j]
    {
      if xs[i] != ys[i] {
        break;
      }
      shared := shared + [xs[i]];
      i := i + 1;
    }
    CommonIs(xs, ys, i);
  }

  /** The common prefix ends at the first difference. */
  lemma CommonIs(xs: seq<string>, ys: seq<string>, n: nat)
    requires n <= |xs| && n <= |ys| && forall j | 0 <= j < n :: xs[j] == ys[j]
    requires n == |xs| || n == |ys| || xs[n] != ys[n]
    ensures CommonPrefix(xs, ys) == xs[..n]
  {
    var r := CommonPrefix(xs, ys);
    if n < |r| {
      assert false;
    }
  }

  /** The heading of a run of merged sections, folded in the order they were merged. */
  function SharedAll(crumbs: seq<string>): string
    requires crumbs != []
  {
    if |crumbs| == 1 then crumbs[0] else Shared(SharedAll(DropLast(crumbs)), Last(crumbs))
  }

  /** What every one of the breadcrumbs starts with, component by component. */
  function CommonOfAll(crumbs: seq<string>): (r: seq<string>)
    requires crumbs != []
  {
    if |crumbs| == 1 then Split(crumbs[0], CRUMB_SEP)
    else CommonPrefix(CommonOfAll(DropLast(crumbs)), Split(Last(crumbs), CRUMB_SEP))
  }

  /** It is the longest: any component list all of them start with is a prefix of it. */
  lemma {:induction false} CommonOfAllIsLongest(crumbs: seq<string>, p: seq<string>)
    requires crumbs != []
    ensures p <= CommonOfAll(crumbs) <==> forall i | 0 <= i < |crumbs| :: p <= Split(crumbs[i], CRUMB_SEP)
  {
    hide Split, CommonPrefix;
    if |crumbs| > 1 {
      var before := DropLast(crumbs);
      CommonOfAllIsLongest(before, p);
      PrefixOfBoth(CommonOfAll(before), Split(Last(crumbs), CRUMB_SEP), p);
      assert CommonOfAll(crumbs) == CommonPrefix(CommonOfAll(before), Split(Last(crumbs), CRUMB_SEP));
      hide CommonOfAll;
      AllStartWith(crumbs, p);
    }
  }

  lemma AllStartWith(crumbs: seq<string>, p: seq<string>)
    requires crumbs != []
    ensures (forall i | 0 <= i < |crumbs| :: p <= Split(crumbs[i], CRUMB_SEP))
       <==> (forall i | 0 <= i < |crumbs| - 1 :: p <= Split(DropLast(crumbs)[i], CRUMB_SEP)) && p <= Split(Last(crumbs), CRUMB_SEP)
  {
    hide Split;
    assert forall i | 0 <= i < |crumbs| - 1 :: DropLast(crumbs)[i] == crumbs[i];
  }

  lemma {:induction false} PrefixOfBoth(a: seq<string>, b: seq<string>, p: seq<string>)
    ensures p <= CommonPrefix(a, b) <==> p <= a && p <= b
  {
    var r := CommonPrefix(a, b);
    if |r| < |p| {
      assert p <= a ==> a[|r|] == p[|r|];
      assert p <= b ==> b[|r|] == p[|r|];
    }
  }

  /** A merged chunk is named by a component prefix of its first section's breadcrumb, and by the
      longest one all of its sections share as soon as they share any. */
  lemma {:induction false} MergedHeading(crumbs: seq<string>)
    requires crumbs != []
    ensures Split(SharedAll(crumbs), CRUMB_SEP) <= Split(crumbs[0], CRUMB_SEP)
    ensures CommonOfAll(crumbs) != [] ==> Split(SharedAll(crumbs), CRUMB_SEP) == CommonOfAll(crumbs)
  {
    if |crumbs| > 1 {
      var before := DropLast(crumbs);
      MergedHeading(before);
      SharedSplits(SharedAll(before), Last(crumbs));
    }
  }

  lemma SharedSplits(a: string, b: string)
    ensures var common := CommonPrefix(Split(a, CRUMB_SEP), Split(b, CRUMB_SEP));
      Split(Shared(a, b), CRUMB_SEP) == if common == [] then Split(a, CRUMB_SEP) else common
  {
    var common := CommonPrefix(Split(a, CRUMB_SEP), Split(b, CRUMB_SEP));
    if common != [] {
      SplitJoinPrefix(a, CRUMB_SEP, |common|);
      assert common == Split(a, CRUMB_SEP)[..|common|];
    }
  }
}
