/** The tree of documents (web/ui/src/composables/nestree.js): flat paths become nested folders, and
    a folder says how many documents are under it. */
module Nestree {
  import opened Text
  import opened ScopeFilter

  datatype Doc = Doc(path: string, chunks: nat)

  type Path = seq<string>

  /** One level of the tree: its first node, what is inside that, and the nodes after it. */
  datatype Forest = Empty | Node(name: string, value: string, chunks: Option<nat>, kids: Forest, next: Forest)

  function Segs(path: string): Path { NonEmptyOf(Split(path, "/")) }

  /** A document at `segs`, under the folder `above`. */
  function Insert(f: Forest, above: Path, segs: Path, chunks: nat): Forest
    requires segs != []
    decreases segs, f
  {
    var here := above + [segs[0]];
    match f
    case Empty =>
      if |segs| == 1 then Node(segs[0], Join(here, "/"), Some(chunks), Empty, Empty)
      else Node(segs[0], Join(here, "/"), None, Insert(Empty, here, segs[1..], chunks), Empty)
    case Node(name, _, _, kids, next) =>
      if name != segs[0] then f.(next := Insert(next, above, segs, chunks))
      else if |segs| == 1 then f.(chunks := Some(chunks))
      else f.(kids := Insert(kids, here, segs[1..], chunks))
  }

  function Added(f: Forest, d: Doc): Forest {
    if Segs(d.path) == [] then f else Insert(f, [], Segs(d.path), d.chunks)
  }

  function Built(docs: seq<Doc>): Forest {
    if docs == [] then Empty else Added(Built(DropLast(docs)), Last(docs))
  }

  method TreeOf(docs: seq<Doc>) returns (root: Forest)
    ensures root == Built(docs)
  {
    root := Empty;
    var i := 0;
    while i < |docs|
      invariant i <= |docs| && root == Built(docs[..i])
    {
      var segs := Segs(docs[i].path);
      assert DropLast(docs[..i + 1]) == docs[..i];
      if segs != [] {
        root := Insert(root, [], segs, docs[i].chunks);
      }
      i := i + 1;
    }
    assert docs[..i] == docs;
  }

  /** The number on a folder: its documents, and those of the folders in it. */
  function Under(f: Forest): nat {
    match f
    case Empty => 0
    case Node(_, _, _, kids, next) => (if kids.Empty? then 1 else Under(kids)) + Under(next)
  }

  /** What is inside the folder at `d`. */
  function Inside(f: Forest, d: Path): Forest {
    if d == [] then f
    else match f
      case Empty => Empty
      case Node(name, _, _, kids, next) => if name == d[0] then Inside(kids, d[1..]) else Inside(next, d)
  }

  /* ---- what the tree holds ---- */

  predicate Holds(f: Forest, p: Path) {
    p != [] && f.Node? && if f.name == p[0] then |p| == 1 || Holds(f.kids, p[1..]) else Holds(f.next, p)
  }

  predicate IsLeaf(f: Forest, p: Path) { Holds(f, p) && Inside(f, p).Empty? }

  predicate HasName(f: Forest, name: string) { f.Node? && (f.name == name || HasName(f.next, name)) }

  /** No two nodes side by side have the same name. */
  predicate Distinct(f: Forest) {
    f.Node? ==> !HasName(f.next, f.name) && Distinct(f.kids) && Distinct(f.next)
  }

  function Leaves(f: Forest): set<Path> {
    match f
    case Empty => {}
    case Node(name, _, _, kids, next) =>
      (if kids.Empty? then {[name]} else Prefixed(Leaves(kids), name)) + Leaves(next)
  }

  function Prefixed(s: set<Path>, name: string): (r: set<Path>)
    ensures forall p :: p in r <==> p != [] && p[0] == name && p[1..] in s
  {
    var r := set p | p in s :: [name] + p;
    assert forall p | p in r :: p[1..] in s;
    assert forall p: Path | p != [] && p[0] == name && p[1..] in s :: p == [name] + p[1..];
    r
  }

  lemma {:induction false} NameOfHeld(f: Forest, p: Path)
    requires Holds(f, p)
    ensures HasName(f, p[0])
  {
    if f.name != p[0] { NameOfHeld(f.next, p); }
  }

  lemma {:induction false} LeavesAreLeaves(f: Forest, p: Path)
    requires Distinct(f)
    ensures p in Leaves(f) <==> IsLeaf(f, p)
  {
    if f.Node? {
      LeavesAreLeaves(f.next, p);
      if p != [] {
        LeavesAreLeaves(f.kids, p[1..]);
        assert p == [p[0]] + p[1..];
        if Holds(f.next, p) { NameOfHeld(f.next, p); }
        if f.name == p[0] {
          assert Inside(f, p) == Inside(f.kids, p[1..]);
          if |p| == 1 { assert p[1..] == [] && Inside(f.kids, []) == f.kids; }
          assert IsLeaf(f, p) <==> if |p| == 1 then f.kids.Empty? else IsLeaf(f.kids, p[1..]);
          assert p in Leaves(f) <==> if f.kids.Empty? then p == [f.name] else p[1..] in Leaves(f.kids);
        } else {
          assert IsLeaf(f, p) <==> IsLeaf(f.next, p);
          assert p in Leaves(f) <==> p in Leaves(f.next);
        }
      }
    }
  }

  lemma {:induction false} UnderCountsLeaves(f: Forest)
    requires Distinct(f)
    ensures Under(f) == |Leaves(f)|
  {
    if f.Node? {
      UnderCountsLeaves(f.next);
      UnderCountsLeaves(f.kids);
      var own := if f.kids.Empty? then {[f.name]} else Prefixed(Leaves(f.kids), f.name);
      if !f.kids.Empty? { PrefixedSize(Leaves(f.kids), f.name); }
      forall p | p in own ensures p !in Leaves(f.next) {
        if p in Leaves(f.next) {
          LeavesAreLeaves(f.next, p);
          NameOfHeld(f.next, p);
          assert false;
        }
      }
      assert own * Leaves(f.next) == {};
    }
  }

  lemma {:induction false} PrefixedSize(s: set<Path>, name: string)
    ensures |Prefixed(s, name)| == |s|
  {
    if s != {} {
      var x :| x in s;
      PrefixedSize(s - {x}, name);
      hide Prefixed;
      assert ([name] + x)[1..] == x;
      forall p ensures p in Prefixed(s, name) <==> p in Prefixed(s - {x}, name) || p == [name] + x {
        if p != [] { assert p == [p[0]] + p[1..]; }
      }
      assert Prefixed(s, name) == Prefixed(s - {x}, name) + {[name] + x};
    } else {
      assert Prefixed(s, name) == {};
    }
  }

  /* ---- building ---- */

  predicate Starts(d: Path, p: Path) { d != [] && d <= p }

  lemma {:induction false} InsertHolds(f: Forest, above: Path, segs: Path, chunks: nat, p: Path)
    requires segs != []
    ensures Holds(Insert(f, above, segs, chunks), p) <==> Holds(f, p) || Starts(p, segs)
    decreases segs, f
  {
    var here := above + [segs[0]];
    if p != [] {
      assert Starts(p, segs) <==> p[0] == segs[0] && (|p| == 1 || (|segs| > 1 && Starts(p[1..], segs[1..]))) by { StartsCons(p, segs); }
      match f {
        case Empty =>
          if |segs| > 1 { InsertHolds(Empty, here, segs[1..], chunks, p[1..]); }
        case Node(name, _, _, kids, next) =>
          if name != segs[0] { InsertHolds(next, above, segs, chunks, p); }
          else if |segs| > 1 { InsertHolds(kids, here, segs[1..], chunks, p[1..]); }
      }
    }
  }

  lemma StartsCons(p: Path, segs: Path)
    requires p != [] && segs != []
    ensures Starts(p, segs) <==> p[0] == segs[0] && (|p| == 1 || (|segs| > 1 && Starts(p[1..], segs[1..])))
  {
    if p[0] == segs[0] && |p| > 1 && |segs| > 1 && Starts(p[1..], segs[1..]) {
      assert p == [p[0]] + p[1..] && segs == [segs[0]] + segs[1..];
    }
  }

  lemma {:induction false} InsertDistinct(f: Forest, above: Path, segs: Path, chunks: nat)
    requires segs != [] && Distinct(f)
    ensures Distinct(Insert(f, above, segs, chunks))
    ensures forall l :: HasName(Insert(f, above, segs, chunks), l) <==> HasName(f, l) || l == segs[0]
    decreases segs, f
  {
    var here := above + [segs[0]];
    match f {
      case Empty =>
        if |segs| > 1 { InsertDistinct(Empty, here, segs[1..], chunks); }
      case Node(name, _, _, kids, next) =>
        if name != segs[0] { InsertDistinct(next, above, segs, chunks); }
        else if |segs| > 1 { InsertDistinct(kids, here, segs[1..], chunks); }
    }
  }

  /** A node's value is its own path. */
  predicate Named(f: Forest, above: Path) {
    f.Node? ==> f.value == Join(above + [f.name], "/") && Named(f.kids, above + [f.name]) && Named(f.next, above)
  }

  lemma {:induction false} InsertNamed(f: Forest, above: Path, segs: Path, chunks: nat)
    requires segs != [] && Named(f, above)
    ensures Named(Insert(f, above, segs, chunks), above)
    decreases segs, f
  {
    var here := above + [segs[0]];
    match f {
      case Empty =>
        if |segs| > 1 { InsertNamed(Empty, here, segs[1..], chunks); }
      case Node(name, _, _, kids, next) =>
        if name != segs[0] { InsertNamed(next, above, segs, chunks); }
        else if |segs| > 1 { InsertNamed(kids, here, segs[1..], chunks); }
    }
  }

  /** How many sections the node at `p` says it has. */
  function ChunksAt(f: Forest, p: Path): Option<nat> {
    if p == [] || f.Empty? then None
    else if f.name != p[0] then ChunksAt(f.next, p)
    else if |p| == 1 then f.chunks
    else ChunksAt(f.kids, p[1..])
  }

  lemma {:induction false} InsertChunks(f: Forest, above: Path, segs: Path, chunks: nat, p: Path)
    requires segs != []
    ensures ChunksAt(Insert(f, above, segs, chunks), p) == if p == segs then Some(chunks) else ChunksAt(f, p)
    decreases segs, f
  {
    var here := above + [segs[0]];
    if p != [] {
      assert p == [p[0]] + p[1..] && segs == [segs[0]] + segs[1..];
      match f {
        case Empty =>
          if |segs| > 1 { InsertChunks(Empty, here, segs[1..], chunks, p[1..]); }
        case Node(name, _, _, kids, next) =>
          if name != segs[0] { InsertChunks(next, above, segs, chunks, p); }
          else if |segs| > 1 { InsertChunks(kids, here, segs[1..], chunks, p[1..]); }
      }
    }
  }

  predicate IsLastAt(docs: seq<Doc>, i: nat, p: Path) {
    i < |docs| && Segs(docs[i].path) == p && forall j | i < j < |docs| :: Segs(docs[j].path) != p
  }

  /** A leaf says what the last document with its path said; a folder that is none says nothing. */
  lemma {:induction false} BuiltChunks(docs: seq<Doc>, p: Path)
    requires p != []
    ensures (forall i | 0 <= i < |docs| :: Segs(docs[i].path) != p) ==> ChunksAt(Built(docs), p) == None
    ensures forall i | 0 <= i < |docs| && IsLastAt(docs, i, p) :: ChunksAt(Built(docs), p) == Some(docs[i].chunks)
  {
    hide Segs, Built, ChunksAt, IsLastAt;
    if docs == [] {
      NothingBuilt(p);
    } else {
      var rest := DropLast(docs);
      BuiltChunks(rest, p);
      BuiltStep(docs, p);
      assert forall i | 0 <= i < |rest| :: rest[i] == docs[i];
      forall i | 0 <= i < |docs| && IsLastAt(docs, i, p) ensures ChunksAt(Built(docs), p) == Some(docs[i].chunks) {
        LastAtBefore(docs, i, p);
      }
    }
  }

  lemma LastAtBefore(docs: seq<Doc>, i: nat, p: Path)
    requires IsLastAt(docs, i, p)
    ensures i < |docs| && if i == |docs| - 1 then Segs(Last(docs).path) == p
                          else IsLastAt(DropLast(docs), i, p) && Segs(Last(docs).path) != p
  {
    hide Segs;
    assert i < |docs| - 1 ==> Segs(docs[|docs| - 1].path) != p;
  }

  lemma NothingBuilt(p: Path)
    ensures ChunksAt(Built([]), p) == None
  {
  }

  lemma BuiltStep(docs: seq<Doc>, p: Path)
    requires docs != [] && p != []
    ensures ChunksAt(Built(docs), p) ==
      if Segs(Last(docs).path) == p then Some(Last(docs).chunks) else ChunksAt(Built(DropLast(docs)), p)
  {
    hide Segs, ChunksAt, Insert;
    var segs := Segs(Last(docs).path);
    if segs != [] { InsertChunks(Built(DropLast(docs)), [], segs, Last(docs).chunks, p); }
  }

  /** The documents' paths. */
  function Paths(docs: seq<Doc>): set<Path> {
    if docs == [] then {} else Paths(DropLast(docs)) + if Segs(Last(docs).path) == [] then {} else {Segs(Last(docs).path)}
  }

  ghost predicate IsFolder(paths: set<Path>, p: Path) { exists q :: q in paths && p < q }

  /** The tree holds the documents' paths and the folders on the way to them, and nothing else. */
  lemma {:induction false} BuiltHolds(docs: seq<Doc>, p: Path)
    ensures Distinct(Built(docs)) && Named(Built(docs), [])
    ensures Holds(Built(docs), p) <==> exists q :: q in Paths(docs) && Starts(p, q)
  {
    if docs != [] {
      var rest, segs := DropLast(docs), Segs(Last(docs).path);
      BuiltHolds(rest, p);
      if segs != [] {
        InsertDistinct(Built(rest), [], segs, Last(docs).chunks);
        InsertNamed(Built(rest), [], segs, Last(docs).chunks);
        InsertHolds(Built(rest), [], segs, Last(docs).chunks, p);
        assert segs in Paths(docs);
      }
    }
  }

  lemma {:induction false} InsideHolds(f: Forest, d: Path, p: Path)
    requires p != []
    ensures Holds(Inside(f, d), p) <==> Holds(f, d + p)
    ensures Distinct(f) ==> Distinct(Inside(f, d))
    decreases |d|, f
  {
    if d == [] {
      assert d + p == p;
    } else if f.Node? {
      assert (d + p)[1..] == d[1..] + p;
      if f.name == d[0] { InsideHolds(f.kids, d[1..], p); } else { InsideHolds(f.next, d, p); }
    }
  }

  lemma {:induction false} InsideInside(f: Forest, d: Path, p: Path)
    ensures Inside(Inside(f, d), p) == Inside(f, d + p)
    decreases |d|, f
  {
    if d == [] {
      assert d + p == p;
    } else if f.Node? {
      assert (d + p)[1..] == d[1..] + p;
      if f.name == d[0] { InsideInside(f.kids, d[1..], p); } else { InsideInside(f.next, d, p); }
    } else {
      EmptyInside(p);
    }
  }

  lemma EmptyInside(p: Path)
    ensures Inside(Empty, p) == Empty
  {
  }

  /* ---- what the number on a folder is ---- */

  function FolderCount(docs: seq<Doc>, d: Path): nat { Under(Inside(Built(docs), d)) }

  /** A document is a leaf of the folder exactly when it is under it and no folder itself. */
  lemma LeafIff(docs: seq<Doc>, d: Path, p: Path)
    ensures p in Leaves(Inside(Built(docs), d)) <==> p != [] && d + p in Paths(docs) && !IsFolder(Paths(docs), d + p)
  {
    var f, inside := Built(docs), Inside(Built(docs), d);
    BuiltHolds(docs, d + p);
    InsideHolds(f, d, [""]);
    LeavesAreLeaves(inside, p);
    if p != [] {
      InsideHolds(f, d, p);
      InsideInside(f, d, p);
      EmptyIff(docs, d + p);
      if Holds(f, d + p) && Inside(f, d + p).Empty? {
        var q :| q in Paths(docs) && Starts(d + p, q);
        assert d + p == q || d + p < q;
      }
      if d + p in Paths(docs) { assert Starts(d + p, d + p); }
    }
  }

  lemma EmptyIff(docs: seq<Doc>, p: Path)
    requires p != []
    ensures Inside(Built(docs), p).Empty? <==> !IsFolder(Paths(docs), p)
  {
    var f := Built(docs);
    if IsFolder(Paths(docs), p) {
      var q :| q in Paths(docs) && p < q;
      BuiltHolds(docs, q);
      assert Starts(q, q) && q == p + q[|p|..];
      InsideHolds(f, p, q[|p|..]);
    }
    if Inside(f, p).Node? {
      var r := [Inside(f, p).name];
      assert Holds(Inside(f, p), r);
      InsideHolds(f, p, r);
      BuiltHolds(docs, p + r);
      var q :| q in Paths(docs) && Starts(p + r, q);
      assert p < q;
    }
  }

  ghost function Reached(docs: seq<Doc>, d: Path): set<Path> { set p | p in Paths(docs) && d < p }

  ghost function Counted(docs: seq<Doc>, d: Path): set<Path> {
    set p | p in Reached(docs, d) && !IsFolder(Paths(docs), p)
  }

  /** The number on a folder is that of the documents under it that are not folders themselves. */
  lemma CountIs(docs: seq<Doc>, d: Path)
    ensures FolderCount(docs, d) == |Counted(docs, d)|
  {
    BuiltHolds(docs, []);
    InsideHolds(Built(docs), d, [""]);
    UnderCountsLeaves(Inside(Built(docs), d));
    forall p ensures d + p in Counted(docs, d) <==> p in Leaves(Inside(Built(docs), d)) {
      LeafIff(docs, d, p);
    }
    hide Leaves, Counted, Under;
    SameSize(Leaves(Inside(Built(docs), d)), Counted(docs, d), d) by { AllStart(docs, d); }
  }

  lemma AllStart(docs: seq<Doc>, d: Path)
    ensures forall q | q in Counted(docs, d) :: d <= q
  {
  }

  lemma {:induction false} SameSize(a: set<Path>, b: set<Path>, d: Path)
    requires (forall p :: d + p in b <==> p in a) && forall q | q in b :: d <= q
    ensures |a| == |b|
  {
    assert forall q | q in b :: q == d + q[|d|..];
    if a == {} {
      assert b == {};
    } else {
      var x :| x in a;
      forall p ensures d + p in b - {d + x} <==> p in a - {x} {
        assert (d + p)[|d|..] == p && (d + x)[|d|..] == x;
      }
      SameSize(a - {x}, b - {d + x}, d);
    }
  }

  /** So a folder's number is how many documents choosing it would reach exactly when no document
      under it has the path of a folder. */
  lemma CountIsReachIff(docs: seq<Doc>, d: Path)
    ensures FolderCount(docs, d) == |Reached(docs, d)| <==> forall p | p in Reached(docs, d) :: !IsFolder(Paths(docs), p)
  {
    CountIs(docs, d);
    var all, some := Reached(docs, d), Counted(docs, d);
    hide FolderCount, Reached, IsFolder;
    if p :| p in all && p !in some {
      assert some <= all - {p};
      SubsetSize(some, all - {p});
    } else {
      assert some == all;
    }
  }

  /** Choosing a folder reaches what is under it: the text before the last slash decides. */
  lemma {:induction false} UnderIffPrefix(d: Path, p: Path)
    requires d != [] && p != [] && (forall s | s in d + p :: '/' !in s && s != "")
    ensures d < p <==> Join(d, "/") + "/" <= Join(p, "/")
  {
    var rest := if |d| > 1 then Join(d[1..], "/") + "/" else "";
    assert Join(d, "/") + "/" == d[0] + "/" + rest;
    assert d == [d[0]] + d[1..] && p == [p[0]] + p[1..];
    assert d[0] in d + p && p[0] in d + p;
    if |p| == 1 {
      assert (d[0] + "/" + rest)[|d[0]|] == '/' && forall i | 0 <= i < |p[0]| :: p[0][i] != '/';
    } else {
      SameFirst(d[0], rest, p[0], Join(p[1..], "/"));
      if |d| > 1 && d[0] == p[0] {
        assert forall s | s in d[1..] + p[1..] :: s in d + p;
        UnderIffPrefix(d[1..], p[1..]);
      }
    }
  }

  lemma SameFirst(a: string, x: string, b: string, y: string)
    requires '/' !in a && '/' !in b
    ensures a + "/" + x <= b + "/" + y <==> a == b && x <= y
  {
    var s, t := a + "/" + x, b + "/" + y;
    if s <= t {
      assert s[|a|] == t[|a|] == '/';
      assert forall i | 0 <= i < |a| :: s[i] == a[i] == t[i];
      assert t[|b|] == '/' && (|b| < |s| ==> s[|b|] == '/');
      assert a == b;
      assert x == s[|a| + 1..] && y == t[|b| + 1..];
    }
  }

  /** It is not when "f/a.md" is a document and a folder. */
  lemma DocumentAsFolder()
    ensures var docs := [Doc("f/a.md", 1), Doc("f/a.md/b.md", 1)];
      FolderCount(docs, ["f"]) != |Reached(docs, ["f"])|
  {
    var docs := [Doc("f/a.md", 1), Doc("f/a.md/b.md", 1)];
    PathsOfTwo();
    assert ["f"] < ["f", "a.md"] && ["f", "a.md"] < ["f", "a.md", "b.md"];
    assert IsFolder(Paths(docs), ["f", "a.md"]);
    CountIsReachIff(docs, ["f"]);
  }

  lemma PathsOfTwo()
    ensures Paths([Doc("f/a.md", 1), Doc("f/a.md/b.md", 1)]) == {["f", "a.md"], ["f", "a.md", "b.md"]}
  {
    ShortSegs();
    hide Segs;
    PathsAppend([Doc("f/a.md", 1)], Doc("f/a.md/b.md", 1));
    PathsAppend([], Doc("f/a.md", 1));
    assert [] + [Doc("f/a.md", 1)] == [Doc("f/a.md", 1)];
    assert [Doc("f/a.md", 1)] + [Doc("f/a.md/b.md", 1)] == [Doc("f/a.md", 1), Doc("f/a.md/b.md", 1)];
  }

  lemma PathsAppend(docs: seq<Doc>, d: Doc)
    ensures Paths(docs + [d]) == Paths(docs) + if Segs(d.path) == [] then {} else {Segs(d.path)}
    ensures Paths([]) == {}
  {
    hide Segs;
    assert DropLast(docs + [d]) == docs;
  }

  lemma ShortSegs()
    ensures Segs("f/a.md") == ["f", "a.md"] && Segs("f/a.md/b.md") == ["f", "a.md", "b.md"]
  {
    hide Segs;
    SegsOf(["f", "a.md"]);
    SegsOf(["f", "a.md", "b.md"]);
    assert ["f", "a.md"][1..] == ["a.md"] && ["f", "a.md", "b.md"][1..] == ["a.md", "b.md"] && ["a.md", "b.md"][1..] == ["b.md"];
    assert Join(["a.md"], "/") == "a.md" && Join(["b.md"], "/") == "b.md";
    assert Join(["f", "a.md"], "/") == "f/a.md" && Join(["a.md", "b.md"], "/") == "a.md/b.md";
    assert Join(["f", "a.md", "b.md"], "/") == "f/a.md/b.md";
  }

  predicate ArePlain(segs: Path) { segs != [] && forall s | s in segs :: '/' !in s && s != "" }

  lemma SegsOf(segs: Path)
    requires ArePlain(segs)
    ensures Segs(Join(segs, "/")) == segs
  {
    assert "/" == ['/'];
    SplitJoin(segs, '/');
    AllNonEmpty(segs);
  }

  lemma {:induction false} AllNonEmpty(segs: Path)
    requires forall s | s in segs :: s != ""
    ensures NonEmptyOf(segs) == segs
  {
    if segs != [] {
      assert segs[0] in segs && forall s | s in segs[1..] :: s in segs;
      AllNonEmpty(segs[1..]);
      assert segs == [segs[0]] + segs[1..];
    }
  }

  /* ---- the number and the scope ---- */

  /** The documents' paths are as they are stored: segments joined by single slashes. */
  ghost predicate Stored(docs: seq<Doc>) {
    forall i | 0 <= i < |docs| :: ArePlain(Segs(docs[i].path)) && Join(Segs(docs[i].path), "/") == docs[i].path
  }

  ghost function Texts(paths: set<Path>): set<string> { set p | p in paths :: Join(p, "/") }

  /** What choosing the folder reaches, besides a document of its own name. */
  ghost function ScopeReach(docs: seq<Doc>, d: Path): set<string> {
    set p | p in Texts(Paths(docs)) && p != Join(d, "/") && InScope(Join(d, "/"), p)
  }

  ghost predicate OneSpelling(docs: seq<Doc>, d: Path) {
    forall p | p in ScopeReach(docs, d) :: Join(d, "/") + "/" <= p
  }

  lemma {:induction false} PathsArePlain(docs: seq<Doc>)
    requires Stored(docs)
    ensures forall p | p in Paths(docs) :: ArePlain(p)
  {
    if docs != [] {
      assert forall i | 0 <= i < |docs| - 1 :: DropLast(docs)[i] == docs[i];
      PathsArePlain(DropLast(docs));
    }
  }

  /** What is under the folder is what is reached below the folder's own spelling. */
  lemma UnderIsReached(docs: seq<Doc>, d: Path)
    requires Stored(docs) && ArePlain(d)
    ensures Texts(Reached(docs, d)) <= ScopeReach(docs, d) && |Texts(Reached(docs, d))| == |Reached(docs, d)|
    ensures OneSpelling(docs, d) <==> Texts(Reached(docs, d)) == ScopeReach(docs, d)
  {
    var scope := Join(d, "/");
    PathsArePlain(docs);
    JoinIsSomething(d);
    hide Stored, InScope, Join, ArePlain;
    forall p | p in Paths(docs) ensures (d < p <==> scope + "/" <= Join(p, "/")) && (d < p ==> Join(p, "/") in ScopeReach(docs, d)) {
      UnderHere(d, p);
      assert Join(p, "/") in Texts(Paths(docs));
    }
    TextsSize(Reached(docs, d));
    if OneSpelling(docs, d) {
      forall t | t in ScopeReach(docs, d) ensures t in Texts(Reached(docs, d)) {
        var p :| p in Paths(docs) && t == Join(p, "/");
      }
    }
  }

  lemma JoinIsSomething(d: Path)
    requires ArePlain(d)
    ensures Join(d, "/") != ""
  {
    assert d[0] in d;
  }

  lemma UnderHere(d: Path, p: Path)
    requires ArePlain(d) && ArePlain(p)
    ensures d < p <==> Join(d, "/") + "/" <= Join(p, "/")
    ensures d < p ==> Join(p, "/") != Join(d, "/") && InScope(Join(d, "/"), Join(p, "/"))
  {
    var scope, t := Join(d, "/"), Join(p, "/");
    UnderIffPrefix(d, p);
    JoinIsSomething(d);
    ScopeReachesItsSubtree(scope, t);
    hide InScope, Join;
    if d < p { assert t[..|scope + "/"|] == scope + "/"; }
  }

  lemma {:induction false} TextsSize(paths: set<Path>)
    requires forall p | p in paths :: ArePlain(p)
    ensures |Texts(paths)| == |paths|
  {
    if paths != {} {
      var x :| x in paths;
      TextsSize(paths - {x});
      if Join(x, "/") in Texts(paths - {x}) {
        var y :| y in paths - {x} && Join(y, "/") == Join(x, "/");
        SegsOf(x);
        SegsOf(y);
        assert false;
      }
      hide Join;
      assert Texts(paths) == Texts(paths - {x}) + {Join(x, "/")};
    }
  }

  /** A folder's number is the number of documents that choosing it reaches below it exactly when none
      of them has the path of a folder, and none is under another spelling of the folder. */
  lemma CountIsScopeIff(docs: seq<Doc>, d: Path)
    requires Stored(docs) && ArePlain(d)
    ensures FolderCount(docs, d) == |ScopeReach(docs, d)|
       <==> (forall p | p in Reached(docs, d) :: !IsFolder(Paths(docs), p)) && OneSpelling(docs, d)
  {
    UnderIsReached(docs, d);
    CountIsReachIff(docs, d);
    CountIs(docs, d);
    var reach, texts := ScopeReach(docs, d), Texts(Reached(docs, d));
    assert Counted(docs, d) <= Reached(docs, d);
    SubsetSize(Counted(docs, d), Reached(docs, d));
    SubsetSize(texts, reach);
    hide FolderCount, Reached, ScopeReach, IsFolder, OneSpelling, Texts;
    if texts != reach {
      var x :| x in reach && x !in texts;
      SubsetSize(texts, reach - {x});
    }
  }
}
