/** Document paths: which ones an import accepts (internal/rag/upload.go), what a confirmed answer
    is called (internal/rag/qa.go), and the canonical form of a scope (internal/rag/rag.go). */
module Paths {
  import opened Text

  const MAX_DEPTH: nat := 4
  const QA_DIR: string := "qa"

  function LowerChar(c: char): char {
    if 'A' <= c <= 'Z' then (c as int + 32) as char else c
  }

  function Lower(s: string): (r: string)
    ensures |r| == |s| && forall i | 0 <= i < |s| :: r[i] == LowerChar(s[i])
  {
    seq(|s|, i requires 0 <= i < |s| => LowerChar(s[i]))
  }

  predicate EqualFold(a: string, b: string) { Lower(a) == Lower(b) }

  function Slashed(s: string): (r: string)
    ensures |r| == |s| && forall i | 0 <= i < |s| :: r[i] == if s[i] == '\\' then '/' else s[i]
  {
    seq(|s|, i requires 0 <= i < |s| => if s[i] == '\\' then '/' else s[i])
  }

  /** From the last '.' of the last path element, as Go's Ext. */
  function Ext(name: string): string {
    if name == "" || Last(name) == '/' then ""
    else if Last(name) == '.' then "."
    else
      var e := Ext(DropLast(name));
      if e == "" then "" else e + [Last(name)]
  }

  predicate IsText(name: string) {
    Lower(Ext(name)) in {".md", ".markdown", ".txt"}
  }

  function ColonAt(s: string): (i: int)
    ensures i == -1 || (0 <= i < |s| && s[i] == ':' && ':' !in s[..i])
    ensures i == -1 ==> ':' !in s
  {
    if s == "" then -1
    else if s[0] == ':' then 0
    else
      var i := ColonAt(s[1..]);
      assert i >= 0 ==> s[..i + 1] == [s[0]] + s[1..][..i];
      if i < 0 then -1 else i + 1
  }

  predicate IsControl(c: char) { c < ' ' || c == '\U{7F}' }

  /* ---- segments ---- */

  predicate Refused(seg: string) {
    seg == "." || seg == ".." || (seg != "" && seg[0] == '.') || exists c | c in seg :: IsControl(c)
  }

  /** The non-empty trimmed parts of the path, or None if one of them may not be there. */
  function SegmentsOf(parts: seq<string>): Option<seq<string>> {
    if parts == [] then Some([])
    else
      var seg := Trim(parts[0]);
      if seg == "" then SegmentsOf(parts[1..])
      else if Refused(seg) then None
      else
        var rest := SegmentsOf(parts[1..]);
        if rest.None? then None else Some([seg] + rest.value)
  }

  method Segments(clean: string) returns (r: Option<seq<string>>)
    ensures r == SegmentsOf(Split(clean, "/"))
  {
    var segs: seq<string> := [];
    var parts := Split(clean, "/");
    assert forall xs: seq<string> :: [] + xs == xs;
    for i := 0 to |parts|
      invariant SegmentsOf(parts) ==
        var rest := SegmentsOf(parts[i..]); if rest.None? then None else Some(segs + rest.value)
    {
      var s := Trim(parts[i]);
      if s == "" {
        continue;
      }
      if s == "." || s == ".." {
        return None;
      }
      if s[0] == '.' {
        return None;
      }
      for j := 0 to |s|
        invariant forall k | 0 <= k < j :: !IsControl(s[k])
      {
        if IsControl(s[j]) {
          assert s[j] in s;
          return None;
        }
      }
      ghost var rest := SegmentsOf(parts[i + 1..]);
      if rest.Some? { Assoc(segs, [s], rest.value); }
      segs := segs + [s];
    }
    assert segs + [] == segs;
    return Some(segs);
  }

  /* ---- accepted paths ---- */

  function CutDrive(s: string): string {
    if 0 <= ColonAt(s) <= 2 then s[ColonAt(s) + 1..] else s
  }

  /* ---- path.Clean ---- */

  function CleanSegs(parts: seq<string>, rooted: bool, out: seq<string>): seq<string>
    decreases |parts|
  {
    if parts == [] then out
    else
      CleanSegs(parts[1..], rooted,
                if parts[0] == "" || parts[0] == "." then out
                else if parts[0] != ".." then out + [parts[0]]
                else if out != [] && Last(out) != ".." then DropLast(out)
                else if rooted then out
                else out + [".."])
  }

  function Clean(p: string): string {
    var rooted := "/" <= p;
    var body := Join(CleanSegs(Split(p, "/"), rooted, []), "/");
    if rooted then "/" + body else if body == "" then "." else body
  }

  /** The identity of a document, or None where the path is refused. The last test is the source's
      second check on the finished path. */
  function SafePath(name: string, allowQA: bool): Option<string> {
    var segs := SegmentsOf(Split(CutDrive(Slashed(Trim(name))), "/"));
    if segs.None? || segs.value == [] || |segs.value| > MAX_DEPTH || !IsText(Last(segs.value)) then None
    else if !allowQA && EqualFold(segs.value[0], QA_DIR) then None
    else
      var rel := Clean(Join(segs.value, "/"));
      if "/" <= rel || ".." <= rel then None else Some(rel)
  }

  /* ---- what an accepted path looks like ---- */

  predicate GoodSegment(seg: string) {
    && seg != "" && Trimmed(seg) && '/' !in seg && '\\' !in seg
    && seg[0] != '.' && forall c | c in seg :: c >= ' ' && c != '\U{7F}'
  }

  predicate GoodSegments(segs: seq<string>) {
    segs != [] && forall seg | seg in segs :: GoodSegment(seg)
  }

  /** One to four trimmed, visible, printable segments, the last with a text extension; for an
      import, not under the folder of confirmed answers in any spelling. */
  predicate GoodPath(segs: seq<string>, allowQA: bool) {
    && GoodSegments(segs) && |segs| <= MAX_DEPTH && IsText(Last(segs))
    && (allowQA || !EqualFold(segs[0], QA_DIR))
  }

  lemma TrimIsWithin(s: string)
    ensures forall c | c in Trim(s) :: c in s
  {
    var l, r := TrimSplits(s);
    assert forall c | c in Trim(s) :: c in l + Trim(s) + r;
  }

  lemma {:induction false} SegmentsAreGood(parts: seq<string>)
    requires forall p | p in parts :: '/' !in p && '\\' !in p
    requires SegmentsOf(parts).Some?
    ensures forall seg | seg in SegmentsOf(parts).value :: GoodSegment(seg)
    ensures |Join(SegmentsOf(parts).value, "/")| <= |Join(parts, "/")|
  {
    if parts != [] {
      TrimIsWithin(parts[0]);
      assert parts[0] in parts;
      assert forall p | p in parts[1..] :: p in parts;
      SegmentsAreGood(parts[1..]);
      if Trim(parts[0]) != "" {
        var rest := SegmentsOf(parts[1..]).value;
        if rest != [] { JoinCons(Trim(parts[0]), rest, "/"); }
      }
    }
  }

  lemma {:induction false} GoodSegmentsStay(segs: seq<string>)
    requires forall seg | seg in segs :: GoodSegment(seg)
    ensures SegmentsOf(segs) == Some(segs)
  {
    if segs != [] {
      assert segs[0] in segs;
      TrimOfTrimmed(segs[0]);
      GoodSegmentsStay(segs[1..]);
      assert [segs[0]] + segs[1..] == segs;
    }
  }

  /** Nothing in the segments for path.Clean to take out. */
  predicate Settled(segs: seq<string>) {
    forall seg | seg in segs :: seg != "" && seg != "." && seg != ".."
  }

  lemma {:induction false} CleanSettledSegs(segs: seq<string>, rooted: bool, out: seq<string>)
    requires Settled(segs)
    ensures CleanSegs(segs, rooted, out) == out + segs
    decreases |segs|
  {
    if segs == [] {
      assert out + segs == out;
    } else {
      assert segs[0] in segs && forall seg | seg in segs[1..] :: seg in segs;
      CleanSettledSegs(segs[1..], rooted, out + [segs[0]]);
      assert out + [segs[0]] + segs[1..] == out + segs;
    }
  }

  /** The ends and the characters of a path made of good segments. */
  lemma {:induction false} JoinOfGood(segs: seq<string>)
    requires GoodSegments(segs)
    ensures var j := Join(segs, "/");
      j != "" && Trimmed(j) && '\\' !in j && j[0] != '/' && j[0] != '.'
  {
    assert segs[0] in segs && GoodSegment(segs[0]) && segs[0][0] in segs[0];
    if |segs| > 1 {
      assert forall seg | seg in segs[1..] :: seg in segs;
      JoinOfGood(segs[1..]);
      var j := Join(segs[1..], "/");
      assert Join(segs, "/") == segs[0] + "/" + j;
      assert Last(segs[0] + "/" + j) == Last(j);
    }
  }

  /** A path of good segments is clean, so the source's second check never fires on one. */
  lemma CleanOfGood(segs: seq<string>)
    requires GoodSegments(segs)
    ensures Clean(Join(segs, "/")) == Join(segs, "/")
    ensures Clean("/" + Join(segs, "/")) == "/" + Join(segs, "/")
    ensures Split(Join(segs, "/"), "/") == segs
  {
    JoinOfGood(segs);
    assert "/" == ['/'];
    SplitJoin(segs, '/');
    CleanSettledSegs(segs, false, []);
    CleanSettledSegs(segs, true, []);
    assert [] + segs == segs;
    var j := Join(segs, "/");
    SplitSep(j, "/");
    assert CleanSegs([""] + segs, true, []) == CleanSegs(segs, true, []) by {
      assert ([""] + segs)[1..] == segs;
    }
  }

  lemma SlashedOfPlain(s: string)
    requires '\\' !in s
    ensures Slashed(s) == s
  {
  }

  /** Every accepted path is a good one, and no longer than what was typed. */
  lemma AcceptedIsGood(name: string, allowQA: bool) returns (segs: seq<string>)
    requires SafePath(name, allowQA).Some?
    ensures GoodPath(segs, allowQA)
    ensures SafePath(name, allowQA) == Some(Join(segs, "/"))
    ensures |Join(segs, "/")| <= |CutDrive(Slashed(Trim(name)))|
  {
    var clean := CutDrive(Slashed(Trim(name)));
    assert "/" == ['/'];
    SplitFree(clean, '/');
    SplitKeepsOut(clean, '/', '\\');
    SegmentsAreGood(Split(clean, "/"));
    JoinSplit(clean, "/");
    segs := SegmentsOf(Split(clean, "/")).value;
    CleanOfGood(segs);
  }

  /** Every good path is accepted as itself, unless a drive letter would be cut off it. */
  lemma GoodIsAccepted(segs: seq<string>, allowQA: bool)
    requires GoodPath(segs, allowQA)
    requires !(0 <= ColonAt(Join(segs, "/")) <= 2)
    ensures SafePath(Join(segs, "/"), allowQA) == Some(Join(segs, "/"))
  {
    var j := Join(segs, "/");
    JoinOfGood(segs);
    TrimOfTrimmed(j);
    SlashedOfPlain(j);
    CleanOfGood(segs);
    GoodSegmentsStay(segs);
  }

  /** An accepted path is its own identity exactly when nothing in it reads as a drive letter:
      importing a document under the path it already has finds it again if and only if no ':'
      stands among its first three characters. */
  lemma FixedPointIff(name: string, allowQA: bool)
    requires SafePath(name, allowQA).Some?
    ensures var rel := SafePath(name, allowQA).value;
      SafePath(rel, allowQA) == Some(rel) <==> !(0 <= ColonAt(rel) <= 2)
  {
    var segs := AcceptedIsGood(name, allowQA);
    var rel := Join(segs, "/");
    if 0 <= ColonAt(rel) <= 2 {
      JoinOfGood(segs);
      TrimOfTrimmed(rel);
      SlashedOfPlain(rel);
      if SafePath(rel, allowQA).Some? {
        var again := AcceptedIsGood(rel, allowQA);
      }
    } else {
      GoodIsAccepted(segs, allowQA);
    }
  }

  /** Two colons: what is accepted is accepted again as another path. */
  lemma SecondColonMoves()
    ensures SafePath("x:a:b.md", false) == Some("a:b.md") && SafePath("a:b.md", false) == Some("b.md")
  {
    DriveIsCut("x:a:b.md", "a:b.md");
    DriveIsCut("a:b.md", "b.md");
  }

  lemma DriveIsCut(name: string, file: string)
    requires (name == "x:a:b.md" && file == "a:b.md") || (name == "a:b.md" && file == "b.md")
    ensures SafePath(name, false) == Some(file)
  {
    CutOnce(name, file);
    OneGoodSegment(file);
    hide Clean, Split, IsText, Trim, Slashed, CutDrive, SegmentsOf, Join, EqualFold;
    assert |[file]| <= MAX_DEPTH && Last([file]) == file;
  }

  lemma CutOnce(name: string, file: string)
    requires (name == "x:a:b.md" && file == "a:b.md") || (name == "a:b.md" && file == "b.md")
    ensures CutDrive(Slashed(Trim(name))) == file
  {
    assert ColonAt(name) == 1 by { assert name[1..][0] == ':'; }
    assert Slashed(name) == name && name[2..] == file;
    assert !IsSpace(name[0]) && !IsSpace(Last(name));
    hide ColonAt, Slashed, Trim;
    TrimOfTrimmed(name);
  }

  lemma OneGoodSegment(file: string)
    requires file == "a:b.md" || file == "b.md"
    ensures Split(file, "/") == [file] && SegmentsOf([file]) == Some([file]) && IsText(file) && Join([file], "/") == file
    ensures Clean(file) == file && !EqualFold(file, QA_DIR) && !("/" <= file) && !(".." <= file)
  {
    var stem := file[..|file| - 3];
    assert stem + ".md" == file && file[0] != '/' && file[0] != '.' && |Lower(file)| != |Lower(QA_DIR)|;
    FileIsGood(file);
    hide IsText, Ext, EqualFold, GoodSegment, Split, Clean, SegmentsOf;
    MdIsText(stem);
    CleanOfGood([file]);
    GoodSegmentsStay([file]);
  }

  lemma FileIsGood(file: string)
    requires file == "a:b.md" || file == "b.md"
    ensures GoodSegment(file)
  {
    assert file[0] != ' ' && Last(file) == 'd';
  }

  /* ---- what any path becomes ---- */

  /** `u` is what is left of `t` when a drive is cut off: what ends in the first colon, if that is among the
      first three characters. */
  ghost predicate IsCut(t: string, u: string) {
    || (exists d: string :: t == d + ":" + u && |d| <= 2 && ':' !in d)
    || (u == t && forall i | 0 <= i < |t| && i < 3 :: t[i] != ':')
  }

  lemma CutIs(t: string, u: string)
    requires IsCut(t, u)
    ensures CutDrive(t) == u
  {
    if exists d: string :: t == d + ":" + u && |d| <= 2 && ':' !in d {
      var d: string :| t == d + ":" + u && |d| <= 2 && ':' !in d;
      assert t[|d|] == ':' && t[|d| + 1..] == u && t[..|d|] == d;
      ColonIs(t, |d|);
    }
  }

  lemma {:induction false} ColonIs(s: string, k: nat)
    requires k < |s| && s[k] == ':' && ':' !in s[..k]
    ensures ColonAt(s) == k
  {
    if k > 0 {
      assert s[..k][0] == s[0] && s[..k] == [s[0]] + s[1..][..k - 1];
      ColonIs(s[1..], k - 1);
    }
  }

  function TrimAll(parts: seq<string>): (r: seq<string>)
    ensures |r| == |parts| && forall i | 0 <= i < |r| :: r[i] == Trim(parts[i])
  {
    seq(|parts|, i requires 0 <= i < |parts| => Trim(parts[i]))
  }

  lemma {:induction false} SegmentsAre(parts: seq<string>)
    requires forall p | p in parts :: '/' !in p && '\\' !in p
    ensures var segs := NonEmptyOf(TrimAll(parts));
      SegmentsOf(parts) == if AreGood(segs) then Some(segs) else None
  {
    hide Trim, GoodSegment, Refused, AreGood, NonEmptyOf;
    if parts == [] {
      assert TrimAll(parts) == [];
      NoneAreGood();
    } else {
      var seg, rest := Trim(parts[0]), TrimAll(parts[1..]);
      assert parts[0] in parts && forall p | p in parts[1..] :: p in parts;
      SegmentsAre(parts[1..]);
      assert TrimAll(parts) == [seg] + rest;
      GoodCons(seg, rest);
      if seg != "" { SegmentIsGood(parts[0]); }
    }
  }

  predicate AreGood(segs: seq<string>) { forall seg | seg in segs :: GoodSegment(seg) }

  lemma NoneAreGood()
    ensures NonEmptyOf([]) == [] && AreGood([])
  {
  }

  lemma GoodCons(seg: string, rest: seq<string>)
    ensures NonEmptyOf([seg] + rest) == if seg == "" then NonEmptyOf(rest) else [seg] + NonEmptyOf(rest)
    ensures AreGood([seg] + NonEmptyOf(rest)) <==> GoodSegment(seg) && AreGood(NonEmptyOf(rest))
  {
    hide GoodSegment;
    assert ([seg] + rest)[1..] == rest && [] + NonEmptyOf(rest) == NonEmptyOf(rest);
    assert forall s :: s in [seg] + NonEmptyOf(rest) <==> s == seg || s in NonEmptyOf(rest);
  }

  lemma SegmentIsGood(p: string)
    requires '/' !in p && '\\' !in p && Trim(p) != ""
    ensures GoodSegment(Trim(p)) <==> !Refused(Trim(p))
  {
    TrimIsWithin(p);
    var seg := Trim(p);
    hide Trim;
    assert seg == "." || seg == ".." ==> seg[0] == '.';
  }

  /** What any name becomes: back slashes turned, blanks off its ends, a drive cut off, and then the trimmed
      parts between slashes that are not empty; or nothing, when they do not make a good path. */
  lemma SafePathIs(name: string, u: string, allowQA: bool)
    requires IsCut(Slashed(Trim(name)), u)
    ensures var segs := NonEmptyOf(TrimAll(Split(u, "/")));
      SafePath(name, allowQA) == if GoodPath(segs, allowQA) then Some(Join(segs, "/")) else None
  {
    hide *;
    var t, parts := Slashed(Trim(name)), Split(u, "/");
    var segs := NonEmptyOf(TrimAll(parts));
    CutIs(t, u);
    assert "/" == ['/'];
    SplitFree(u, '/');
    SlashedHasNone(Trim(name));
    CutKeepsOut(t, u);
    SplitKeepsOut(u, '/', '\\');
    SegmentsAre(parts);
    if GoodPath(segs, allowQA) { GoodStays(segs, allowQA); }
    SafePathStep(name, parts, segs, allowQA);
  }

  lemma SlashedHasNone(s: string)
    ensures '\\' !in Slashed(s)
  {
  }

  lemma GoodStays(segs: seq<string>, allowQA: bool)
    requires GoodPath(segs, allowQA)
    ensures var j := Join(segs, "/"); Clean(j) == j && !("/" <= j) && !(".." <= j)
  {
    CleanOfGood(segs);
    JoinOfGood(segs);
  }

  lemma SafePathStep(name: string, parts: seq<string>, segs: seq<string>, allowQA: bool)
    requires parts == Split(CutDrive(Slashed(Trim(name))), "/")
    requires SegmentsOf(parts) == if AreGood(segs) then Some(segs) else None
    requires GoodPath(segs, allowQA) ==> var j := Join(segs, "/"); Clean(j) == j && !("/" <= j) && !(".." <= j)
    ensures SafePath(name, allowQA) == if GoodPath(segs, allowQA) then Some(Join(segs, "/")) else None
  {
    hide Clean, Join, Split, Slashed, Trim, CutDrive, IsText, EqualFold, GoodSegment, SegmentsOf;
  }

  lemma CutKeepsOut(t: string, u: string)
    requires IsCut(t, u) && '\\' !in t
    ensures '\\' !in u
  {
    if u != t {
      var d: string :| t == d + ":" + u && |d| <= 2 && ':' !in d;
      assert forall c | c in u :: c in t;
    }
  }

  /** The extension is what follows the last dot of the last part of a path. */
  lemma {:induction false} ExtIs(stem: string, e: string)
    requires '.' !in e && '/' !in e
    ensures Ext(stem + "." + e) == "." + e
    ensures stem == "" || Last(stem) == '/' ==> Ext(stem + e) == ""
  {
    hide Ext;
    if e == "" {
      ExtOfDot(stem);
      assert stem + "." + "" == stem + "." && "." + "" == "." && stem + "" == stem;
    } else {
      var before, c := DropLast(e), Last(e);
      assert e == before + [c] && c in e && forall x | x in before :: x in e;
      ExtIs(stem, before);
      ExtStep(stem + "." + before, c);
      ExtStep(stem + before, c);
      assert stem + "." + e == stem + "." + before + [c] && stem + e == stem + before + [c] && "." + e == "." + before + [c];
    }
  }

  lemma ExtOfDot(stem: string)
    ensures Ext(stem + ".") == "." && (stem == "" || Last(stem) == '/' ==> Ext(stem) == "")
  {
  }

  lemma ExtStep(n: string, c: char)
    requires c != '.' && c != '/'
    ensures Ext(n + [c]) == if Ext(n) == "" then "" else Ext(n) + [c]
  {
    assert DropLast(n + [c]) == n;
  }

  lemma IsTextIff(stem: string, e: string)
    requires '.' !in e && '/' !in e
    ensures IsText(stem + "." + e) <==> Lower(e) in {"md", "markdown", "txt"}
    ensures (stem == "" || Last(stem) == '/') ==> !IsText(stem + e)
  {
    ExtIs(stem, e);
    hide Ext;
    var low := Lower(e);
    assert Lower("." + e) == "." + low && Lower("") == "";
    assert ".md" == "." + "md" && ".markdown" == "." + "markdown" && ".txt" == "." + "txt";
    hide LowerChar, Lower;
    AfterDot(low, "md");
    AfterDot(low, "markdown");
    AfterDot(low, "txt");
  }

  lemma AfterDot(a: string, b: string)
    ensures "." + a == "." + b <==> a == b
  {
    assert ("." + a)[1..] == a && ("." + b)[1..] == b;
  }

  /* ---- what path.Clean takes out ---- */

  lemma {:induction false} CleanConcat(a: seq<string>, b: seq<string>, rooted: bool, out: seq<string>)
    ensures CleanSegs(a + b, rooted, out) == CleanSegs(b, rooted, CleanSegs(a, rooted, out))
    decreases |a|
  {
    if a == [] {
      assert a + b == b;
    } else {
      assert (a + b)[0] == a[0] && (a + b)[1..] == a[1..] + b;
      var more := if a[0] == "" || a[0] == "." then out
                  else if a[0] != ".." then out + [a[0]]
                  else if out != [] && Last(out) != ".." then DropLast(out)
                  else if rooted then out
                  else out + [".."];
      CleanConcat(a[1..], b, rooted, more);
    }
  }

  /** An empty part or a dot is nothing, a name and two dots after it are nothing, and above the root there
      is nothing; where there is no root, two dots at the front stay. */
  lemma CleanTakesOut(a: seq<string>, x: string, b: seq<string>, rooted: bool)
    requires x != "" && x != "." && x != ".."
    ensures CleanSegs(a + [""] + b, rooted, []) == CleanSegs(a + b, rooted, [])
    ensures CleanSegs(a + ["."] + b, rooted, []) == CleanSegs(a + b, rooted, [])
    ensures CleanSegs(a + [x, ".."] + b, rooted, []) == CleanSegs(a + b, rooted, [])
    ensures CleanSegs([".."] + b, true, []) == CleanSegs(b, true, [])
    ensures CleanSegs(["..", ".."], false, []) == ["..", ".."] && CleanSegs(["..", x], false, []) == ["..", x]
  {
    var out := CleanSegs(a, rooted, []);
    CleanConcat(a, b, rooted, []);
    CleanConcat(a + [""], b, rooted, []);
    CleanConcat(a, [""], rooted, []);
    CleanConcat(a + ["."], b, rooted, []);
    CleanConcat(a, ["."], rooted, []);
    CleanConcat(a + [x, ".."], b, rooted, []);
    CleanConcat(a, [x, ".."], rooted, []);
    CleanConcat([".."], b, true, []);
    CleanFew(x, rooted, out);
  }

  lemma CleanFew(x: string, rooted: bool, out: seq<string>)
    requires x != "" && x != "." && x != ".."
    ensures CleanSegs([""], rooted, out) == out == CleanSegs(["."], rooted, out)
    ensures CleanSegs([x, ".."], rooted, out) == out && CleanSegs([".."], true, []) == []
    ensures CleanSegs(["..", ".."], false, []) == ["..", ".."] && CleanSegs(["..", x], false, []) == ["..", x]
  {
    CleanOne("", rooted, out);
    CleanOne(".", rooted, out);
    CleanOne("..", true, []);
    hide CleanSegs;
    CleanPair(x, "..", rooted, out);
    CleanOne(x, rooted, out);
    CleanOne("..", rooted, out + [x]);
    assert DropLast(out + [x]) == out && Last(out + [x]) == x;
    CleanPair("..", "..", false, []);
    CleanPair("..", x, false, []);
    CleanOne("..", false, []);
    CleanOne("..", false, [".."]);
    CleanOne(x, false, [".."]);
    assert [] + [".."] == [".."] && [".."] + [".."] == ["..", ".."] && [".."] + [x] == ["..", x];
  }

  lemma CleanPair(x: string, y: string, rooted: bool, out: seq<string>)
    ensures CleanSegs([x, y], rooted, out) == CleanSegs([y], rooted, CleanSegs([x], rooted, out))
  {
    assert [x] + [y] == [x, y];
    CleanConcat([x], [y], rooted, out);
  }

  lemma CleanOne(x: string, rooted: bool, out: seq<string>)
    ensures CleanSegs([x], rooted, out) == if x == "" || x == "." then out
                                           else if x != ".." then out + [x]
                                           else if out != [] && Last(out) != ".." then DropLast(out)
                                           else if rooted then out
                                           else out + [".."]
  {
    assert [x][1..] == [];
  }

  /* ---- the path of a confirmed answer ---- */

  function Decimal(n: nat): (d: string)
    ensures d != "" && forall c | c in d :: '0' <= c <= '9'
  {
    var digit := ('0' as int + n % 10) as char;
    if n < 10 then [digit] else Decimal(n / 10) + [digit]
  }

  function TypedName(name: string): string {
    var bare := if |name| > |QA_DIR| && EqualFold(name[..|QA_DIR|], QA_DIR) && name[|QA_DIR|] == '/'
      then name[|QA_DIR| + 1..] else name;
    if IsText(bare) then bare else bare + ".md"
  }

  /** What a confirmed answer is called: the typed name inside qa/, else the path the ticket has,
      else one made from its number. */
  function QaPath(id: nat, name: string, current: string): Option<string> {
    if Trim(name) == "" then
      if current != "" then Some(current) else Some(Clean(QA_DIR + "/" + ("ticket-" + Decimal(id) + ".md")))
    else
      var rel := SafePath(Clean(QA_DIR + "/" + TypedName(Trim(name))), true);
      if rel.None? || !(QA_DIR + "/" <= rel.value) then None else rel
  }

  /** A path that a confirmed answer may have: a good path inside the qa/ folder. */
  ghost predicate IsQaPath(rel: string) {
    QA_DIR + "/" <= rel && exists segs :: GoodPath(segs, true) && rel == Join(segs, "/")
  }

  lemma {:induction false} ExtAfterSlash(a: string, b: string)
    ensures Ext(a + "/" + b) == Ext(b)
  {
    if b == "" {
      assert a + "/" + b == a + "/";
    } else {
      ExtAfterSlash(a, DropLast(b));
      assert DropLast(a + "/" + b) == a + "/" + DropLast(b);
    }
  }

  lemma {:induction false} ExtOfJoin(segs: seq<string>)
    requires segs != []
    ensures Ext(Join(segs, "/")) == Ext(Last(segs))
  {
    if |segs| > 1 {
      ExtOfJoin(segs[1..]);
      ExtAfterSlash(segs[0], Join(segs[1..], "/"));
    }
  }

  lemma ExtOfMd(stem: string)
    ensures Ext(stem + ".md") == ".md"
  {
    var n := stem + ".md";
    assert DropLast(n) == stem + ".m" && DropLast(stem + ".m") == stem + ".";
    assert Ext(stem + ".") == ".";
    assert Ext(stem + ".m") == ".m";
  }

  lemma FirstNameIsGood(id: nat)
    ensures GoodPath([QA_DIR, "ticket-" + Decimal(id) + ".md"], true)
  {
    var file := "ticket-" + Decimal(id) + ".md";
    MdIsText("ticket-" + Decimal(id));
    TicketIsGood(id);
    QaIsGood();
    hide IsText, GoodSegment, Decimal;
    assert |[QA_DIR, file]| <= MAX_DEPTH;
  }

  lemma MdIsText(stem: string)
    ensures IsText(stem + ".md")
  {
    ExtOfMd(stem);
    hide Ext;
    assert Lower(".md") == ".md";
  }

  lemma QaIsGood()
    ensures GoodSegment(QA_DIR)
  {
    assert QA_DIR[0] == 'q' && QA_DIR[1] == 'a' && forall c | c in QA_DIR :: c == 'q' || c == 'a';
  }

  lemma TicketIsGood(id: nat)
    ensures GoodSegment("ticket-" + Decimal(id) + ".md")
  {
    var file := "ticket-" + Decimal(id) + ".md";
    hide Decimal;
    assert file[0] == 't' && Last(file) == 'd';
    forall c | c in file ensures ' ' < c < '\U{7F}' && c != '/' && c != '\\' {
      TicketChars(Decimal(id), c);
    }
  }

  lemma TicketChars(d: string, c: char)
    requires (forall x | x in d :: '0' <= x <= '9') && c in "ticket-" + d + ".md"
    ensures ' ' < c < '\U{7F}' && c != '/' && c != '\\'
  {
    assert c in "ticket-" || c in d || c in ".md";
  }

  /** Whatever is typed, a confirmed answer stays inside qa/, at a path the rest of the product
      accepts. */
  lemma QaPathStaysInside(id: nat, name: string, current: string)
    requires current == "" || IsQaPath(current)
    requires QaPath(id, name, current).Some?
    ensures IsQaPath(QaPath(id, name, current).value)
  {
    if Trim(name) != "" {
      var segs := AcceptedIsGood(Clean(QA_DIR + "/" + TypedName(Trim(name))), true);
      assert GoodPath(segs, true);
    } else if current == "" {
      var segs := [QA_DIR, "ticket-" + Decimal(id) + ".md"];
      FirstNameIsGood(id);
      CleanOfGood(segs);
      assert segs[1..] == ["ticket-" + Decimal(id) + ".md"];
      assert Join(segs, "/") == QA_DIR + "/" + ("ticket-" + Decimal(id) + ".md");
    }
  }

  /** Confirming again under the whole path the answer already has is a correction, never a
      rename. */
  lemma RetypedPathIsTheSame(id: nat, rel: string, current: string)
    requires IsQaPath(rel)
    ensures QaPath(id, rel, current) == Some(rel)
  {
    var segs :| GoodPath(segs, true) && rel == Join(segs, "/");
    JoinOfGood(segs);
    CleanOfGood(segs);
    hide Clean, TypedName, Join, Split, IsText, Refused, SafePath;
    TrimOfTrimmed(rel);
    var rest := TypedRest(segs, rel);
    GoodIsAccepted(segs, true);
  }

  /** The folder is taken off the typed path, and nothing is put on. */
  lemma TypedRest(segs: seq<string>, rel: string) returns (rest: string)
    requires GoodPath(segs, true) && rel == Join(segs, "/") && Split(rel, "/") == segs
    requires QA_DIR + "/" <= rel
    ensures rel == QA_DIR + "/" + rest && TypedName(rel) == rest
    ensures !(0 <= ColonAt(rel) <= 2)
  {
    rest := rel[|QA_DIR| + 1..];
    assert rel == QA_DIR + ['/'] + rest;
    assert rel[0] == 'q' && rel[1] == 'a' && rel[2] == '/' && rel[..2] == QA_DIR;
    TypedText(segs, rel, rest);
  }

  lemma TypedText(segs: seq<string>, rel: string, rest: string)
    requires GoodPath(segs, true) && Split(rel, "/") == segs
    requires rel == QA_DIR + ['/'] + rest
    ensures IsText(rest)
  {
    hide LowerChar, Lower;
    assert "/" == ['/'];
    SplitPiece(QA_DIR, '/', rest);
    assert segs == [QA_DIR] + Split(rest, "/");
    JoinSplit(rest, "/");
    assert Last(Split(rest, "/")) == Last(segs);
    ExtOfJoin(Split(rest, "/"));
  }

  /** What a decimal numeral says. */
  function Value(d: string): int {
    if d == "" then 0 else 10 * Value(DropLast(d)) + (Last(d) as int - '0' as int)
  }

  /** A number's numeral says that number, with no nought in front; so two tickets never get one name. */
  lemma {:induction false} DecimalSays(n: nat)
    ensures Value(Decimal(n)) == n && (n > 0 ==> Decimal(n)[0] != '0')
  {
    if n >= 10 { DecimalSays(n / 10); }
  }

  /** Without a name typed, an answer keeps the path it has, or is called by its ticket's number. */
  lemma UntypedPathIs(id: nat, name: string, current: string)
    requires Trim(name) == ""
    ensures QaPath(id, name, current) == Some(if current != "" then current else "qa/ticket-" + Decimal(id) + ".md")
  {
    hide *;
    QaIs();
    var file := "ticket-" + Decimal(id) + ".md";
    FirstNameIsGood(id);
    GoodParts([QA_DIR, file]);
    CleanOfGood([QA_DIR, file]);
    JoinPair(file);
    UntypedStep(id, name, current);
    assert "qa" + "/" + file == "qa/ticket-" + Decimal(id) + ".md";
  }

  lemma JoinPair(file: string)
    ensures Join(["qa", file], "/") == "qa" + "/" + file
  {
    assert ["qa", file][1..] == [file];
  }

  lemma UntypedStep(id: nat, name: string, current: string)
    requires Trim(name) == ""
    ensures QaPath(id, name, current) ==
      Some(if current != "" then current else Clean("qa" + "/" + ("ticket-" + Decimal(id) + ".md")))
  {
    hide Clean, Decimal, Trim;
  }

  /** A typed name goes into the folder, with the extension put on when there is none; the folder may be typed
      as well, in any case. */
  lemma TypedPathIs(id: nat, folder: string, rest: string, segs: seq<string>, current: string)
    requires folder == "" || (|folder| == 3 && EqualFold(folder[..2], "qa") && folder[2] == '/')
    requires folder == "" ==> !(|rest| > 2 && EqualFold(rest[..2], "qa") && rest[2] == '/')
    requires Trimmed(folder + rest) && rest != ""
    requires var file := if IsText(rest) then rest else rest + ".md";
      segs != [] && GoodPath([QA_DIR] + segs, true) && file == Join(segs, "/")
    ensures QaPath(id, folder + rest, current) == Some("qa/" + if IsText(rest) then rest else rest + ".md")
  {
    hide *;
    QaIs();
    var name, file := folder + rest, if IsText(rest) then rest else rest + ".md";
    TrimOfTrimmed(name);
    TypedNameIs(folder, rest);
    JoinCons(QA_DIR, segs, "/");
    GoodParts([QA_DIR] + segs);
    CleanOfGood([QA_DIR] + segs);
    QaHasNoColon(file);
    GoodIsAccepted([QA_DIR] + segs, true);
    QaPathStep(id, name, current, file);
  }

  lemma GoodParts(segs: seq<string>)
    requires GoodPath(segs, true)
    ensures GoodSegments(segs)
  {
    hide GoodSegment, IsText;
  }

  lemma QaPathStep(id: nat, name: string, current: string, file: string)
    requires name != "" && Trim(name) == name && TypedName(name) == file
    requires Clean(QA_DIR + "/" + file) == QA_DIR + "/" + file && SafePath(QA_DIR + "/" + file, true) == Some(QA_DIR + "/" + file)
    ensures QaPath(id, name, current) == Some("qa/" + file)
  {
    hide Clean, SafePath, Trim, TypedName;
    assert QA_DIR + "/" == "qa/";
  }

  lemma QaHasNoColon(file: string)
    ensures !(0 <= ColonAt("qa" + "/" + file) <= 2)
  {
    var j := "qa" + "/" + file;
    assert j[0] == 'q' && j[1] == 'a' && j[2] == '/';
  }

  lemma TypedNameIs(folder: string, rest: string)
    requires folder == "" || (|folder| == 3 && EqualFold(folder[..2], "qa") && folder[2] == '/')
    requires folder == "" ==> !(|rest| > 2 && EqualFold(rest[..2], "qa") && rest[2] == '/')
    requires rest != ""
    ensures TypedName(folder + rest) == if IsText(rest) then rest else rest + ".md"
  {
    hide IsText, EqualFold;
    var name := folder + rest;
    if folder == "" {
      assert name == rest;
    } else {
      assert name[..2] == folder[..2] && name[2] == '/' && name[3..] == rest;
    }
  }

  /** Two dots typed in front take the path out of the folder, and then it is refused. */
  lemma EscapeIsRefused(id: nat, segs: seq<string>, current: string)
    requires GoodPath(segs, true) && !(0 <= ColonAt(Join(segs, "/")) <= 2) && !("qa/" <= Join(segs, "/"))
    ensures QaPath(id, "../" + Join(segs, "/"), current) == None
  {
    var rel := Join(segs, "/");
    var name := "../" + rel;
    JoinOfGood(segs);
    assert name[0] == '.' && Last(name) == Last(rel);
    TrimOfTrimmed(name);
    ExtOfJoin(segs);
    ExtAfterSlash("..", rel);
    assert ".." + "/" + rel == name;
    CleanUp(segs);
    GoodIsAccepted(segs, true);
    hide Clean, Join, Split, Ext, Refused, SafePath, GoodSegment, ColonAt, Trim;
    assert TypedName(name) == name by { assert name[..2] == ".." && |Lower(name[..2])| == 2 && Lower(name[..2])[0] == '.' && Lower(QA_DIR)[0] == 'q'; }
    assert QA_DIR + "/" == "qa/";
  }

  lemma CleanUp(segs: seq<string>)
    requires GoodSegments(segs)
    ensures Clean(QA_DIR + "/" + ("../" + Join(segs, "/"))) == Join(segs, "/")
  {
    hide *;
    QaIs();
    var p, none: seq<string> := QA_DIR + "/" + ("../" + Join(segs, "/")), [];
    SplitUp(segs);
    assert [QA_DIR, ".."] + segs == none + [QA_DIR, ".."] + segs && none + segs == segs;
    CleanTakesOut(none, QA_DIR, segs, false);
    GoodSettle(segs);
    CleanSettledSegs(segs, false, none);
    assert p[0] == 'q';
    JoinOfGood(segs);
    CleanRelative(p);
  }

  lemma GoodSettle(segs: seq<string>)
    requires GoodSegments(segs)
    ensures Settled(segs)
  {
  }

  lemma CleanRelative(p: string)
    requires p != "" && p[0] != '/'
    ensures var body := Join(CleanSegs(Split(p, "/"), false, []), "/"); body != "" ==> Clean(p) == body
  {
    hide CleanSegs, Split, Join;
    assert !("/" <= p);
  }

  lemma SplitUp(segs: seq<string>)
    requires GoodSegments(segs)
    ensures Split(QA_DIR + "/" + ("../" + Join(segs, "/")), "/") == [QA_DIR, ".."] + segs
  {
    hide *;
    QaIs();
    var rel := Join(segs, "/");
    CleanOfGood(segs);
    UpText(rel);
    SplitPiece("qa", '/', ".." + ['/'] + rel);
    SplitPiece("..", '/', rel);
    assert ["qa"] + ([".."] + segs) == ["qa", ".."] + segs;
  }

  lemma UpText(rel: string)
    ensures "qa" + "/" + ("../" + rel) == "qa" + ['/'] + (".." + ['/'] + rel) && "/" == ['/']
  {
    assert "../" + rel == ".." + ['/'] + rel;
  }

  lemma QaIs()
    ensures QA_DIR == "qa"
  {
  }

  /* ---- scopes ---- */

  /** The canonical form of a scope. */
  function Scope(s: string): string {
    var t := Trim(Slashed(s));
    if t == "" then "" else Clean("/" + t)[1..]
  }

  /** Every stored path, and every folder on the way to it, is a canonical scope: the string a
      reader picks in the tree is the string retrieval filters on. */
  lemma StoredPathsAreScopes(name: string, allowQA: bool) returns (segs: seq<string>)
    requires SafePath(name, allowQA).Some?
    ensures GoodSegments(segs) && SafePath(name, allowQA) == Some(Join(segs, "/"))
    ensures forall n | 1 <= n <= |segs| :: Scope(Join(segs[..n], "/")) == Join(segs[..n], "/")
  {
    segs := AcceptedIsGood(name, allowQA);
    forall n | 1 <= n <= |segs| ensures Scope(Join(segs[..n], "/")) == Join(segs[..n], "/") {
      assert forall seg | seg in segs[..n] :: seg in segs;
      GoodIsScope(segs[..n]);
    }
  }

  lemma GoodIsScope(segs: seq<string>)
    requires GoodSegments(segs)
    ensures Scope(Join(segs, "/")) == Join(segs, "/")
  {
    var j := Join(segs, "/");
    JoinOfGood(segs);
    SlashedOfPlain(j);
    TrimOfTrimmed(j);
    CleanOfGood(segs);
    assert ("/" + j)[1..] == j;
  }

  lemma {:induction false} RootedSettles(parts: seq<string>, out: seq<string>)
    requires Settled(out)
    ensures Settled(CleanSegs(parts, true, out))
    ensures |Join(CleanSegs(parts, true, out), "/")| <= |Join(out + parts, "/")|
    ensures forall seg | seg in CleanSegs(parts, true, out) :: seg in out || seg in parts
    decreases |parts|
  {
    if parts == [] {
      assert out + [] == out;
    } else {
      var p, rest := parts[0], parts[1..];
      assert out + parts == out + [p] + rest;
      JoinDrop(out, p, rest);
      if p == "" || p == "." {
        RootedSettles(rest, out);
      } else if p != ".." {
        RootedSettles(rest, out + [p]);
      } else if out != [] {
        assert Last(out) in out && forall seg | seg in DropLast(out) :: seg in out;
        assert out == DropLast(out) + [Last(out)];
        JoinDrop(DropLast(out), Last(out), rest);
        RootedSettles(rest, DropLast(out));
      } else {
        RootedSettles(rest, out);
      }
    }
  }

  lemma {:induction false} JoinDrop(a: seq<string>, p: string, b: seq<string>)
    ensures |Join(a + b, "/")| <= |Join(a + [p] + b, "/")|
  {
    if a == [] {
      assert [] + b == b && [] + [p] + b == [p] + b;
      if b != [] { JoinCons(p, b, "/"); }
    } else {
      JoinDrop(a[1..], p, b);
      assert a + b == [a[0]] + (a[1..] + b);
      assert a + [p] + b == [a[0]] + (a[1..] + [p] + b);
      JoinCons(a[0], a[1..] + [p] + b, "/");
      if a[1..] + b != [] { JoinCons(a[0], a[1..] + b, "/"); }
    }
  }

  /** The segments that are left of a typed scope once `.`, `..` and empty ones are resolved. */
  function ScopeParts(s: string): seq<string> {
    CleanSegs(Split(Trim(Slashed(s)), "/"), true, [])
  }

  /** No blank before the first of them, or after the last. */
  predicate OuterBlanksGone(parts: seq<string>) {
    parts != [] ==> (parts[0] != "" ==> !IsSpace(parts[0][0])) && (Last(parts) != "" ==> !IsSpace(Last(Last(parts))))
  }

  /** A scope is its own canonical form exactly when the first segment left of it begins with no
      blank, and the last ends with none. The one may, where a slash was typed before the blank. */
  lemma ScopeIdempotentIff(s: string)
    ensures Scope(Scope(s)) == Scope(s) <==> OuterBlanksGone(ScopeParts(s))
  {
    var segs := ScopeSegs(s);
    ScopeTrimmedIff(s);
    hide Scope, ScopeParts;
    OuterBlanks(segs);
  }

  lemma OuterBlanks(segs: seq<string>)
    requires Settled(segs)
    ensures Trimmed(Join(segs, "/")) <==> OuterBlanksGone(segs)
  {
    if segs != [] {
      var rest := segs[1..];
      assert segs[0] in segs && Last(segs) in segs && segs[0] != "" && Last(segs) != "";
      if |segs| > 1 {
        LastOfJoin(segs);
        assert Join(segs, "/")[0] == segs[0][0];
      }
    }
  }

  lemma {:induction false} LastOfJoin(segs: seq<string>)
    requires segs != [] && Last(segs) != ""
    ensures Join(segs, "/") != "" && Last(Join(segs, "/")) == Last(Last(segs))
  {
    if |segs| > 1 {
      LastOfJoin(segs[1..]);
      assert Last(segs[1..]) == Last(segs);
      var j := Join(segs[1..], "/");
      assert Last(segs[0] + "/" + j) == Last(j);
    }
  }

  lemma ScopeTrimmedIff(s: string)
    ensures Scope(Scope(s)) == Scope(s) <==> Trimmed(Scope(s))
  {
    var r := Scope(s);
    var segs := ScopeSegs(s);
    assert Slashed(r) == r;
    if Trimmed(r) {
      TrimOfTrimmed(r);
      if r != "" {
        assert "/" == ['/'];
        SplitJoin(segs, '/');
        SplitSep(r, "/");
        CleanSettledSegs(segs, true, []);
        assert ([""] + segs)[1..] == segs && [] + segs == segs;
        assert ("/" + r)[1..] == r;
      }
    } else {
      var again := ScopeSegs(r);
      if |Trim(r)| == |r| {
        TrimWhole(r);
      }
    }
  }

  lemma ScopeSegs(s: string) returns (segs: seq<string>)
    ensures segs == ScopeParts(s) && Settled(segs) && Scope(s) == Join(segs, "/") && |Scope(s)| <= |Trim(Slashed(s))|
    ensures forall seg | seg in segs :: '/' !in seg
    ensures '\\' !in Scope(s) && (segs == [] <==> Scope(s) == "")
  {
    var t := Trim(Slashed(s));
    segs := ScopeParts(s);
    if t == "" {
      assert [""][1..] == [] && CleanSegs([""], true, []) == CleanSegs([], true, []) == [];
    } else {
      var parts := Split(t, "/");
      ScopeOfSplit(t);
      RootedSettles(parts, []);
      assert [] + parts == parts;
      JoinSplit(t, "/");
      assert "/" == ['/'];
      SplitFree(t, '/');
      TrimIsWithin(Slashed(s));
      SplitKeepsOut(t, '/', '\\');
      JoinKeepsOut(segs);
      if segs != [] { assert segs[0] in segs; }
    }
  }

  lemma ScopeOfSplit(t: string)
    ensures Clean("/" + t)[1..] == Join(CleanSegs(Split(t, "/"), true, []), "/")
  {
    SplitSep(t, "/");
    assert ([""] + Split(t, "/"))[1..] == Split(t, "/");
    assert "/" <= "/" + t;
  }

  lemma {:induction false} JoinKeepsOut(segs: seq<string>)
    requires forall seg | seg in segs :: '\\' !in seg
    ensures '\\' !in Join(segs, "/")
    ensures segs != [] && segs[0] != "" ==> Join(segs, "/") != ""
  {
    if |segs| > 1 {
      assert segs[0] in segs && forall seg | seg in segs[1..] :: seg in segs;
      JoinKeepsOut(segs[1..]);
    } else if segs != [] {
      assert segs[0] in segs;
    }
  }

  /** For example: the scope of "/ a" is " a", and the scope of that is "a". */
  lemma ScopeKeepsAnInnerBlank()
    ensures Scope("/ a") == " a" && Scope(" a") == "a"
  {
    var t := "/ a";
    assert Slashed(t) == t;
    TrimOfTrimmed(t);
    ScopeOfSplit(t);
    CleanBlankA();
    ScopeOfBlankA();
  }

  lemma CleanBlankA()
    ensures CleanSegs(Split("/ a", "/"), true, []) == [" a"]
  {
    assert "/" == ['/'] && "/ a" == "" + ['/'] + " a";
    SplitPiece("", '/', " a");
    SplitPiece(" a", '/', "");
    assert ["", " a"][1..] == [" a"] && [" a"][1..] == [];
    assert CleanSegs(["", " a"], true, []) == CleanSegs([" a"], true, []) == CleanSegs([], true, [" a"]);
  }

  lemma ScopeOfBlankA()
    ensures Scope(" a") == "a"
  {
    hide Clean;
    assert Slashed(" a") == " a" && Slashed("a") == "a";
    assert TrimLeft(" a") == "a" by { assert " a"[1..] == "a"; }
    TrimOfTrimmed("a");
    GoodIsScope(["a"]);
  }
}
