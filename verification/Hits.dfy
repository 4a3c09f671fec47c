/** From fused scores to the sections of an answer (internal/db/store.go): boosting, ranking, the
    in-place per-document cap, the top k, and the neighbours stitched to each hit. */
module Hits {
  import opened Text
  import opened Ranking

  const APPROVED: string := "approved"

  datatype Hit = Hit(chunkId: int, documentId: int, ord: int, docPath: string, heading: string,
                     content: string, status: string, score: real)

  /* ---- scores ---- */

  function Scored(row: Hit, score: map<int, real>): Hit {
    row.(score := Boosted(if row.chunkId in score then score[row.chunkId] else 0.0, row.status == APPROVED))
  }

  function ScoredAll(rows: seq<Hit>, score: map<int, real>): (r: seq<Hit>)
    ensures |r| == |rows|
    ensures forall i | 0 <= i < |r| :: r[i] == Scored(rows[i], score)
  {
    seq(|rows|, i requires 0 <= i < |rows| => Scored(rows[i], score))
  }

  predicate Descending(hs: seq<Hit>) {
    forall i, j | 0 <= i < j < |hs| :: hs[i].score >= hs[j].score
  }

  /** What sorting by score may come to. The sort is not stable, so any descending arrangement. */
  ghost predicate SortedFrom(ranked: seq<Hit>, scored: seq<Hit>) {
    Descending(ranked) && multiset(ranked) == multiset(scored)
  }

  /* ---- keeping some of a list ---- */

  /** The hits at the marked places, in order. */
  function Kept(hs: seq<Hit>, marks: seq<bool>): (r: seq<Hit>)
    requires |marks| == |hs|
    ensures |r| <= |hs|
    ensures forall h | h in r :: h in hs
  {
    if hs == [] then [] else Kept(DropLast(hs), DropLast(marks)) + if Last(marks) then [Last(hs)] else []
  }

  function InDoc(hs: seq<Hit>, path: string): nat {
    if hs == [] then 0 else InDoc(DropLast(hs), path) + if Last(hs).docPath == path then 1 else 0
  }

  /** A hit is within the cap when fewer than MAX_PER_DOC hits before it are from its document. */
  function WithinCap(hs: seq<Hit>): (marks: seq<bool>)
    ensures |marks| == |hs|
  {
    if hs == [] then [] else WithinCap(DropLast(hs)) + [InDoc(DropLast(hs), Last(hs).docPath) < MAX_PER_DOC]
  }

  predicate OneDocument(hs: seq<Hit>) {
    forall h, g | h in hs && g in hs :: h.docPath == g.docPath
  }

  function Capped(hs: seq<Hit>): seq<Hit> {
    if OneDocument(hs) then hs else Kept(hs, WithinCap(hs))
  }

  function Top(hs: seq<Hit>, k: nat): seq<Hit> {
    if |hs| > k then hs[..k] else hs
  }

  lemma KeptAppend(hs: seq<Hit>, marks: seq<bool>, h: Hit, mark: bool)
    requires |marks| == |hs|
    ensures Kept(hs + [h], marks + [mark]) == Kept(hs, marks) + if mark then [h] else []
  {
    assert DropLast(hs + [h]) == hs && DropLast(marks + [mark]) == marks;
  }

  lemma WithinCapAppend(hs: seq<Hit>, h: Hit)
    ensures WithinCap(hs + [h]) == WithinCap(hs) + [InDoc(hs, h.docPath) < MAX_PER_DOC]
    ensures forall path :: InDoc(hs + [h], path) == InDoc(hs, path) + if h.docPath == path then 1 else 0
  {
    assert DropLast(hs + [h]) == hs;
  }

  /** The cap, in place: the kept hits move to the front of the array they came in, and the write
      index never overtakes the read index. */
  method CapPerDoc(hits: array<Hit>) returns (n: nat)
    modifies hits
    ensures n <= hits.Length && hits[..n] == Capped(old(hits[..]))
  {
    hide InDoc, Kept, WithinCap, Capped, OneDocument, DocsOf, Min;
    ghost var all := hits[..];
    assert DocsOf([]) == {} && (OneDocument(all) ==> Capped(all) == all) by { CappedOne(all); }
    var seen: map<string, nat> := map[];
    for i := 0 to hits.Length
      invariant hits[..] == all && seen.Keys == DocsOf(all[..i])
    {
      assert hits[i] == all[i];
      var path := hits[i].docPath;
      DocsOfAppend(all, i);
      seen := seen[path := (if path in seen then seen[path] else 0) + 1];
    }
    assert all[..hits.Length] == all;
    DocsSeen(all);
    assert |seen| == |seen.Keys|;
    if |seen| < 2 {
      return hits.Length;
    }
    seen := map[];
    n := 0;
    CapNothing();
    for i := 0 to hits.Length
      invariant n <= i && forall j | i <= j < hits.Length :: hits[j] == all[j]
      invariant hits[..n] == Kept(all[..i], WithinCap(all[..i]))
      invariant forall path ::
          (if path in seen then seen[path] else 0) == Min(InDoc(all[..i], path), MAX_PER_DOC)
    {
      var h := hits[i];
      assert h == all[i];
      CapStep(all, i);
      if h.docPath in seen && seen[h.docPath] >= MAX_PER_DOC {
        continue;
      }
      seen := seen[h.docPath := (if h.docPath in seen then seen[h.docPath] else 0) + 1];
      hits[n] := h;
      n := n + 1;
    }
    assert all[..|all|] == all;
    CappedMany(all);
  }

  lemma CapNothing()
    ensures Kept([], WithinCap([])) == [] && forall path :: Min(InDoc([], path), MAX_PER_DOC) == 0
  {
  }

  lemma CappedOne(hs: seq<Hit>)
    ensures DocsOf([]) == {}
    ensures OneDocument(hs) ==> Capped(hs) == hs
  {
  }

  lemma CappedMany(hs: seq<Hit>)
    requires !OneDocument(hs)
    ensures Capped(hs) == Kept(hs, WithinCap(hs))
  {
  }

  lemma CapStep(all: seq<Hit>, i: nat)
    requires i < |all|
    ensures var path := all[i].docPath;
      && (Min(InDoc(all[..i], path), MAX_PER_DOC) >= MAX_PER_DOC ==>
            && Kept(all[..i + 1], WithinCap(all[..i + 1])) == Kept(all[..i], WithinCap(all[..i]))
            && forall p :: Min(InDoc(all[..i + 1], p), MAX_PER_DOC) == Min(InDoc(all[..i], p), MAX_PER_DOC))
      && (Min(InDoc(all[..i], path), MAX_PER_DOC) < MAX_PER_DOC ==>
            && Kept(all[..i + 1], WithinCap(all[..i + 1])) == Kept(all[..i], WithinCap(all[..i])) + [all[i]]
            && forall p :: Min(InDoc(all[..i + 1], p), MAX_PER_DOC) ==
                           Min(InDoc(all[..i], p), MAX_PER_DOC) + if path == p then 1 else 0)
  {
    assert all[..i + 1] == all[..i] + [all[i]];
    KeptAppend(all[..i], WithinCap(all[..i]), all[i], InDoc(all[..i], all[i].docPath) < MAX_PER_DOC);
    WithinCapAppend(all[..i], all[i]);
  }

  function Min(a: nat, b: nat): nat { if a < b then a else b }

  function DocsOf(hs: seq<Hit>): set<string> {
    set h | h in hs :: h.docPath
  }

  lemma DocsOfAppend(hs: seq<Hit>, i: nat)
    requires i < |hs|
    ensures DocsOf(hs[..i + 1]) == DocsOf(hs[..i]) + {hs[i].docPath}
  {
    assert hs[..i + 1] == hs[..i] + [hs[i]];
  }

  lemma DocsSeen(hs: seq<Hit>)
    ensures |DocsOf(hs)| < 2 <==> OneDocument(hs)
  {
    var paths := DocsOf(hs);
    if |paths| < 2 {
      forall h, g | h in hs && g in hs ensures h.docPath == g.docPath {
        if h.docPath != g.docPath {
          assert {h.docPath, g.docPath} <= paths;
          SubsetSize({h.docPath, g.docPath}, paths);
        }
      }
    } else if OneDocument(hs) {
      var h :| h in hs;
      assert paths <= {h.docPath};
      SubsetSize(paths, {h.docPath});
    }
  }

  /* ---- the greedy selection is the best one ---- */

  /** How many marked hits are from the given documents. */
  function Picked(hs: seq<Hit>, marks: seq<bool>, docs: set<string>): nat
    requires |marks| == |hs|
  {
    if hs == [] then 0
    else Picked(DropLast(hs), DropLast(marks), docs) + if Last(marks) && Last(hs).docPath in docs then 1 else 0
  }

  /** A selection of candidates: at most MAX_PER_DOC from any one document. */
  ghost predicate Selection(hs: seq<Hit>, marks: seq<bool>) {
    |marks| == |hs| && forall path :: Picked(hs, marks, {path}) <= MAX_PER_DOC
  }

  lemma {:induction false} PickedSplit(hs: seq<Hit>, marks: seq<bool>, docs: set<string>, path: string)
    requires |marks| == |hs| && path in docs
    ensures Picked(hs, marks, docs) == Picked(hs, marks, docs - {path}) + Picked(hs, marks, {path})
  {
    if hs != [] { PickedSplit(DropLast(hs), DropLast(marks), docs, path); }
  }

  /** Per document, the cap keeps as many as any selection could. */
  lemma {:induction false} PickedPerDoc(hs: seq<Hit>, marks: seq<bool>, path: string)
    requires |marks| == |hs|
    ensures Picked(hs, marks, {path}) <= InDoc(hs, path)
    ensures Picked(hs, WithinCap(hs), {path}) == Min(InDoc(hs, path), MAX_PER_DOC)
  {
    if hs != [] {
      PickedPerDoc(DropLast(hs), DropLast(marks), path);
      assert DropLast(WithinCap(hs)) == WithinCap(DropLast(hs));
    }
  }

  lemma {:induction false} CapPicksMost(hs: seq<Hit>, marks: seq<bool>, docs: set<string>)
    requires Selection(hs, marks)
    ensures Picked(hs, marks, docs) <= Picked(hs, WithinCap(hs), docs)
    decreases docs
  {
    if docs == {} {
      PickedFromNowhere(hs, marks);
    } else {
      var path :| path in docs;
      PickedSplit(hs, marks, docs, path);
      PickedSplit(hs, WithinCap(hs), docs, path);
      PickedPerDoc(hs, marks, path);
      CapPicksMost(hs, marks, docs - {path});
    }
  }

  lemma {:induction false} PickedFromNowhere(hs: seq<Hit>, marks: seq<bool>)
    requires |marks| == |hs|
    ensures Picked(hs, marks, {}) == 0
  {
    if hs != [] { PickedFromNowhere(DropLast(hs), DropLast(marks)); }
  }

  lemma {:induction false} PickedEverywhere(hs: seq<Hit>, marks: seq<bool>, docs: set<string>)
    requires |marks| == |hs| && forall h | h in hs :: h.docPath in docs
    ensures Picked(hs, marks, docs) == |Kept(hs, marks)|
  {
    if hs != [] {
      assert Last(hs) in hs;
      assert forall h | h in DropLast(hs) :: h in hs;
      PickedEverywhere(DropLast(hs), DropLast(marks), docs);
    }
  }

  lemma CapKeepsMost(hs: seq<Hit>, marks: seq<bool>)
    requires Selection(hs, marks)
    ensures |Kept(hs, marks)| <= |Kept(hs, WithinCap(hs))|
  {
    var docs := DocsOf(hs);
    CapPicksMost(hs, marks, docs);
    PickedEverywhere(hs, marks, docs);
    PickedEverywhere(hs, WithinCap(hs), docs);
  }

  lemma SelectionPrefix(hs: seq<Hit>, marks: seq<bool>)
    requires hs != [] && Selection(hs, marks)
    ensures Selection(DropLast(hs), DropLast(marks))
  {
    forall path ensures Picked(DropLast(hs), DropLast(marks), {path}) <= MAX_PER_DOC {
      assert Picked(hs, marks, {path}) <= MAX_PER_DOC;
    }
  }

  /** Place by place, `a` is at least as good as `b`, and it has as many places. */
  ghost predicate AtLeastAsGood(a: seq<Hit>, b: seq<Hit>) {
    |a| >= |b| && forall i | 0 <= i < |b| :: a[i].score >= b[i].score
  }

  lemma {:induction false} CapDominates(hs: seq<Hit>, marks: seq<bool>)
    requires Descending(hs) && Selection(hs, marks)
    ensures AtLeastAsGood(Kept(hs, WithinCap(hs)), Kept(hs, marks))
  {
    if hs != [] {
      SelectionPrefix(hs, marks);
      CapDominates(DropLast(hs), DropLast(marks));
      CapKeepsMost(hs, marks);
      var best, other := Kept(hs, WithinCap(hs)), Kept(hs, marks);
      assert DropLast(WithinCap(hs)) == WithinCap(DropLast(hs));
      forall i | 0 <= i < |other| ensures best[i].score >= other[i].score {
        assert best[i] in hs;
        if i == |Kept(DropLast(hs), DropLast(marks))| {
          assert other[i] == Last(hs);
        }
      }
    }
  }

  function Total(hs: seq<Hit>): real {
    if hs == [] then 0.0 else Total(DropLast(hs)) + Last(hs).score
  }

  lemma {:induction false} BetterTotal(a: seq<Hit>, b: seq<Hit>)
    requires AtLeastAsGood(a, b) && forall h | h in a :: h.score >= 0.0
    ensures Total(a) >= Total(b)
    decreases |a|
  {
    if a != [] {
      assert Last(a) in a;
      assert forall h | h in DropLast(a) :: h in a;
      if |a| > |b| {
        BetterTotal(DropLast(a), b);
      } else {
        BetterTotal(DropLast(a), DropLast(b));
      }
    }
  }

  /** With candidates from two documents or more, the answer's hits are a selection within the cap
      and within k, and place by place (so in total as well) no other such selection is better. */
  lemma GreedyIsOptimal(ranked: seq<Hit>, k: nat, marks: seq<bool>)
    requires Descending(ranked) && !OneDocument(ranked) && forall h | h in ranked :: h.score >= 0.0
    requires Selection(ranked, marks) && |Kept(ranked, marks)| <= k
    ensures AtLeastAsGood(Top(Capped(ranked), k), Kept(ranked, marks))
    ensures Total(Top(Capped(ranked), k)) >= Total(Kept(ranked, marks))
  {
    CapDominates(ranked, marks);
    var top := Top(Capped(ranked), k);
    assert forall h | h in top :: h in Capped(ranked) && h in ranked;
    BetterTotal(top, Kept(ranked, marks));
  }

  /** The other half: what comes out is itself such a selection. */
  lemma GreedyIsASelection(ranked: seq<Hit>, k: nat) returns (marks: seq<bool>)
    requires !OneDocument(ranked)
    ensures Selection(ranked, marks) && Kept(ranked, marks) == Top(Capped(ranked), k) && |Kept(ranked, marks)| <= k
  {
    forall path ensures Picked(ranked, WithinCap(ranked), {path}) <= MAX_PER_DOC {
      PickedPerDoc(ranked, WithinCap(ranked), path);
    }
    marks := Cut(ranked, WithinCap(ranked), k);
  }

  /** Marks for the first `k` of the marked hits. */
  lemma {:induction false} Cut(hs: seq<Hit>, marks: seq<bool>, k: nat) returns (cut: seq<bool>)
    requires Selection(hs, marks)
    ensures Selection(hs, cut) && Kept(hs, cut) == Top(Kept(hs, marks), k)
    ensures forall path :: Picked(hs, cut, {path}) <= Picked(hs, marks, {path})
  {
    if hs == [] {
      cut := [];
    } else {
      SelectionPrefix(hs, marks);
      var before := Cut(DropLast(hs), DropLast(marks), k);
      cut := before + [Last(marks) && |Kept(DropLast(hs), DropLast(marks))| < k];
      assert DropLast(cut) == before;
      forall path ensures Picked(hs, cut, {path}) <= Picked(hs, marks, {path}) <= MAX_PER_DOC {
        assert Picked(DropLast(hs), before, {path}) <= Picked(DropLast(hs), DropLast(marks), {path});
      }
    }
  }

  /* ---- the hits of one answer ---- */

  /** The rows the fused ids were found under, in whatever order the database gave them. */
  method Score(rows: seq<Hit>, score: map<int, real>) returns (hits: seq<Hit>)
    ensures hits == ScoredAll(rows, score)
    ensures |hits| == |rows| && forall i | 0 <= i < |rows| ::
              var fused := if rows[i].chunkId in score then score[rows[i].chunkId] else 0.0;
              hits[i] == rows[i].(score := if rows[i].status == "approved" then fused * 1.2 else fused)
  {
    hits := [];
    for i := 0 to |rows|
      invariant hits == ScoredAll(rows[..i], score)
    {
      var h := rows[i].(score := if rows[i].chunkId in score then score[rows[i].chunkId] else 0.0);
      if h.status == APPROVED {
        h := h.(score := h.score * BOOST);
      }
      hits := hits + [h];
    }
    assert rows[..|rows|] == rows;
  }

  /** The sorted hits through the cap and the top k. */
  method TopHits(ranked: array<Hit>, k: nat) returns (hits: seq<Hit>)
    modifies ranked
    ensures hits == Top(Capped(old(ranked[..])), k)
  {
    var n := CapPerDoc(ranked);
    hits := ranked[..n];
    if |hits| > k {
      hits := hits[..k];
    }
  }

  /** When every candidate is from one document the cap has nowhere to give its places to, and the
      answer is the plain top k. */
  lemma OneDocumentIsPlainTop(ranked: seq<Hit>, k: nat)
    requires OneDocument(ranked)
    ensures Top(Capped(ranked), k) == ranked[..Min(k, |ranked|)]
  {
  }

  /** Fusing, boosting and sorting together: whatever order equal scores come out in, every chunk
      both retrievers found is ranked above every chunk only one of them found. */
  lemma AgreementRanksFirst(vec: seq<int>, fts: seq<int>, score: map<int, real>, rows: seq<Hit>, ranked: seq<Hit>, i: nat, j: nat)
    requires Distinct(vec) && Distinct(fts) && |vec| <= CANDIDATE_POOL && |fts| <= CANDIDATE_POOL
    requires Fused(score, [vec, fts]) && SortedFrom(ranked, ScoredAll(rows, score))
    requires i < |ranked| && j < |ranked|
    requires ranked[i].chunkId in vec && ranked[i].chunkId in fts
    requires (ranked[j].chunkId in vec) != (ranked[j].chunkId in fts)
    ensures i < j
  {
    ScoreOfRanked(score, rows, ranked, i);
    ScoreOfRanked(score, rows, ranked, j);
    var a, b := ranked[i].chunkId, ranked[j].chunkId;
    assert Ranked([vec, fts], a) by { assert vec in [vec, fts]; }
    assert Ranked([vec, fts], b) by { assert vec in [vec, fts] && fts in [vec, fts]; }
    DominatesWithin(CANDIDATE_POOL, vec, fts);
    assert ranked[i].score > ranked[j].score;
  }

  lemma ScoreOfRanked(score: map<int, real>, rows: seq<Hit>, ranked: seq<Hit>, i: nat)
    requires SortedFrom(ranked, ScoredAll(rows, score)) && i < |ranked|
    ensures var h := ranked[i];
      h.score == Boosted(if h.chunkId in score then score[h.chunkId] else 0.0, h.status == APPROVED)
  {
    var h, scored := ranked[i], ScoredAll(rows, score);
    assert h in multiset(ranked) && h in multiset(scored);
    var k :| 0 <= k < |scored| && scored[k] == h;
  }

  /* ---- neighbours ---- */

  /** The chunk table by document and position, which is unique. */
  type Places = map<(int, int), string>

  function Place(h: Hit): (int, int) { (h.documentId, h.ord) }

  predicate IsRanked(hs: seq<Hit>, at: (int, int)) {
    exists h | h in hs :: Place(h) == at
  }

  /** What a hit reads beside it: a chunk that is there and is not a hit itself. */
  function Neighbour(hs: seq<Hit>, table: Places, at: (int, int)): Option<string> {
    if at in table && !IsRanked(hs, at) then Some(table[at]) else None
  }

  function Stitched(hs: seq<Hit>, table: Places, h: Hit): Hit {
    var before := Neighbour(hs, table, (h.documentId, h.ord - 1));
    var after := Neighbour(hs, table, (h.documentId, h.ord + 1));
    h.(content := (if before.Some? then before.value + "\n\n" else "") + h.content
                + (if after.Some? then "\n\n" + after.value else ""))
  }

  /** The text of the chunk right before, if there is one that is no hit, a blank line, its own text, a blank
      line and the text of the chunk right after, likewise; and nothing else changes. */
  ghost predicate IsStitched(hs: seq<Hit>, table: Places, h: Hit, t: Hit) {
    var doc, before, after := h.documentId, h.ord - 1, h.ord + 1;
    var lone := forall g | g in hs :: !(g.documentId == doc && g.ord == before);
    var last := forall g | g in hs :: !(g.documentId == doc && g.ord == after);
    && t == h.(content := t.content)
    && t.content == (if (doc, before) in table && lone then table[(doc, before)] + "\n\n" else "") + h.content
                    + (if (doc, after) in table && last then "\n\n" + table[(doc, after)] else "")
  }

  lemma StitchedIs(hs: seq<Hit>, table: Places, h: Hit)
    ensures IsStitched(hs, table, h, Stitched(hs, table, h))
  {
    RankedIff(hs, h.documentId, h.ord - 1);
    RankedIff(hs, h.documentId, h.ord + 1);
    hide IsRanked;
  }

  lemma RankedIff(hs: seq<Hit>, doc: int, ord: int)
    ensures !IsRanked(hs, (doc, ord)) <==> forall g | g in hs :: !(g.documentId == doc && g.ord == ord)
  {
  }

  predicate Beside(hs: seq<Hit>, at: (int, int)) {
    exists h | h in hs :: at == (h.documentId, h.ord - 1) || at == (h.documentId, h.ord + 1)
  }

  /** The places to look up: next to a hit, and not a hit. */
  ghost predicate AreWanted(wanted: set<(int, int)>, hs: seq<Hit>) {
    forall at :: at in wanted <==> Beside(hs, at) && !IsRanked(hs, at)
  }

  method Wanted(hits: seq<Hit>) returns (wanted: set<(int, int)>)
    ensures AreWanted(wanted, hits)
  {
    var ranked: set<(int, int)> := {};
    for i := 0 to |hits|
      invariant ranked == set j | 0 <= j < i :: Place(hits[j])
    {
      ranked := ranked + {Place(hits[i])};
    }
    wanted := {};
    for i := 0 to |hits|
      invariant forall at :: at in wanted <==> Beside(hits[..i], at) && at !in ranked
    {
      assert hits[..i + 1] == hits[..i] + [hits[i]];
      var doc, ord := hits[i].documentId, hits[i].ord;
      wanted := wanted + (set at | at in {(doc, ord - 1), (doc, ord + 1)} && at !in ranked);
    }
    assert hits[..|hits|] == hits;
  }

  /** Each hit grows by the chunks either side of it and is otherwise the hit it was: same number,
      same order, same identity, so a citation still names one hit. */
  method StitchNeighbours(hits: array<Hit>, table: Places)
    modifies hits
    ensures forall i | 0 <= i < hits.Length :: hits[i] == Stitched(old(hits[..]), table, old(hits[i]))
    ensures forall i | 0 <= i < hits.Length :: IsStitched(old(hits[..]), table, old(hits[i]), hits[i])
  {
    forall h, t | t == Stitched(hits[..], table, h) ensures IsStitched(hits[..], table, h, t) { StitchedIs(hits[..], table, h); }
    hide Stitched, Neighbour, IsStitched;
    ghost var all := hits[..];
    var wanted := Wanted(hits[..]);
    forall h | h in all ensures wanted == {} ==> Stitched(all, table, h) == h {
      StitchedFrom(all, table, wanted, h);
    }
    if wanted == {} {
      return;
    }
    var body := map at | at in wanted && at in table :: table[at];
    for i := 0 to hits.Length
      invariant forall j | i <= j < hits.Length :: hits[j] == all[j]
      invariant forall j | 0 <= j < i :: hits[j] == Stitched(all, table, all[j])
    {
      var h := hits[i];
      assert h == all[i] && h in all;
      StitchedFrom(all, table, wanted, h);
      var b := "";
      if (h.documentId, h.ord - 1) in body {
        b := b + (body[(h.documentId, h.ord - 1)] + "\n\n");
      }
      b := b + h.content;
      if (h.documentId, h.ord + 1) in body {
        b := b + ("\n\n" + body[(h.documentId, h.ord + 1)]);
      }
      hits[i] := h.(content := b);
    }
  }

  lemma StitchedFrom(hs: seq<Hit>, table: Places, wanted: set<(int, int)>, h: Hit)
    requires AreWanted(wanted, hs) && h in hs
    ensures var before, after := (h.documentId, h.ord - 1), (h.documentId, h.ord + 1);
      var body := map at | at in wanted && at in table :: table[at];
      Stitched(hs, table, h) == h.(content :=
        "" + (if before in body then body[before] + "\n\n" else "") + h.content
        + (if after in body then "\n\n" + body[after] else ""))
    ensures wanted == {} ==> Stitched(hs, table, h) == h
  {
    hide AreWanted, IsRanked, Beside, Neighbour;
    BesideItself(hs, h);
    NeighbourFrom(hs, table, wanted, (h.documentId, h.ord - 1));
    NeighbourFrom(hs, table, wanted, (h.documentId, h.ord + 1));
    assert "" + h.content + "" == h.content;
  }

  lemma NeighbourFrom(hs: seq<Hit>, table: Places, wanted: set<(int, int)>, at: (int, int))
    requires AreWanted(wanted, hs) && Beside(hs, at)
    ensures var body := map p | p in wanted && p in table :: table[p];
      Neighbour(hs, table, at) == if at in body then Some(body[at]) else None
  {
    hide Beside, IsRanked;
  }

  lemma BesideItself(hs: seq<Hit>, h: Hit)
    requires h in hs
    ensures Beside(hs, (h.documentId, h.ord - 1)) && Beside(hs, (h.documentId, h.ord + 1))
  {
  }

  /** Hit `i` reads the chunk at `at` beside it. */
  predicate Reads(hs: seq<Hit>, table: Places, i: nat, at: (int, int))
    requires i < |hs|
  {
    at in table && !IsRanked(hs, at)
    && at.0 == hs[i].documentId && (at.1 == hs[i].ord - 1 || at.1 == hs[i].ord + 1)
  }

  /** No hit's text is added to another hit, and any other chunk is added to two hits at most. */
  lemma AddedAtMostTwice(hs: seq<Hit>, table: Places, at: (int, int))
    requires forall i, j | 0 <= i < j < |hs| :: Place(hs[i]) != Place(hs[j])
    ensures IsRanked(hs, at) ==> forall i | 0 <= i < |hs| :: !Reads(hs, table, i, at)
    ensures |set i | 0 <= i < |hs| && Reads(hs, table, i, at)| <= 2
  {
    var readers := set i | 0 <= i < |hs| && Reads(hs, table, i, at);
    var left := set i | 0 <= i < |hs| && Place(hs[i]) == (at.0, at.1 - 1);
    var right := set i | 0 <= i < |hs| && Place(hs[i]) == (at.0, at.1 + 1);
    AtMostOne(left);
    AtMostOne(right);
    assert readers <= left + right;
    SubsetSize(readers, left + right);
  }

  lemma AtMostOne(s: set<int>)
    requires forall i, j | i in s && j in s :: i == j
    ensures |s| <= 1
  {
    if exists x :: x in s {
      var x :| x in s;
      assert forall y | y in s :: y == x;
      assert s == {x};
    } else {
      assert s == {};
    }
  }
}
