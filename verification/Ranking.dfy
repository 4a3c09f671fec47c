/** Ranking of internal/db/store.go: reciprocal rank fusion, the boost for approved chunks, the
    per-document cap, the top k, and stitching each hit to its neighbours. Scores are reals. */
module Ranking {
  import opened Text

  const RRF_K: real := 60.0
  const CANDIDATE_POOL: nat := 40
  const MAX_PER_DOC: nat := 3
  const BOOST: real := 1.2

  /* ---- fusion ---- */

  function Share(rank: nat): (r: real)
    ensures r > 0.0
  {
    1.0 / (RRF_K + rank as real)
  }

  /** What one ranking gives a chunk: a share for every place it holds. */
  function LegScore(order: seq<int>, id: int): (r: real)
    ensures r >= 0.0
  {
    if order == [] then 0.0
    else LegScore(DropLast(order), id) + if Last(order) == id then Share(|order| - 1) else 0.0
  }

  function FusedScore(rankings: seq<seq<int>>, id: int): (r: real)
    ensures r >= 0.0
  {
    if rankings == [] then 0.0 else FusedScore(DropLast(rankings), id) + LegScore(Last(rankings), id)
  }

  predicate Ranked(rankings: seq<seq<int>>, id: int) {
    exists order | order in rankings :: id in order
  }

  /** The score map of a list of rankings: a score for exactly the chunks some ranking holds. */
  ghost predicate Fused(score: map<int, real>, rankings: seq<seq<int>>) {
    && (forall id :: id in score <==> Ranked(rankings, id))
    && (forall id | id in score :: score[id] == FusedScore(rankings, id))
  }

  method Fuse(rankings: seq<seq<int>>) returns (score: map<int, real>)
    ensures Fused(score, rankings)
  {
    score := map[];
    for i := 0 to |rankings|
      invariant Fused(score, rankings[..i])
    {
      score := AddLeg(score, rankings[..i], rankings[i]);
      assert rankings[..i + 1] == rankings[..i] + [rankings[i]];
    }
    assert rankings[..|rankings|] == rankings;
  }

  ghost predicate PartlyFused(score: map<int, real>, done: seq<seq<int>>, order: seq<int>) {
    && (forall id :: id in score <==> Ranked(done, id) || id in order)
    && (forall id | id in score :: score[id] == FusedScore(done, id) + LegScore(order, id))
  }

  method AddLeg(before: map<int, real>, ghost done: seq<seq<int>>, order: seq<int>) returns (score: map<int, real>)
    requires Fused(before, done)
    ensures Fused(score, done + [order])
  {
    hide FusedScore, LegScore, Ranked, PartlyFused, Fused;
    score := before;
    NothingOfTheLeg(score, done);
    for rank := 0 to |order|
      invariant PartlyFused(score, done, order[..rank])
    {
      var id := order[rank];
      assert order[..rank + 1] == order[..rank] + [id];
      OneMorePlace(score, done, order[..rank], id);
      score := score[id := (if id in score then score[id] else 0.0) + Share(rank)];
    }
    assert order[..|order|] == order;
    AllOfTheLeg(score, done, order);
  }

  lemma NothingOfTheLeg(score: map<int, real>, done: seq<seq<int>>)
    requires Fused(score, done)
    ensures PartlyFused(score, done, [])
  {
    hide FusedScore, Ranked;
  }

  lemma OneMorePlace(score: map<int, real>, done: seq<seq<int>>, part: seq<int>, id: int)
    requires PartlyFused(score, done, part)
    ensures PartlyFused(score[id := (if id in score then score[id] else 0.0) + Share(|part|)], done, part + [id])
  {
    hide FusedScore, Ranked, LegScore, Share;
    AbsentScoresNothing(done, part, id);
    assert forall k :: LegScore(part + [id], k) == LegScore(part, k) + if id == k then Share(|part|) else 0.0 by { LegScoreOn(part, id); }
  }

  lemma LegScoreOn(part: seq<int>, id: int)
    ensures forall k :: LegScore(part + [id], k) == LegScore(part, k) + if id == k then Share(|part|) else 0.0
  {
    assert DropLast(part + [id]) == part;
  }

  lemma AllOfTheLeg(score: map<int, real>, done: seq<seq<int>>, order: seq<int>)
    requires PartlyFused(score, done, order)
    ensures Fused(score, done + [order])
  {
    hide LegScore, Ranked;
    assert DropLast(done + [order]) == done;
    RankedAppend(done, order);
  }

  lemma RankedAppend(done: seq<seq<int>>, order: seq<int>)
    ensures forall id :: Ranked(done + [order], id) <==> Ranked(done, id) || id in order
  {
    assert forall o :: o in done + [order] <==> o in done || o == order;
  }

  lemma {:induction false} AbsentFromLeg(order: seq<int>, id: int)
    requires id !in order
    ensures LegScore(order, id) == 0.0
  {
    if order != [] {
      assert Last(order) in order;
      AbsentFromLeg(DropLast(order), id);
    }
  }

  lemma {:induction false} AbsentScoresNothing(done: seq<seq<int>>, order: seq<int>, id: int)
    ensures !Ranked(done, id) ==> FusedScore(done, id) == 0.0
    ensures id !in order ==> LegScore(order, id) == 0.0
  {
    if id !in order { AbsentFromLeg(order, id); }
    if done != [] && !Ranked(done, id) {
      assert Last(done) in done;
      assert forall o | o in DropLast(done) :: o in done;
      AbsentFromLeg(Last(done), id);
      AbsentScoresNothing(DropLast(done), [], id);
    }
  }

  /** A chunk's score is the sum of its shares over all rankings. */
  lemma FusedOnce(rankings: seq<seq<int>>, order: seq<int>, id: int)
    ensures FusedScore([], id) == 0.0 && FusedScore(rankings + [order], id) == FusedScore(rankings, id) + LegScore(order, id)
  {
    assert DropLast(rankings + [order]) == rankings;
  }

  /* ---- two legs beat one ---- */

  predicate Distinct<T(==)>(xs: seq<T>) {
    forall i, j | 0 <= i < j < |xs| :: xs[i] != xs[j]
  }

  /** In a ranking without repeats a chunk scores the share of its one place. */
  lemma {:induction false} LegScoreAt(order: seq<int>, i: nat)
    requires Distinct(order) && i < |order|
    ensures LegScore(order, order[i]) == Share(i) == 1.0 / (60.0 + i as real)
  {
    if i == |order| - 1 {
      AbsentFromLeg(DropLast(order), Last(order));
    } else {
      LegScoreAt(DropLast(order), i);
    }
  }

  function Boosted(score: real, approved: bool): real {
    if approved then score * BOOST else score
  }

  /** What a chunk scores in two rankings, in numbers. */
  lemma ScoreInNumbers(vec: seq<int>, fts: seq<int>, i: nat, j: nat)
    requires Distinct(vec) && Distinct(fts) && i < |vec| && j < |fts|
    ensures vec[i] == fts[j] ==> FusedScore([vec, fts], vec[i]) == 1.0 / (60.0 + i as real) + 1.0 / (60.0 + j as real)
    ensures vec[i] !in fts ==> FusedScore([vec, fts], vec[i]) == 1.0 / (60.0 + i as real)
    ensures fts[j] !in vec ==> FusedScore([vec, fts], fts[j]) == 1.0 / (60.0 + j as real)
  {
    TwoLegScore(vec, fts, vec[i]);
    TwoLegScore(vec, fts, fts[j]);
    LegScoreAt(vec, i);
    LegScoreAt(fts, j);
    hide LegScore, FusedScore;
    if vec[i] !in fts { AbsentFromLeg(fts, vec[i]); }
    if fts[j] !in vec { AbsentFromLeg(vec, fts[j]); }
  }

  /** A chunk both legs found beats every chunk only one leg found, approved or not. */
  ghost predicate TwoLegsBeatOne(vec: seq<int>, fts: seq<int>) {
    forall a, b, approvedA, approvedB ::
      a in vec && a in fts && (b in vec) != (b in fts) ==>
        Boosted(FusedScore([vec, fts], a), approvedA) > Boosted(FusedScore([vec, fts], b), approvedB)
  }

  ghost predicate Dominates(pool: nat) {
    forall vec, fts | Distinct(vec) && Distinct(fts) && |vec| <= pool && |fts| <= pool ::
      TwoLegsBeatOne(vec, fts)
  }

  lemma TwoLegScore(vec: seq<int>, fts: seq<int>, id: int)
    ensures FusedScore([vec, fts], id) == LegScore(vec, id) + LegScore(fts, id)
  {
    assert DropLast([vec, fts]) == [vec] && DropLast([vec]) == [];
    assert FusedScore([vec], id) == LegScore(vec, id);
  }

  lemma ShareIsAntitone(i: nat, j: nat)
    requires i <= j
    ensures Share(i) >= Share(j)
  {
    var x, y := RRF_K + i as real, RRF_K + j as real;
    assert 1.0 / x - 1.0 / y == (y - x) / (x * y);
  }

  lemma DominatesWithin(pool: nat, vec: seq<int>, fts: seq<int>)
    requires pool <= CANDIDATE_POOL
    requires Distinct(vec) && Distinct(fts) && |vec| <= pool && |fts| <= pool
    ensures TwoLegsBeatOne(vec, fts)
  {
    hide LegScore, FusedScore;
    forall a, b, approvedA, approvedB | a in vec && a in fts && (b in vec) != (b in fts)
      ensures Boosted(FusedScore([vec, fts], a), approvedA) > Boosted(FusedScore([vec, fts], b), approvedB)
    {
      TwoLegScore(vec, fts, a);
      TwoLegScore(vec, fts, b);
      var i :| 0 <= i < |vec| && vec[i] == a;
      var j :| 0 <= j < |fts| && fts[j] == a;
      LegScoreAt(vec, i);
      LegScoreAt(fts, j);
      ShareIsAntitone(i, CANDIDATE_POOL - 1);
      ShareIsAntitone(j, CANDIDATE_POOL - 1);
      var leg, other := if b in vec then vec else fts, if b in vec then fts else vec;
      var k :| 0 <= k < |leg| && leg[k] == b;
      LegScoreAt(leg, k);
      AbsentFromLeg(other, b);
      ShareIsAntitone(0, k);
      assert Share(CANDIDATE_POOL - 1) == 1.0 / 99.0 && Share(0) == 1.0 / 60.0;
    }
  }

  /** The pool is as wide as it can be: with one more candidate a leg, a chunk ranked last by both
      only ties with an approved one ranked first by one. */
  lemma DominatesIff(pool: nat)
    ensures Dominates(pool) <==> pool <= CANDIDATE_POOL
  {
    if pool <= CANDIDATE_POOL {
      forall vec, fts | Distinct(vec) && Distinct(fts) && |vec| <= pool && |fts| <= pool
        ensures TwoLegsBeatOne(vec, fts)
      {
        DominatesWithin(pool, vec, fts);
      }
    } else {
      var n := CANDIDATE_POOL;
      var vec := seq(n, i => i + 1) + [0];
      var fts := seq(n, i => -1 - i) + [0];
      assert vec[n] == 0 && fts[n] == 0 && vec[0] == 1;
      LegScoreAt(vec, n);
      LegScoreAt(fts, n);
      LegScoreAt(vec, 0);
      AbsentFromLeg(fts, 1);
      TwoLegScore(vec, fts, 0);
      TwoLegScore(vec, fts, 1);
      assert Share(n) == 1.0 / 100.0 && Share(0) == 1.0 / 60.0;
      assert Boosted(FusedScore([vec, fts], 0), false) == Boosted(FusedScore([vec, fts], 1), true);
      assert 0 in vec && 0 in fts && 1 in vec && 1 !in fts;
      assert !TwoLegsBeatOne(vec, fts);
    }
  }
}
