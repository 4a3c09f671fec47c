/** The corpus signature (internal/db/cache.go, internal/rag/qa.go): how many documents, how many
    chunks, the newest write, and the configuration. Removed documents keep their row and so their
    time, which is why no change to the corpus goes unseen but one. */
module Signatures {
  import opened Text
  import opened Chunking
  import opened Paths
  import opened Corpus
  import opened Tickets
  import opened Ingest
  import opened QaLoop
  import opened Agreement
  import opened Partings

  datatype Config = Config(topK: nat, budget: string, prompt: string)

  datatype Signature = Signature(documents: nat, chunks: nat, newest: int, config: Config)

  ghost predicate IsNewest(t: Tables, n: int) {
    if t.documents == map[] then n == -1
    else (exists p :: p in t.documents && t.documents[p].updatedAt == n)
         && forall p | p in t.documents :: t.documents[p].updatedAt <= n
  }

  /** The MAX over every row, removed ones included; -1 stands for the NULL of an empty table. */
  ghost function Newest(t: Tables): (n: int)
    ensures IsNewest(t, n)
  {
    NewestExists(t, t.documents.Keys);
    var n :| IsNewest(t, n); n
  }

  lemma {:induction false} NewestExists(t: Tables, ps: set<string>)
    requires ps <= t.documents.Keys
    ensures ps == t.documents.Keys ==> exists n :: IsNewest(t, n)
    ensures ps != {} ==> exists p :: p in ps && forall q | q in ps :: t.documents[q].updatedAt <= t.documents[p].updatedAt
  {
    if ps == {} {
      if t.documents == map[] { assert IsNewest(t, -1); }
    } else {
      var x :| x in ps;
      var rest := ps - {x};
      NewestExists(t, rest);
      var p := x;
      if rest != {} {
        var m :| m in rest && forall q | q in rest :: t.documents[q].updatedAt <= t.documents[m].updatedAt;
        p := if t.documents[m].updatedAt > t.documents[x].updatedAt then m else x;
      }
      assert forall q | q in ps :: q == x || q in rest;
      assert p in ps && forall q | q in ps :: t.documents[q].updatedAt <= t.documents[p].updatedAt;
      if ps == t.documents.Keys { assert IsNewest(t, t.documents[p].updatedAt); }
    }
  }

  ghost function SignatureOf(t: Tables, c: Config): Signature {
    Signature(|t.documents|, |t.chunks|, Newest(t), c)
  }

  /** Every row was written in the past. */
  ghost predicate Dated(w: World) {
    forall p | p in w.tables.documents :: w.tables.documents[p].updatedAt < w.now
  }

  /** The order the corpus moves up in: newer, or as new with fewer chunks. */
  ghost predicate Below(t: Tables, u: Tables) {
    Newest(t) < Newest(u) || (Newest(t) == Newest(u) && |t.chunks| > |u.chunks|)
  }

  ghost predicate AtMost(t: Tables, u: Tables) { t == u || Below(t, u) }

  /** The corpus with nothing approved: two corpora that are the same in this are the same, approvals
      aside. */
  function Bare(t: Tables): Tables {
    t.(chunks := map c | c in t.chunks :: t.chunks[c].(approved := false))
  }

  lemma BareSigns(t: Tables, c: Config)
    ensures Newest(Bare(t)) == Newest(t) && |Bare(t).chunks| == |t.chunks| && SignatureOf(Bare(t), c) == SignatureOf(t, c)
  {
    SameTimesSameNewest(t, Bare(t));
    assert Bare(t).chunks.Keys == t.chunks.Keys;
    assert |Bare(t).chunks.Keys| == |t.chunks.Keys|;
    hide Newest, IsNewest;
  }

  lemma SameBareSameSignature(t: Tables, u: Tables, c: Config)
    requires Bare(t) == Bare(u)
    ensures Newest(t) == Newest(u) && |t.chunks| == |u.chunks| && SignatureOf(t, c) == SignatureOf(u, c)
  {
    BareSigns(t, c);
    BareSigns(u, c);
    hide Bare, Newest, IsNewest;
  }

  lemma ApprovedAside(t: Tables, path: string)
    ensures Bare(Approved(t, path)) == Bare(t)
  {
    var u := Approved(t, path);
    assert u.chunks.Keys == t.chunks.Keys;
    assert Bare(u).chunks == Bare(t).chunks;
  }

  /** Two signatures are the same exactly when the counts of documents and of chunks, the newest time and the
      configuration are. */
  lemma SignatureIff(t: Tables, u: Tables, c: Config, d: Config)
    ensures SignatureOf(t, c) == SignatureOf(u, d)
       <==> |t.documents| == |u.documents| && |t.chunks| == |u.chunks| && Newest(t) == Newest(u) && c == d
  {
    hide Newest, IsNewest;
  }

  lemma AtMostIsTransitive(t: Tables, u: Tables, v: Tables)
    requires AtMost(t, u) && AtMost(u, v)
    ensures AtMost(t, v) && (t != u || u != v ==> Below(t, v))
  {
    hide IsNewest, Newest;
  }

  lemma BelowIsStrict(t: Tables, u: Tables, c: Config)
    requires Below(t, u)
    ensures SignatureOf(t, c) != SignatureOf(u, c) && t != u
  {
    hide IsNewest, Newest;
  }

  /* ---- one write ---- */

  lemma RemovalAdvances(w: World, r: Rules, path: string)
    requires Indexed(w, r) && Dated(w)
    ensures var w' := Unlinked(w, path);
      Dated(w') && Indexed(w', r) && (if Live(w.tables, path) then Below(w.tables, w'.tables) else w'.tables == w.tables)
  {
    hide *;
    RemovalKeeps(w, r, path);
    if Live(w.tables, path) {
      IndexedIsSound(w, r);
      var c := HasChunk(w, r, path);
      RemovedCounts(w.tables, path, w.now);
      OwnHas(w.tables, w.tables.documents[path].id, c);
      FewerIsBelow(w.tables, Removed(w.tables, path, w.now));
    }
  }

  lemma RemovalKeeps(w: World, r: Rules, path: string)
    requires Indexed(w, r) && Dated(w)
    ensures var w' := Unlinked(w, path);
      && Dated(w') && Indexed(w', r) && w'.tables == Removed(w.tables, path, w.now)
      && (!Live(w.tables, path) ==> w'.tables == w.tables)
      && (Live(w.tables, path) ==> path in w.tables.documents)
  {
    hide Derived, Without;
    RemoveKeepsDerived(w.tables, path, w.now, r.split, r.embed);
  }

  lemma OwnHas(t: Tables, id: nat, c: nat)
    requires c in t.chunks && t.chunks[c].documentId == id
    ensures |Own(t, id)| > 0
  {
    assert c in Own(t, id);
  }

  lemma FewerIsBelow(t: Tables, u: Tables)
    requires Newest(u) == Newest(t) && |u.chunks| < |t.chunks|
    ensures Below(t, u)
  {
    hide Newest, IsNewest;
  }

  /** A removal takes the document's own chunks away, and no time changes. */
  lemma RemovedCounts(t: Tables, path: string, now: nat)
    requires Sound(t) && Live(t, path)
    ensures var u := Removed(t, path, now);
      && path in t.documents && u.documents.Keys == t.documents.Keys && !Live(u, path)
      && Newest(u) == Newest(t) && |u.documents| == |t.documents|
      && |t.chunks| == |u.chunks| + |Own(t, t.documents[path].id)|
  {
    LiveIsIn(t, path);
    hide *;
    var u, row := Removed(t, path, now), t.documents[path].(deletedAt := Some(now));
    RemovedFacts(t, path, now);
    WritesFacts(t, u, path, row);
    OwnGone(t, u, row.id);
    OneRowWritten(t, u, path, row);
    SameTimesSameNewest(t, u);
  }

  lemma LiveIsIn(t: Tables, path: string)
    requires Live(t, path)
    ensures path in t.documents
  {
  }

  lemma OneRowWritten(t: Tables, u: Tables, path: string, row: DocRow)
    requires path in t.documents && u.documents == t.documents[path := row] && row.updatedAt == t.documents[path].updatedAt
    ensures u.documents.Keys == t.documents.Keys && |u.documents| == |t.documents|
    ensures forall p | p in t.documents :: u.documents[p].updatedAt == t.documents[p].updatedAt
    ensures row.deletedAt.Some? ==> !Live(u, path)
  {
    assert u.documents.Keys == t.documents.Keys;
    assert |u.documents.Keys| == |t.documents.Keys|;
  }

  lemma HasChunk(w: World, r: Rules, path: string) returns (c: nat)
    requires Indexed(w, r) && Live(w.tables, path)
    ensures c in w.tables.chunks && w.tables.chunks[c].documentId == w.tables.documents[path].id
  {
    var row := w.tables.documents[path];
    assert DocDerived(w.tables, r.split, path);
    var base :| HoldsChunks(w.tables, row.id, r.split(row.doc.body), base);
    c := base;
    assert |r.split(row.doc.body)| > 0;
  }

  lemma WritesFacts(t: Tables, u: Tables, path: string, row: DocRow)
    requires Writes(t, u, path, row)
    ensures u.documents == t.documents[path := row] && Numbered(t) && Numbered(u) && SameElsewhere(t, u, row.id)
    ensures forall p | p in t.documents && p != path :: t.documents[p].id != row.id
  {
    SoundIsNumbered(t);
    SoundIsNumbered(u);
    hide Sound, SameElsewhere;
  }

  lemma SameTimesSameNewest(t: Tables, u: Tables)
    requires u.documents.Keys == t.documents.Keys
    requires forall p | p in t.documents :: u.documents[p].updatedAt == t.documents[p].updatedAt
    ensures Newest(u) == Newest(t)
  {
    var a, b := Newest(t), Newest(u);
    if t.documents != map[] {
      assert u.documents.Keys != {};
      var p :| p in t.documents && t.documents[p].updatedAt == a;
      var q :| q in u.documents && u.documents[q].updatedAt == b;
      assert u.documents[p].updatedAt <= b && t.documents[q].updatedAt <= a;
    } else {
      assert u.documents.Keys == {};
    }
  }

  lemma IngestAdvances(w: World, r: Rules, d: Doc, fails: bool)
    requires Indexed(w, r) && Dated(w)
    ensures var w' := Brought(w, r, d, fails);
      Dated(w') && Indexed(w', r) && (if r.split(d.body) == [] || fails then w' == w else Below(w.tables, w'.tables))
  {
    BroughtIsIndexed(w, r, d, fails);
    var cs := r.split(d.body);
    if cs != [] && !fails {
      IngestedFacts(w.tables, d, cs, VectorsFor(cs, r.embed), w.now);
      hide Ingested, Newest, Writes, VectorsFor;
      var w' := Brought(w, r, d, fails);
      WritesPath(w.tables, w'.tables, d.path, DocRow(DocId(w.tables, d.path), d, w.now, None));
      NewestIsNow(w, w'.tables, d.path);
    }
  }

  lemma NewestIsNow(w: World, u: Tables, path: string)
    requires Dated(w) && path in u.documents && u.documents[path].updatedAt == w.now
    requires u.documents.Keys == w.tables.documents.Keys + {path}
    requires forall p | p in w.tables.documents && p != path :: u.documents[p] == w.tables.documents[p]
    ensures Newest(u) == w.now && Newest(w.tables) < w.now
  {
    assert IsNewest(u, Newest(u)) && IsNewest(w.tables, Newest(w.tables));
    var q :| q in u.documents && u.documents[q].updatedAt == Newest(u);
  }

  /* ---- whole operations ---- */

  /** The document at `path` has a chunk that nobody has approved. */
  predicate HasUnapproved(t: Tables, path: string) {
    path in t.documents && exists c | c in t.chunks :: t.chunks[c].documentId == t.documents[path].id && !t.chunks[c].approved
  }

  predicate NoOldName(w: World, id: nat, rel: string)
    requires id in w.desk.tickets
  {
    var old_ := w.desk.tickets[id].docPath;
    old_ == "" || old_ == rel || !Live(w.tables, old_)
  }

  /** The one operation the signature misses: a confirm whose answer has nothing to index, under a
      name that keeps a document with chunks not approved yet, when there is no old name to go. */
  predicate Overlooked(w: World, r: Rules, op: Op) {
    && op.Confirm? && op.id in w.desk.tickets && Trim(op.answer) != ""
    && var t := w.desk.tickets[op.id];
       var rel := QaPath(op.id, op.name, t.docPath);
       && rel.Some? && r.split(QaMarkdown(t.question, Trim(op.answer))) == []
       && NoOldName(w, op.id, rel.value) && HasUnapproved(w.tables, rel.value)
  }

  lemma ApprovalChangesIff(t: Tables, path: string)
    ensures Approved(t, path) != t <==> HasUnapproved(t, path)
  {
    var u := Approved(t, path);
    if HasUnapproved(t, path) {
      var c :| c in t.chunks && t.chunks[c].documentId == t.documents[path].id && !t.chunks[c].approved;
      assert u.chunks[c].approved;
    } else {
      assert u.chunks == t.chunks;
    }
  }

  /** Another corpus, but only in what is approved. */
  ghost predicate Unseen(t: Tables, u: Tables) { t != u && Bare(t) == Bare(u) }

  lemma ConfirmAdvances(w: World, r: Rules, id: nat, answer: string, rel: string, fails: bool)
    requires Indexed(w, r) && Dated(w) && id in w.desk.tickets
    ensures var w' := ConfirmedAs(w, r, id, answer, rel, fails);
      Dated(w') &&
      if r.split(QaMarkdown(w.desk.tickets[id].question, answer)) == [] && NoOldName(w, id, rel) && HasUnapproved(w.tables, rel)
      then Unseen(w.tables, w'.tables) else AtMost(w.tables, w'.tables)
  {
    hide Removed, Ingested, Approved, QaMarkdown, Newest, Derived, HasUnapproved;
    var t := w.desk.tickets[id];
    var w1 := OldNameGone(w, id, rel);
    OldNameAdvances(w, r, id, rel);
    var d := AnswerDoc(rel, t.question, answer);
    if r.split(d.body) == [] || !fails {
      IngestAdvances(w1, r, d, fails);
      var w2 := Brought(w1, r, d, fails);
      ApprovalAdvances(w2, r, rel);
      AtMostIsTransitive(w.tables, w1.tables, w2.tables);
    }
  }

  lemma OldNameAdvances(w: World, r: Rules, id: nat, rel: string)
    requires Indexed(w, r) && Dated(w) && id in w.desk.tickets
    ensures var w1 := OldNameGone(w, id, rel);
      Indexed(w1, r) && Dated(w1) && if NoOldName(w, id, rel) then w1.tables == w.tables else Below(w.tables, w1.tables)
  {
    RemovalAdvances(w, r, w.desk.tickets[id].docPath);
    hide Removed, Newest, Derived;
  }

  lemma ApprovalAdvances(w: World, r: Rules, rel: string)
    requires Indexed(w, r) && Dated(w)
    ensures var u := Approved(w.tables, rel);
      && u.documents == w.tables.documents
      && (if HasUnapproved(w.tables, rel) then Unseen(w.tables, u) else u == w.tables)
      && (forall t :: Below(t, w.tables) ==> Below(t, u))
  {
    hide Approved, Newest, HasUnapproved, Derived, Bare, IsNewest;
    IndexedIsSound(w, r);
    ApprovedAside(w.tables, rel);
    ApprovedFacts(w.tables, rel);
    ApprovalChangesIff(w.tables, rel);
    SameBareSameSignature(w.tables, Approved(w.tables, rel), Config(0, "", ""));
  }

  lemma NextAdvances(w: World, r: Rules, op: Op)
    requires Indexed(w, r) && Dated(w)
    ensures Dated(Next(w, r, op))
    ensures if Overlooked(w, r, op) then Unseen(w.tables, Next(w, r, op).tables) else AtMost(w.tables, Next(w, r, op).tables)
  {
    hide Unlinked, Brought, QaMarkdown, QaPath, Derived, ConfirmedAs, Below, Unseen, HasUnapproved, NoOldName;
    match op {
      case Confirm(id, answer, name, fails) =>
        if id in w.desk.tickets && Trim(answer) != "" {
          var rel := QaPath(id, name, w.desk.tickets[id].docPath);
          if rel.Some? {
            ConfirmAdvances(w, r, id, Trim(answer), rel.value, fails);
          }
        }
      case Retract(id) => if id in w.desk.tickets { RemovalAdvances(w, r, w.desk.tickets[id].docPath); }
      case Reject(id, _) => if id in w.desk.tickets { RemovalAdvances(w, r, w.desk.tickets[id].docPath); }
      case Delete(id) => if id in w.desk.tickets { RemovalAdvances(w, r, w.desk.tickets[id].docPath); }
      case Save(doc, fails) => IngestAdvances(w, r, doc, fails);
      case Remove(path) => RemovalAdvances(w, r, path);
      case _ =>
    }
  }

  /** Exactly one kind of operation changes the corpus and leaves its signature. */
  lemma ChangeIsSeenIff(w: World, r: Rules, op: Op, c: Config)
    requires Indexed(w, r) && Dated(w)
    ensures var t' := Next(w, r, op).tables;
      t' != w.tables && SignatureOf(t', c) == SignatureOf(w.tables, c) <==> Overlooked(w, r, op)
  {
    hide Next, Overlooked, Newest, IsNewest, Bare, SignatureOf, Below;
    NextAdvances(w, r, op);
    var t' := Next(w, r, op).tables;
    if Below(w.tables, t') { BelowIsStrict(w.tables, t', c); }
    if Overlooked(w, r, op) { SameBareSameSignature(w.tables, t', c); }
  }

  /** Approvals aside, every operation moves the corpus strictly up or leaves it alone. */
  lemma NextAdvancesAside(w: World, r: Rules, op: Op)
    requires Indexed(w, r) && Dated(w)
    ensures AtMost(Bare(w.tables), Bare(Next(w, r, op).tables))
  {
    hide Next, Overlooked, Newest, IsNewest, Bare, Indexed, Dated;
    NextAdvances(w, r, op);
    BareSigns(w.tables, Config(0, "", ""));
    BareSigns(Next(w, r, op).tables, Config(0, "", ""));
  }

  /** It happens: a document saved under the name that an open ticket's answer will get, and then an
      answer with nothing to index. */
  lemma OverlookedHappens(r: Rules, q: string, a: string, d: Doc, fails: bool)
    requires Trim(q) != "" && Trim(a) != "" && r.split(QaMarkdown(Trim(q), Trim(a))) == []
    requires d.path == FIRST && Trim(d.body) != "" && r.split(d.body) != []
    ensures Overlooked(Run(START, r, [OpenTicket(q, ""), Save(d, false)]), r, Confirm(0, a, "", fails))
  {
    hide QaPath, QaMarkdown, Run, Normalise, HasUnapproved, Ingested, Indexed, Agrees, Trim, Live;
    var w1 := Next(START, r, OpenTicket(q, ""));
    TwoSteps(START, r, OpenTicket(q, ""), Save(d, false));
    AskedOnce(r, q);
    FirstIs("");
    SavedIsUnapproved(w1, r, d);
  }

  lemma SavedIsUnapproved(w: World, r: Rules, d: Doc)
    requires Indexed(w, r) && Trim(d.body) != "" && r.split(d.body) != []
    ensures HasUnapproved(Next(w, r, Save(d, false)).tables, d.path)
  {
    SaveIs(w, r, d);
    hide *;
    IndexedIsSound(w, r);
    var cs := r.split(d.body);
    var vs, u := VectorsFor(cs, r.embed), Ingested(w.tables, d, cs, VectorsFor(cs, r.embed), w.now);
    IngestedFacts(w.tables, d, cs, vs, w.now);
    WritesPath(w.tables, u, d.path, DocRow(DocId(w.tables, d.path), d, w.now, None));
    FirstChunk(u, u.documents[d.path].id, cs, w.tables.nextChunk);
    Unapproved(u, d.path, w.tables.nextChunk);
  }

  lemma SaveIs(w: World, r: Rules, d: Doc)
    requires Trim(d.body) != "" && r.split(d.body) != []
    ensures var cs := r.split(d.body);
      Next(w, r, Save(d, false)).tables == Ingested(w.tables, d, cs, VectorsFor(cs, r.embed), w.now)
  {
    hide Ingested, VectorsFor;
  }

  lemma FirstChunk(t: Tables, id: nat, cs: seq<Chunk>, base: nat)
    requires HoldsChunks(t, id, cs, base) && cs != []
    ensures base in t.chunks && t.chunks[base].documentId == id
  {
  }

  lemma Unapproved(t: Tables, path: string, c: nat)
    requires path in t.documents && c in t.chunks && t.chunks[c].documentId == t.documents[path].id && !t.chunks[c].approved
    ensures HasUnapproved(t, path)
  {
  }

  /* ---- along a run ---- */

  ghost predicate Rising(log: seq<Tables>) {
    forall i, j | 0 <= i <= j < |log| :: AtMost(log[i], log[j])
  }

  lemma RisesOn(log: seq<Tables>, t: Tables)
    requires Rising(log) && log != [] && AtMost(Last(log), t)
    ensures Rising(log + [t])
  {
    hide AtMost;
    var log' := log + [t];
    forall i, j | 0 <= i <= j < |log'| ensures AtMost(log'[i], log'[j]) {
      if j < |log| {
        assert AtMost(log[i], log[j]);
      } else if i < |log| {
        assert AtMost(log[i], log[|log| - 1]);
        AtMostIsTransitive(log[i], Last(log), t);
      } else {
        SelfIsAtMost(t);
      }
    }
  }

  lemma SelfIsAtMost(t: Tables)
    ensures AtMost(t, t)
  {
  }

  /** Signatures never recur: two times at which the corpus had the same signature are times of the
      same corpus, and it was that one all the time between them. */
  lemma NeverRecurs(log: seq<Tables>, i: nat, j: nat, c: Config)
    requires Rising(log) && i <= j < |log| && SignatureOf(log[i], c) == SignatureOf(log[j], c)
    ensures forall k | i <= k <= j :: log[k] == log[i]
  {
    forall k | i <= k <= j ensures log[k] == log[i] {
      assert AtMost(log[i], log[k]) && AtMost(log[k], log[j]);
      hide AtMost, Rising, Newest;
      AtMostIsTransitive(log[i], log[k], log[j]);
      if Below(log[i], log[j]) { BelowIsStrict(log[i], log[j], c); assert false; }
    }
  }

  /** Each corpus of a log, approvals aside. */
  function Aside(log: seq<Tables>): (bare: seq<Tables>)
    ensures |bare| == |log| && forall i | 0 <= i < |log| :: bare[i] == Bare(log[i])
  {
    seq(|log|, i requires 0 <= i < |log| => Bare(log[i]))
  }

  lemma NeverRecursAside(log: seq<Tables>, i: nat, j: nat, c: Config)
    requires Rising(Aside(log)) && i <= j < |log| && SignatureOf(log[i], c) == SignatureOf(log[j], c)
    ensures forall k | i <= k <= j :: Bare(log[k]) == Bare(log[i])
  {
    hide Rising, Bare, Aside, SignatureOf;
    BareSigns(log[i], c);
    BareSigns(log[j], c);
    NeverRecurs(Aside(log), i, j, c);
    forall k | i <= k <= j ensures Bare(log[k]) == Bare(log[i]) {
      assert Aside(log)[k] == Aside(log)[i];
    }
  }

  lemma RisesOnAside(log: seq<Tables>, t: Tables)
    requires Rising(Aside(log)) && log != [] && AtMost(Bare(Last(log)), Bare(t))
    ensures Rising(Aside(log + [t]))
  {
    hide Rising, AtMost, Bare, Aside;
    assert Aside(log + [t]) == Aside(log) + [Bare(t)];
    RisesOn(Aside(log), Bare(t));
  }

  /** Every corpus of a run, from the one it starts from. */
  function Corpora(w: World, r: Rules, ops: seq<Op>): (log: seq<Tables>)
    ensures |log| == |ops| + 1 && log[0] == w.tables
    decreases |ops|
  {
    [w.tables] + if ops == [] then [] else Corpora(Next(w, r, ops[0]), r, ops[1..])
  }

  /** No operation of a run is one that the signature misses. */
  predicate NoneOverlooked(w: World, r: Rules, ops: seq<Op>)
    decreases |ops|
  {
    ops != [] ==> !Overlooked(w, r, ops[0]) && NoneOverlooked(Next(w, r, ops[0]), r, ops[1..])
  }

  lemma RisesBefore(t: Tables, log: seq<Tables>)
    requires Rising(log) && log != [] && AtMost(t, log[0])
    ensures Rising([t] + log)
  {
    hide AtMost;
    var log' := [t] + log;
    forall i, j | 0 <= i <= j < |log'| ensures AtMost(log'[i], log'[j]) {
      if j == 0 {
        SelfIsAtMost(t);
      } else if i == 0 {
        assert AtMost(log[0], log[j - 1]);
        AtMostIsTransitive(t, log[0], log[j - 1]);
      } else {
        assert AtMost(log[i - 1], log[j - 1]);
      }
    }
  }

  lemma {:induction false} CorporaRise(w: World, r: Rules, ops: seq<Op>)
    requires Indexed(w, r) && Dated(w)
    ensures Rising(Aside(Corpora(w, r, ops)))
    ensures NoneOverlooked(w, r, ops) ==> Rising(Corpora(w, r, ops))
    decreases |ops|
  {
    hide Indexed, Dated, Next, Overlooked, Rising, AtMost, Unseen, Bare, Aside;
    if ops == [] {
      OneRises(w.tables);
      OneRises(Bare(w.tables));
      assert Corpora(w, r, ops) == [w.tables] && Aside([w.tables]) == [Bare(w.tables)];
    } else {
      var w', rest := Next(w, r, ops[0]), Corpora(Next(w, r, ops[0]), r, ops[1..]);
      NextIsIndexed(w, r, ops[0]);
      NextAdvances(w, r, ops[0]);
      NextAdvancesAside(w, r, ops[0]);
      CorporaRise(w', r, ops[1..]);
      RisesBefore(Bare(w.tables), Aside(rest));
      assert Aside([w.tables] + rest) == [Bare(w.tables)] + Aside(rest);
      if NoneOverlooked(w, r, ops) { RisesBefore(w.tables, rest); }
    }
  }

  lemma OneRises(t: Tables)
    ensures Rising([t])
  {
    SelfIsAtMost(t);
    hide AtMost;
  }

  /** Over every run of whole operations, two moments with one signature are moments of one corpus,
      unchanged in between: approvals aside in any run, and altogether in one with no operation that
      the signature misses. */
  lemma RunNeverRecurs(w: World, r: Rules, ops: seq<Op>, i: nat, j: nat, c: Config)
    requires Indexed(w, r) && Dated(w)
    requires i <= j <= |ops| && SignatureOf(Corpora(w, r, ops)[i], c) == SignatureOf(Corpora(w, r, ops)[j], c)
    ensures var log := Corpora(w, r, ops);
      && (forall k | i <= k <= j :: Bare(log[k]) == Bare(log[i]))
      && (NoneOverlooked(w, r, ops) ==> forall k | i <= k <= j :: log[k] == log[i])
  {
    hide *;
    var log := Corpora(w, r, ops);
    CorporaRise(w, r, ops);
    NeverRecursAside(log, i, j, c);
    if NoneOverlooked(w, r, ops) { NeverRecurs(log, i, j, c); }
  }

  /* ---- what the two assumptions are for ---- */

  /** The clock has to move between writes: a document saved again at the same reading of it, with
      another text and as many chunks, is another corpus with the same signature. */
  lemma SameTimeIsUnseen(t: Tables, d: Doc, d': Doc, cs: seq<Chunk>, cs': seq<Chunk>, vs: seq<Vector>, vs': seq<Vector>, now: nat, c: Config)
    requires Sound(t) && d'.path == d.path && d'.body != d.body && |vs| == |cs| == |cs'| == |vs'|
    ensures var t1 := Ingested(t, d, cs, vs, now); var t2 := Ingested(t1, d', cs', vs', now);
      && SignatureOf(t2, c) == SignatureOf(t1, c)
      && LiveBody(t1, d.path) == Some(d.body) && LiveBody(t2, d.path) == Some(d'.body)
  {
    hide *;
    var t1 := Ingested(t, d, cs, vs, now);
    var t2 := Ingested(t1, d', cs', vs', now);
    IngestedFacts(t, d, cs, vs, now);
    var row := DocRow(DocId(t, d.path), d, now, None);
    WritesSound(t, t1, d.path, row);
    WritesFacts(t, t1, d.path, row);
    DocIdIs(t1, d.path);
    IngestedFacts(t1, d', cs', vs', now);
    var row' := DocRow(row.id, d', now, None);
    WritesFacts(t1, t2, d.path, row');
    OneRowWritten(t1, t2, d.path, row');
    SameTimesSameNewest(t1, t2);
    CountsAgree(t1, t2, row.id, cs, t.nextChunk, cs', t1.nextChunk);
    LiveBodyIs(t1, d.path, row);
    LiveBodyIs(t2, d.path, row');
    SignatureIs(t2, t1, c);
  }

  lemma LiveBodyIs(t: Tables, path: string, row: DocRow)
    requires path in t.documents && t.documents[path] == row && row.deletedAt.None?
    ensures LiveBody(t, path) == Some(row.doc.body)
  {
  }

  lemma SignatureIs(t: Tables, u: Tables, c: Config)
    requires Newest(t) == Newest(u) && |t.documents| == |u.documents| && |t.chunks| == |u.chunks|
    ensures SignatureOf(t, c) == SignatureOf(u, c)
  {
    hide Newest, IsNewest;
  }

  lemma WritesSound(t: Tables, u: Tables, path: string, row: DocRow)
    requires Writes(t, u, path, row)
    ensures Sound(u)
  {
  }

  ghost function Own(t: Tables, id: nat): set<nat> { set c | c in t.chunks && t.chunks[c].documentId == id }

  lemma OwnSize(t: Tables, id: nat, cs: seq<Chunk>, base: nat)
    requires HoldsChunks(t, id, cs, base)
    ensures |Own(t, id)| == |cs|
  {
    assert Own(t, id) == Span(base, |cs|);
  }

  function Span(base: nat, n: nat): (s: set<nat>)
    ensures |s| == n && forall k :: k in s <==> base <= k < base + n
  {
    if n == 0 then {} else Span(base, n - 1) + {base + n - 1}
  }

  lemma OthersSame(t: Tables, u: Tables, id: nat)
    requires Numbered(t) && Numbered(u) && SameElsewhere(t, u, id)
    ensures t.chunks.Keys - Own(t, id) == u.chunks.Keys - Own(u, id)
  {
    forall c ensures c in t.chunks.Keys - Own(t, id) <==> c in u.chunks.Keys - Own(u, id) {
    }
  }

  lemma CountsAdd(t: Tables, id: nat)
    ensures |t.chunks| == |t.chunks.Keys - Own(t, id)| + |Own(t, id)|
  {
    assert t.chunks.Keys == (t.chunks.Keys - Own(t, id)) + Own(t, id);
  }

  lemma CountsAgree(t1: Tables, t2: Tables, id: nat, cs: seq<Chunk>, base: nat, cs': seq<Chunk>, base': nat)
    requires Numbered(t1) && Numbered(t2) && SameElsewhere(t1, t2, id)
    requires HoldsChunks(t1, id, cs, base) && HoldsChunks(t2, id, cs', base')
    ensures |t1.chunks| - |cs| == |t2.chunks| - |cs'|
  {
    hide *;
    OwnSize(t1, id, cs, base);
    OwnSize(t2, id, cs', base');
    OthersSame(t1, t2, id);
    CountsAdd(t1, id);
    CountsAdd(t2, id);
  }

  /** And the chunks of one ingest have to come in together: a reader between them sees a signature
      that comes back once another document with as many chunks as were still to come is gone. */
  lemma HalfAnIngestRecurs(t: Tables, half: Tables, d: Doc, cs: seq<Chunk>, vs: seq<Vector>, k: nat, other: string,
                           theirs: seq<Chunk>, base: nat, now: nat, c: Config)
    requires Sound(t) && |vs| == |cs| && k < |cs| && other != d.path && Live(t, other)
    requires half == InsertedFrom(Upserted(t, d, now), DocId(t, d.path), cs[..k], vs[..k], 0)
    requires HoldsChunks(t, t.documents[other].id, theirs, base) && |theirs| == |cs| - k
    ensures var gone := Removed(Ingested(t, d, cs, vs, now), other, now + 1);
      SignatureOf(gone, c) == SignatureOf(half, c) && Live(half, other) && !Live(gone, other)
  {
    hide *;
    var id, full := DocId(t, d.path), Ingested(t, d, cs, vs, now);
    var row := DocRow(id, d, now, None);
    HalfOfIt(t, half, d, cs, vs, k, now);
    IngestedFacts(t, d, cs, vs, now);
    OtherStays(t, full, d.path, row, other, theirs, base);
    SameLive(full, half, other);
    RemovedCounts(full, other, now + 1);
    OwnSize(full, full.documents[other].id, theirs, base);
    SameNewest(full, half);
    SignatureIs(Removed(full, other, now + 1), half, c);
  }

  lemma SameLive(t: Tables, u: Tables, path: string)
    requires t.documents == u.documents && Live(t, path)
    ensures Live(u, path)
  {
  }

  lemma SameNewest(t: Tables, u: Tables)
    requires t.documents == u.documents
    ensures Newest(t) == Newest(u)
  {
    SameTimesSameNewest(t, u);
  }

  /** A document that is not the one written keeps its row and its chunks. */
  lemma OtherStays(t: Tables, u: Tables, path: string, row: DocRow, other: string, theirs: seq<Chunk>, base: nat)
    requires Writes(t, u, path, row) && other != path && Live(t, other)
    requires HoldsChunks(t, t.documents[other].id, theirs, base)
    ensures Sound(u) && Live(u, other) && other in u.documents && HoldsChunks(u, u.documents[other].id, theirs, base)
  {
    WritesFacts(t, u, path, row);
    WritesSound(t, u, path, row);
    hide Writes, Sound, HoldsChunks, Numbered, SameElsewhere;
    StillHolds(t, u, row.id, t.documents[other].id, theirs, base);
  }

  lemma HalfOfIt(t: Tables, half: Tables, d: Doc, cs: seq<Chunk>, vs: seq<Vector>, k: nat, now: nat)
    requires Sound(t) && |vs| == |cs| && k < |cs|
    requires half == InsertedFrom(Upserted(t, d, now), DocId(t, d.path), cs[..k], vs[..k], 0)
    ensures var full := Ingested(t, d, cs, vs, now);
      full.documents == half.documents && |full.chunks| == |half.chunks| + |cs| - k
  {
    hide InsertedFrom, Upserted;
    var up, id, full := Upserted(t, d, now), DocId(t, d.path), Ingested(t, d, cs, vs, now);
    UpsertedFacts(t, d, now);
    SoundIsNumbered(up);
    InsertedExtends(up, id, cs, vs, 0);
    InsertedExtends(up, id, cs[..k], vs[..k], 0);
    hide Sound, Numbered, Dropped, Extends;
    ExtendsCounts(up, full, id, cs, vs);
    ExtendsCounts(up, half, id, cs[..k], vs[..k]);
  }

  lemma ExtendsCounts(up: Tables, r: Tables, id: nat, cs: seq<Chunk>, vs: seq<Vector>)
    requires |vs| == |cs| && Numbered(up) && Extends(up, r, id, cs, vs, 0)
    ensures r.documents == up.documents && |r.chunks| == |up.chunks| + |cs|
  {
    hide RowsStay, RowsAdded;
    KeysGrow(up.chunks.Keys, r.chunks.Keys, up.nextChunk, |cs|);
  }

  lemma KeysGrow(a: set<nat>, b: set<nat>, base: nat, n: nat)
    requires forall c | c in a :: c < base
    requires forall c :: c in b <==> c in a || base <= c < base + n
    ensures |b| == |a| + n
  {
    assert b == a + Span(base, n);
  }

  lemma StillHolds(t: Tables, u: Tables, written: nat, id: nat, cs: seq<Chunk>, base: nat)
    requires Numbered(t) && Numbered(u) && SameElsewhere(t, u, written) && id != written && HoldsChunks(t, id, cs, base)
    ensures HoldsChunks(u, id, cs, base)
  {
    hide Numbered;
  }

  lemma OwnGone(full: Tables, gone: Tables, id: nat)
    requires Numbered(full) && Numbered(gone) && SameElsewhere(full, gone, id)
    requires forall c | c in gone.chunks :: gone.chunks[c].documentId != id
    ensures |full.chunks| == |gone.chunks| + |Own(full, id)|
  {
    assert Own(gone, id) == {};
    hide *;
    OthersSame(full, gone, id);
    CountsAdd(full, id);
    CountsAdd(gone, id);
  }
}
