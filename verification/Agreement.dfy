/** Whether the queue and the corpus agree (internal/rag/qa.go): the documents under qa/ are the
    confirmed tickets' answers, and nothing else in the corpus passes for one. Which operations
    keep this, and exactly when the others do. */
module Agreement {
  import opened Text
  import opened Chunking
  import opened Paths
  import opened Corpus
  import opened Tickets
  import opened Ingest
  import opened QaLoop

  /** The text a path answers with, while it does. */
  function LiveBody(t: Tables, p: string): Option<string> {
    if Live(t, p) then Some(t.documents[p].doc.body) else None
  }

  predicate IsConfirmed(d: Desk, id: nat) { id in d.tickets && d.tickets[id].status == Confirmed }

  /** A ticket names a document exactly while it is confirmed, and the document is under qa/. */
  ghost predicate Linked(d: Desk) {
    forall id | id in d.tickets ::
      && (d.tickets[id].docPath != "" <==> d.tickets[id].status == Confirmed)
      && (d.tickets[id].status == Confirmed ==> IsQaPath(d.tickets[id].docPath))
  }

  ghost predicate OwnPaths(d: Desk) {
    forall i, j | IsConfirmed(d, i) && IsConfirmed(d, j) && i != j :: d.tickets[i].docPath != d.tickets[j].docPath
  }

  /** Every confirmed ticket's document answers, with the ticket's own question and answer. */
  ghost predicate Backed(w: World) {
    forall id | IsConfirmed(w.desk, id) ::
      LiveBody(w.tables, w.desk.tickets[id].docPath) == Some(QaMarkdown(w.desk.tickets[id].question, w.desk.tickets[id].answer))
  }

  ghost predicate Claimed(d: Desk, p: string) {
    exists id :: IsConfirmed(d, id) && d.tickets[id].docPath == p
  }

  /** Nothing under qa/ answers that no confirmed ticket claims. */
  ghost predicate Exclusive(w: World) {
    forall p | UnderQa(p) && LiveBody(w.tables, p).Some? :: Claimed(w.desk, p)
  }

  /** The chunks under qa/ are approved and no others are. */
  ghost predicate ApprovalsRight(t: Tables) {
    forall p, c | p in t.documents && c in t.chunks && t.chunks[c].documentId == t.documents[p].id ::
      t.chunks[c].approved <==> UnderQa(p)
  }

  /** No chunk outside qa/ is approved. */
  ghost predicate ApprovedInside(t: Tables) {
    forall p, c | p in t.documents && c in t.chunks && t.chunks[c].documentId == t.documents[p].id && t.chunks[c].approved ::
      UnderQa(p)
  }

  /** Ticket numbers are given out in order and never again. */
  ghost predicate Counted(d: Desk) { forall id | id in d.tickets :: id < d.next }

  ghost predicate Agrees(w: World) {
    Counted(w.desk) && Linked(w.desk) && OwnPaths(w.desk) && Backed(w) && Exclusive(w) && ApprovalsRight(w.tables)
  }

  /** What holds whatever is done: at most one pending ticket per question, a document named exactly
      by the confirmed tickets and only under qa/, and no approved chunk anywhere else. */
  ghost predicate Orderly(w: World) {
    Counted(w.desk) && OnePerQuestion(w.desk) && Linked(w.desk) && ApprovedInside(w.tables)
  }

  ghost predicate Indexed(w: World, r: Rules) { Derived(w.tables, r.split, r.embed) }

  /* ---- what each write does to the paths that answer ---- */

  lemma UnlinkedView(w: World, path: string)
    requires Sound(w.tables)
    ensures Sound(Unlinked(w, path).tables)
    ensures forall p :: LiveBody(Unlinked(w, path).tables, p) == if p == path then None else LiveBody(w.tables, p)
    ensures ApprovalsRight(w.tables) ==> ApprovalsRight(Unlinked(w, path).tables)
  {
    if Live(w.tables, path) {
      RemovedFacts(w.tables, path, w.now);
      hide Removed;
      WritesKeepApprovals(w.tables, Removed(w.tables, path, w.now), path,
                          w.tables.documents[path].(deletedAt := Some(w.now)));
    }
  }

  /** A write keeps the approvals right when it gets its own rows right. */
  lemma WritesKeepApprovals(t: Tables, r: Tables, path: string, row: DocRow)
    requires Writes(t, r, path, row)
    requires forall c | c in r.chunks && r.chunks[c].documentId == row.id :: r.chunks[c].approved <==> UnderQa(path)
    ensures ApprovalsRight(t) ==> ApprovalsRight(r)
  {
    if ApprovalsRight(t) {
      forall p, c | p in r.documents && c in r.chunks && r.chunks[c].documentId == r.documents[p].id
        ensures r.chunks[c].approved <==> UnderQa(p)
      {
        if p != path {
          assert p in t.documents && t.documents[p].id != row.id;
          assert c in t.chunks && r.chunks[c] == t.chunks[c];
        }
      }
    }
  }

  lemma WritesView(t: Tables, u: Tables, path: string, d: Doc, row: DocRow)
    requires Writes(t, u, path, row) && row.doc == d && row.deletedAt.None?
    ensures Sound(u) && forall p :: LiveBody(u, p) == if p == path then Some(d.body) else LiveBody(t, p)
  {
    hide Sound;
  }

  lemma BroughtView(w: World, r: Rules, d: Doc)
    requires Sound(w.tables) && r.split(d.body) != [] && !UnderQa(d.path)
    ensures var w' := Brought(w, r, d, false);
      && Sound(w'.tables)
      && (forall p :: LiveBody(w'.tables, p) == if p == d.path then Some(d.body) else LiveBody(w.tables, p))
      && (ApprovalsRight(w.tables) ==> ApprovalsRight(w'.tables))
  {
    hide Ingested, Writes, Sound, HoldsChunks, LiveBody, ApprovalsRight, VectorsFor;
    var cs := r.split(d.body);
    var vs := VectorsFor(cs, r.embed);
    IngestedFacts(w.tables, d, cs, vs, w.now);
    var u, row := Ingested(w.tables, d, cs, vs, w.now), DocRow(DocId(w.tables, d.path), d, w.now, None);
    WritesView(w.tables, u, d.path, d, row);
    WritesKeepApprovals(w.tables, u, d.path, row);
  }

  /** An answer is brought in and approved at once. */
  lemma PublishedView(w: World, r: Rules, d: Doc)
    requires Sound(w.tables) && r.split(d.body) != [] && UnderQa(d.path)
    ensures var t' := Approved(Brought(w, r, d, false).tables, d.path);
      && Sound(t')
      && (forall p :: LiveBody(t', p) == if p == d.path then Some(d.body) else LiveBody(w.tables, p))
      && (ApprovalsRight(w.tables) ==> ApprovalsRight(t'))
  {
    hide Ingested, Approved, Writes, Sound, HoldsChunks, LiveBody, ApprovalsRight, VectorsFor;
    var cs := r.split(d.body);
    var vs := VectorsFor(cs, r.embed);
    IngestedFacts(w.tables, d, cs, vs, w.now);
    var u, row := Ingested(w.tables, d, cs, vs, w.now), DocRow(DocId(w.tables, d.path), d, w.now, None);
    ApprovedWrites(w.tables, u, d.path, row);
    WritesView(w.tables, Approved(u, d.path), d.path, d, row);
    WritesKeepApprovals(w.tables, Approved(u, d.path), d.path, row);
  }

  lemma ApprovedWrites(t: Tables, u: Tables, path: string, row: DocRow)
    requires Writes(t, u, path, row)
    ensures Writes(t, Approved(u, path), path, row)
    ensures forall c | c in Approved(u, path).chunks && Approved(u, path).chunks[c].documentId == row.id :: Approved(u, path).chunks[c].approved
  {
    ApprovedFacts(u, path);
    hide Approved;
  }

  lemma WritesPath(t: Tables, u: Tables, path: string, row: DocRow)
    requires Writes(t, u, path, row)
    ensures u.documents == t.documents[path := row]
  {
  }

  /** Approving what a path already holds rightly changes nothing. */
  lemma ApprovedView(t: Tables, path: string)
    requires Sound(t)
    ensures Sound(Approved(t, path))
    ensures forall p :: LiveBody(Approved(t, path), p) == LiveBody(t, p)
    ensures ApprovalsRight(t) && UnderQa(path) ==> ApprovalsRight(Approved(t, path))
  {
    ApprovedFacts(t, path);
  }

  /* ---- confirming ---- */

  ghost predicate OtherClaims(d: Desk, id: nat, rel: string) {
    exists j :: j != id && IsConfirmed(d, j) && d.tickets[j].docPath == rel
  }

  ghost predicate SaidAlready(d: Desk, rel: string, body: string) {
    exists j :: IsConfirmed(d, j) && d.tickets[j].docPath == rel && QaMarkdown(d.tickets[j].question, d.tickets[j].answer) == body
  }

  /** When confirming may be done: the answer has text to index and no other ticket is published
      under the name; and a rejected ticket may not be confirmed, except where that would change
      nothing. */
  ghost predicate ConfirmIsSafe(w: World, r: Rules, id: nat, answer: string, rel: string)
    requires id in w.desk.tickets
  {
    var body := QaMarkdown(w.desk.tickets[id].question, answer);
    if w.desk.tickets[id].status != Rejected then r.split(body) != [] && !OtherClaims(w.desk, id, rel)
    else r.split(body) == [] || SaidAlready(w.desk, rel, body)
  }

  lemma RenamedView(w: World, t: Ticket, rel: string) returns (w1: World)
    requires Agrees(w) && Sound(w.tables)
    ensures w1 == if t.docPath != "" && t.docPath != rel then Unlinked(w, t.docPath) else w
    ensures w1.desk == w.desk && Sound(w1.tables) && ApprovalsRight(w1.tables)
    ensures forall p :: LiveBody(w1.tables, p) ==
              if p == t.docPath && t.docPath != "" && t.docPath != rel then None else LiveBody(w.tables, p)
  {
    w1 := if t.docPath != "" && t.docPath != rel then Unlinked(w, t.docPath) else w;
    UnlinkedView(w, t.docPath);
  }

  lemma LiveHasChunks(w: World, r: Rules, p: string)
    requires Indexed(w, r) && LiveBody(w.tables, p).Some?
    ensures r.split(LiveBody(w.tables, p).value) != []
  {
    assert DocDerived(w.tables, r.split, p);
  }

  lemma ConfirmedIs(w: World, r: Rules, id: nat, answer: string, rel: string)
    requires id in w.desk.tickets
    ensures var t, w' := w.desk.tickets[id], ConfirmedAs(w, r, id, answer, rel, false);
      var w1 := if t.docPath != "" && t.docPath != rel then Unlinked(w, t.docPath) else w;
      && w'.desk == ConfirmedAt(w.desk, id, answer, rel)
      && w'.tables == Approved(Brought(w1, r, AnswerDoc(rel, t.question, answer), false).tables, rel)
  {
    hide Removed, Ingested, Approved, QaMarkdown, VectorsFor;
  }

  lemma ConfirmPublishes(w: World, r: Rules, id: nat, answer: string, rel: string)
    requires Agrees(w) && Indexed(w, r) && id in w.desk.tickets && w.desk.tickets[id].status != Rejected
    requires IsQaPath(rel) && ConfirmIsSafe(w, r, id, answer, rel)
    ensures Agrees(ConfirmedAs(w, r, id, answer, rel, false))
  {
    QaPathIsUnderQa(rel);
    IndexedIsSound(w, r);
    hide Agrees, Indexed, ConfirmedAs, QaMarkdown, IsQaPath, UnderQa, LiveBody, Sound, ApprovalsRight, OtherClaims;
    ConfirmedIs(w, r, id, answer, rel);
    PublishedBodies(w, r, id, answer, rel);
    hide Brought, Approved, Unlinked;
    PublishedAgrees(w, ConfirmedAs(w, r, id, answer, rel, false), id, answer, rel);
  }

  lemma PublishedBodies(w: World, r: Rules, id: nat, answer: string, rel: string)
    requires Agrees(w) && Sound(w.tables) && id in w.desk.tickets && UnderQa(rel)
    requires r.split(QaMarkdown(w.desk.tickets[id].question, answer)) != []
    ensures var t, t' := w.desk.tickets[id], ConfirmedAs(w, r, id, answer, rel, false).tables;
      && ApprovalsRight(t')
      && forall p :: LiveBody(t', p) == if p == rel then Some(QaMarkdown(t.question, answer))
                                        else if p == t.docPath && p != "" then None else LiveBody(w.tables, p)
  {
    hide *;
    var t := w.desk.tickets[id];
    var w1 := RenamedView(w, t, rel);
    ConfirmedIs(w, r, id, answer, rel);
    AnswerDocIs(rel, t.question, answer);
    PublishedView(w1, r, AnswerDoc(rel, t.question, answer));
  }

  lemma AnswerDocIs(rel: string, question: string, answer: string)
    ensures AnswerDoc(rel, question, answer).path == rel && AnswerDoc(rel, question, answer).body == QaMarkdown(question, answer)
  {
  }

  lemma PublishedAgrees(w: World, w': World, id: nat, answer: string, rel: string)
    requires Agrees(w) && id in w.desk.tickets && w'.desk.next == w.desk.next && w'.desk.tickets.Keys == w.desk.tickets.Keys
    requires IsQaPath(rel) && !OtherClaims(w.desk, id, rel) && ApprovalsRight(w'.tables)
    requires w'.desk.tickets[id] == w.desk.tickets[id].(answer := answer, docPath := rel, status := Confirmed, note := "")
    requires forall j | j in w.desk.tickets && j != id :: w'.desk.tickets[j] == w.desk.tickets[j]
    requires forall p :: LiveBody(w'.tables, p) ==
               if p == rel then Some(QaMarkdown(w.desk.tickets[id].question, answer))
               else if p == w.desk.tickets[id].docPath && p != "" then None else LiveBody(w.tables, p)
    ensures Agrees(w')
  {
    hide QaMarkdown, IsQaPath, LiveBody, ApprovalsRight;
    QaPathIsUnderQa(rel);
    assert IsConfirmed(w'.desk, id);
    PublishedIsClaimed(w, w', id, rel);
    assert Linked(w'.desk);
    assert Backed(w');
  }

  lemma PublishedIsClaimed(w: World, w': World, id: nat, rel: string)
    requires Exclusive(w) && IsConfirmed(w'.desk, id) && w'.desk.tickets[id].docPath == rel
    requires forall j | j in w.desk.tickets && j != id :: j in w'.desk.tickets && w'.desk.tickets[j] == w.desk.tickets[j]
    requires forall p | p != rel && LiveBody(w'.tables, p).Some? ::
               LiveBody(w.tables, p).Some? && !(IsConfirmed(w.desk, id) && w.desk.tickets[id].docPath == p)
    ensures Exclusive(w')
  {
    hide UnderQa, LiveBody;
    forall p | UnderQa(p) && LiveBody(w'.tables, p).Some? ensures Claimed(w'.desk, p) {
      if p != rel {
        assert Claimed(w.desk, p);
        var j :| IsConfirmed(w.desk, j) && w.desk.tickets[j].docPath == p;
        assert IsConfirmed(w'.desk, j);
      }
    }
  }

  lemma QaPathIsUnderQa(rel: string)
    requires IsQaPath(rel)
    ensures UnderQa(rel) && rel != ""
  {
  }

  lemma ConfirmOverOther(w: World, r: Rules, id: nat, answer: string, rel: string)
    requires Agrees(w) && Indexed(w, r) && id in w.desk.tickets && w.desk.tickets[id].status != Rejected
    requires !ConfirmIsSafe(w, r, id, answer, rel)
    ensures !Agrees(ConfirmedAs(w, r, id, answer, rel, false))
  {
    hide Agrees, Indexed, ConfirmedAs, Brought, Approved, Unlinked, QaMarkdown, OtherClaims;
    ConfirmedIs(w, r, id, answer, rel);
    if OtherClaims(w.desk, id, rel) {
      SharedNameParts(w, ConfirmedAs(w, r, id, answer, rel, false), id, answer, rel);
    } else {
      NothingToServe(w, r, id, answer, rel);
    }
  }

  /** Two confirmed tickets name one document. */
  lemma SharedNameParts(w: World, w': World, id: nat, answer: string, rel: string)
    requires id in w.desk.tickets && w.desk.tickets[id].status != Rejected && OtherClaims(w.desk, id, rel)
    requires w'.desk == ConfirmedAt(w.desk, id, answer, rel)
    ensures !Agrees(w')
  {
    var j :| j != id && IsConfirmed(w.desk, j) && w.desk.tickets[j].docPath == rel;
    assert IsConfirmed(w'.desk, j) && w'.desk.tickets[j].docPath == rel;
    assert IsConfirmed(w'.desk, id) && w'.desk.tickets[id].docPath == rel;
    assert !OwnPaths(w'.desk);
    hide Linked, Backed, Exclusive, ApprovalsRight, OwnPaths;
  }

  /** A confirmed ticket's answer has no chunks, so nothing serves it. */
  lemma NothingToServe(w: World, r: Rules, id: nat, answer: string, rel: string)
    requires Agrees(w) && Indexed(w, r) && id in w.desk.tickets && w.desk.tickets[id].status != Rejected
    requires r.split(QaMarkdown(w.desk.tickets[id].question, answer)) == []
    ensures !Agrees(ConfirmedAs(w, r, id, answer, rel, false))
  {
    var t, w' := w.desk.tickets[id], ConfirmedAs(w, r, id, answer, rel, false);
    IndexedIsSound(w, r);
    ConfirmedIs(w, r, id, answer, rel);
    assert IsConfirmed(w'.desk, id) && w'.desk.tickets[id] == t.(answer := answer, docPath := rel, status := Confirmed, note := "");
    hide *;
    NothingBrought(w, r, id, answer, rel);
    if LiveBody(w.tables, rel).Some? { LiveHasChunks(w, r, rel); }
    UnbackedParts(w', id);
  }

  lemma NothingBrought(w: World, r: Rules, id: nat, answer: string, rel: string)
    requires Agrees(w) && Sound(w.tables) && id in w.desk.tickets
    requires r.split(QaMarkdown(w.desk.tickets[id].question, answer)) == []
    ensures LiveBody(ConfirmedAs(w, r, id, answer, rel, false).tables, rel) in {None, LiveBody(w.tables, rel)}
  {
    var t := w.desk.tickets[id];
    ConfirmedIs(w, r, id, answer, rel);
    hide Agrees, Sound, ConfirmedAs, Approved, Unlinked, QaMarkdown, LiveBody, ApprovalsRight;
    var w1 := RenamedView(w, t, rel);
    ApprovedView(w1.tables, rel);
  }

  lemma UnbackedParts(w: World, id: nat)
    requires IsConfirmed(w.desk, id)
    requires LiveBody(w.tables, w.desk.tickets[id].docPath) != Some(QaMarkdown(w.desk.tickets[id].question, w.desk.tickets[id].answer))
    ensures !Agrees(w)
  {
    hide LiveBody, QaMarkdown, Linked, OwnPaths, Exclusive, ApprovalsRight;
  }

  lemma ConfirmRejected(w: World, r: Rules, id: nat, answer: string, rel: string)
    requires Agrees(w) && Indexed(w, r) && id in w.desk.tickets && w.desk.tickets[id].status == Rejected
    requires IsQaPath(rel)
    ensures Agrees(ConfirmedAs(w, r, id, answer, rel, false)) <==> ConfirmIsSafe(w, r, id, answer, rel)
  {
    hide Removed, Ingested, Approved, QaMarkdown, IsQaPath;
    QaPathIsUnderQa(rel);
    var t := w.desk.tickets[id];
    var d := AnswerDoc(rel, t.question, answer);
    var w' := ConfirmedAs(w, r, id, answer, rel, false);
    assert t.docPath == "" && w'.desk == w.desk;
    if r.split(d.body) == [] {
      ApprovedView(w.tables, rel);
    } else {
      PublishedView(w, r, d);
      assert LiveBody(w'.tables, rel) == Some(d.body);
      if SaidAlready(w.desk, rel, d.body) {
        assert Backed(w');
        assert forall p | UnderQa(p) && LiveBody(w'.tables, p).Some? && p != rel :: LiveBody(w.tables, p).Some?;
        assert Claimed(w.desk, rel);
        assert Exclusive(w');
      }
    }
  }

  /** Confirming keeps the queue and the corpus in agreement exactly when it is safe. The code does
      not check this: a rejected ticket's answer is ingested before its status is looked at, an
      answer with nothing to index closes the ticket all the same, and a name another ticket has
      is written over. */
  lemma ConfirmAgreesIff(w: World, r: Rules, id: nat, answer: string, name: string)
    requires Agrees(w) && Indexed(w, r) && id in w.desk.tickets && Trim(answer) != ""
    requires QaPath(id, name, w.desk.tickets[id].docPath).Some?
    ensures Agrees(AfterConfirm(w, r, id, answer, name, false))
       <==> ConfirmIsSafe(w, r, id, Trim(answer), QaPath(id, name, w.desk.tickets[id].docPath).value)
  {
    hide Agrees, Indexed, ConfirmIsSafe, QaPath, ConfirmedAs;
    var rel := QaPath(id, name, w.desk.tickets[id].docPath).value;
    assert IsQaPath(rel) by { ConfirmPathIsQa(w, id, name); }
    if w.desk.tickets[id].status == Rejected {
      ConfirmRejected(w, r, id, Trim(answer), rel);
    } else if ConfirmIsSafe(w, r, id, Trim(answer), rel) {
      ConfirmPublishes(w, r, id, Trim(answer), rel);
    } else {
      ConfirmOverOther(w, r, id, Trim(answer), rel);
    }
  }

  lemma ConfirmPathIsQa(w: World, id: nat, name: string)
    requires Agrees(w) && id in w.desk.tickets && QaPath(id, name, w.desk.tickets[id].docPath).Some?
    ensures IsQaPath(QaPath(id, name, w.desk.tickets[id].docPath).value)
  {
    QaPathStaysInside(id, name, w.desk.tickets[id].docPath);
  }

  /** When the embedding service fails, the two go on agreeing exactly when the answer was not being
      renamed: the old name is taken down before the new one is known to stand. */
  lemma FailedConfirmAgreesIff(w: World, r: Rules, id: nat, answer: string, rel: string)
    requires Agrees(w) && Indexed(w, r) && id in w.desk.tickets
    requires r.split(QaMarkdown(w.desk.tickets[id].question, answer)) != []
    ensures Agrees(ConfirmedAs(w, r, id, answer, rel, true))
       <==> w.desk.tickets[id].docPath == "" || w.desk.tickets[id].docPath == rel
  {
    hide Removed, Ingested, Approved, QaMarkdown;
    var t := w.desk.tickets[id];
    var w1 := RenamedView(w, t, rel);
    assert ConfirmedAs(w, r, id, answer, rel, true) == w1;
    if t.docPath != "" && t.docPath != rel {
      assert IsConfirmed(w1.desk, id) && LiveBody(w1.tables, t.docPath) == None;
    }
  }

  /* ---- taking back, dismissing, deleting ---- */

  lemma UnpublishedView(w: World, id: nat) returns (w1: World)
    requires Agrees(w) && Sound(w.tables) && id in w.desk.tickets
    ensures w1 == Unpublished(w, id) && w1.desk == w.desk && Sound(w1.tables) && ApprovalsRight(w1.tables)
    ensures forall p :: LiveBody(w1.tables, p) ==
              if p == w.desk.tickets[id].docPath && p != "" then None else LiveBody(w.tables, p)
  {
    w1 := Unpublished(w, id);
    UnlinkedView(w, w.desk.tickets[id].docPath);
  }

  /** Once a ticket's document is gone, the two agree again as soon as the ticket stops naming it,
      whether it becomes something else or goes. */
  lemma ForgottenAgrees(w: World, id: nat, d: Desk)
    requires Agrees(w) && Sound(w.tables) && id in w.desk.tickets
    requires Counted(d) && d.tickets.Keys - {id} == w.desk.tickets.Keys - {id}
    requires forall j | j in d.tickets && j != id :: j in w.desk.tickets && d.tickets[j] == w.desk.tickets[j]
    requires id in d.tickets ==> d.tickets[id].docPath == "" && d.tickets[id].status != Confirmed
    ensures Agrees(Unpublished(w, id).(desk := d))
  {
    hide Removed, QaMarkdown, IsQaPath;
    var w1 := UnpublishedView(w, id);
    var w' := w1.(desk := d);
    forall j | IsConfirmed(d, j) ensures j != id && IsConfirmed(w.desk, j) {
      assert j in d.tickets.Keys - {id};
    }
    forall p | UnderQa(p) && LiveBody(w'.tables, p).Some? ensures Claimed(w'.desk, p) {
      assert Claimed(w.desk, p);
      var j :| IsConfirmed(w.desk, j) && w.desk.tickets[j].docPath == p;
      assert p != "";
      assert j != id;
      assert j in w.desk.tickets.Keys - {id};
      assert IsConfirmed(d, j);
    }
    assert Backed(w');
    assert Linked(d);
  }

  /** Taking an answer back keeps them in agreement exactly when no pending ticket asks the same
      question. When one does, the document is gone before the index refuses the ticket, which
      goes on saying that it is confirmed. */
  lemma RetractAgreesIff(w: World, id: nat)
    requires Agrees(w) && Sound(w.tables) && IsConfirmed(w.desk, id)
    ensures Agrees(AfterRetract(w, id)) <==> !Asked(w.desk, w.desk.tickets[id].norm)
  {
    hide Removed, QaMarkdown, IsQaPath;
    if MayRetract(w.desk, id) {
      ForgottenAgrees(w, id, Retracted(w.desk, id));
    } else {
      var w1 := UnpublishedView(w, id);
      assert IsConfirmed(w1.desk, id) && LiveBody(w1.tables, w.desk.tickets[id].docPath) == None;
      assert !Backed(AfterRetract(w, id));
    }
  }

  lemma RejectAgrees(w: World, id: nat, note: string)
    requires Agrees(w) && Sound(w.tables)
    ensures Agrees(AfterReject(w, id, note))
  {
    if id in w.desk.tickets {
      ForgottenAgrees(w, id, RejectedWith(w.desk, id, note));
    }
  }

  lemma DeleteAgrees(w: World, id: nat)
    requires Agrees(w) && Sound(w.tables)
    ensures Agrees(AfterDelete(w, id))
  {
    if id in w.desk.tickets {
      ForgottenAgrees(w, id, Deleted(w.desk, id));
    }
  }

  lemma DeskOnlyAgrees(w: World, d: Desk)
    requires Agrees(w) && Counted(d)
    requires forall j | IsConfirmed(d, j) :: IsConfirmed(w.desk, j) && d.tickets[j] == w.desk.tickets[j]
    requires forall j | IsConfirmed(w.desk, j) :: IsConfirmed(d, j)
    requires forall j | j in d.tickets :: d.tickets[j].status != Confirmed ==> d.tickets[j].docPath == ""
    ensures Agrees(w.(desk := d))
  {
    hide QaMarkdown, IsQaPath, LiveBody, UnderQa, ApprovalsRight;
    var w' := w.(desk := d);
    ClaimsKept(w.desk, d);
    hide Claimed;
    assert forall j | IsConfirmed(d, j) :: j in w.desk.tickets;
    assert forall j | j in d.tickets && d.tickets[j].status == Confirmed :: IsConfirmed(d, j);
  }

  lemma ClaimsKept(d: Desk, d': Desk)
    requires forall j | IsConfirmed(d', j) :: IsConfirmed(d, j) && d'.tickets[j] == d.tickets[j]
    requires forall j | IsConfirmed(d, j) :: IsConfirmed(d', j)
    ensures forall p | Claimed(d, p) :: Claimed(d', p)
  {
    forall p | Claimed(d, p) ensures Claimed(d', p) {
      var j :| IsConfirmed(d, j) && d.tickets[j].docPath == p;
      assert IsConfirmed(d', j);
    }
  }

  /* ---- whole runs ---- */

  /** One whole operation: on a ticket, or on a document in the library. */
  datatype Op =
    | OpenTicket(question: string, miss: string)
    | Draft(id: nat, answer: string)
    | Confirm(id: nat, answer: string, name: string, fails: bool)
    | Retract(id: nat)
    | Reject(id: nat, note: string)
    | Delete(id: nat)
    | Save(doc: Doc, fails: bool)
    | Remove(path: string)

  function Next(w: World, r: Rules, op: Op): World {
    match op
    case OpenTicket(question, miss) => w.(desk := Opened(w.desk, question, miss))
    case Draft(id, answer) => w.(desk := Drafted(w.desk, id, answer))
    case Confirm(id, answer, name, fails) => AfterConfirm(w, r, id, answer, name, fails)
    case Retract(id) => AfterRetract(w, id)
    case Reject(id, note) => AfterReject(w, id, note)
    case Delete(id) => AfterDelete(w, id)
    case Save(doc, fails) => if Trim(doc.body) == "" then w else Brought(w, r, doc, fails)
    case Remove(path) => Unlinked(w, path)
  }

  function Run(w: World, r: Rules, ops: seq<Op>): World
    decreases |ops|
  {
    if ops == [] then w else Run(Next(w, r, ops[0]), r, ops[1..])
  }

  /** The documents and the index never part, whatever is done and whenever the service fails. */
  lemma NextIsIndexed(w: World, r: Rules, op: Op)
    requires Indexed(w, r)
    ensures Indexed(Next(w, r, op), r)
  {
    match op {
      case Confirm(id, answer, name, fails) =>
        if id in w.desk.tickets && Trim(answer) != "" {
          var rel := QaPath(id, name, w.desk.tickets[id].docPath);
          if rel.Some? {
            ConfirmedIsIndexed(w, r, id, Trim(answer), rel.value, fails);
          }
        }
      case Retract(id) => UnpublishedIsIndexed(w, r, id);
      case Reject(id, _) => UnpublishedIsIndexed(w, r, id);
      case Delete(id) => UnpublishedIsIndexed(w, r, id);
      case Save(doc, fails) => BroughtIsIndexed(w, r, doc, fails);
      case Remove(path) => RemoveKeepsDerived(w.tables, path, w.now, r.split, r.embed);
      case _ =>
    }
  }

  lemma BroughtIsIndexed(w: World, r: Rules, d: Doc, fails: bool)
    requires Indexed(w, r)
    ensures Indexed(Brought(w, r, d, fails), r)
  {
    hide Derived, Ingested;
    var cs := r.split(d.body);
    if cs != [] {
      IngestKeepsDerived(w.tables, d, cs, VectorsFor(cs, r.embed), w.now, r.split, r.embed);
    }
  }

  lemma UnpublishedIsIndexed(w: World, r: Rules, id: nat)
    requires Indexed(w, r)
    ensures Indexed(Unpublished(w, id), r)
  {
    hide Derived, Removed;
    if id in w.desk.tickets {
      RemoveKeepsDerived(w.tables, w.desk.tickets[id].docPath, w.now, r.split, r.embed);
    }
  }

  lemma ConfirmedIsIndexed(w: World, r: Rules, id: nat, answer: string, rel: string, fails: bool)
    requires Indexed(w, r) && id in w.desk.tickets
    ensures Indexed(ConfirmedAs(w, r, id, answer, rel, fails), r)
  {
    hide Derived, Removed, Ingested, Approved, QaMarkdown;
    var t := w.desk.tickets[id];
    RemoveKeepsDerived(w.tables, t.docPath, w.now, r.split, r.embed);
    var w1 := if t.docPath != "" && t.docPath != rel then Unlinked(w, t.docPath) else w;
    var d := AnswerDoc(rel, t.question, answer);
    BroughtIsIndexed(w1, r, d, fails);
    ApproveKeepsDerived(Brought(w1, r, d, fails).tables, rel, r.split, r.embed);
  }

  /** What the code relies on without checking it: confirms that are safe or, when the service
      fails, rename nothing; no take-back while the question is pending again; and through the
      library nothing written under qa/ that has text to index, and nothing removed there that
      answers. */
  ghost predicate Careful(w: World, r: Rules, op: Op) {
    match op
    case Confirm(id, answer, name, fails) =>
      id in w.desk.tickets && Trim(answer) != "" ==>
        var t := w.desk.tickets[id];
        var rel := QaPath(id, name, t.docPath);
        rel.Some? ==>
          if fails && r.split(QaMarkdown(t.question, Trim(answer))) != [] then t.docPath == "" || t.docPath == rel.value
          else ConfirmIsSafe(w, r, id, Trim(answer), rel.value)
    case Retract(id) => IsConfirmed(w.desk, id) ==> !Asked(w.desk, w.desk.tickets[id].norm)
    case Save(doc, fails) => !UnderQa(doc.path) || Trim(doc.body) == "" || r.split(doc.body) == [] || fails
    case Remove(path) => !UnderQa(path) || !Live(w.tables, path)
    case _ => true
  }

  ghost predicate CarefulRun(w: World, r: Rules, ops: seq<Op>)
    decreases |ops|
  {
    ops != [] ==> Careful(w, r, ops[0]) && CarefulRun(Next(w, r, ops[0]), r, ops[1..])
  }

  lemma LibraryAgrees(w: World, w': World, path: string)
    requires Agrees(w) && !UnderQa(path) && w'.desk == w.desk && ApprovalsRight(w'.tables)
    requires forall p | p != path :: LiveBody(w'.tables, p) == LiveBody(w.tables, p)
    ensures Agrees(w')
  {
    hide QaMarkdown;
    forall id | IsConfirmed(w.desk, id) ensures w.desk.tickets[id].docPath != path {
      QaPathIsUnderQa(w.desk.tickets[id].docPath);
    }
    hide IsQaPath;
  }

  /** Careful operations keep queue and corpus in agreement, and every other one parts them. */
  lemma NextAgreesIff(w: World, r: Rules, op: Op)
    requires Agrees(w) && Indexed(w, r)
    ensures Agrees(Next(w, r, op)) <==> Careful(w, r, op)
  {
    IndexedIsSound(w, r);
    hide Agrees, Indexed, Sound, QaPath, ConfirmIsSafe, QaMarkdown, Asked, Opened, Drafted, Live;
    hide AfterConfirm, AfterRetract, AfterReject, AfterDelete, Brought, Unlinked, UnderQa, Trim;
    match op {
      case OpenTicket(question, miss) => OpenAgrees(w, question, miss);
      case Draft(id, answer) => DraftAgrees(w, id, answer);
      case Confirm(id, answer, name, fails) => AnyConfirmAgreesIff(w, r, id, answer, name, fails);
      case Retract(id) => AnyRetractAgreesIff(w, id);
      case Reject(id, note) => RejectAgrees(w, id, note);
      case Delete(id) => DeleteAgrees(w, id);
      case Save(doc, fails) => SaveAgreesIff(w, r, doc, fails);
      case Remove(path) => RemoveAgreesIff(w, path);
    }
  }

  lemma DraftAgrees(w: World, id: nat, answer: string)
    requires Agrees(w)
    ensures Agrees(w.(desk := Drafted(w.desk, id, answer)))
  {
    DeskOnlyAgrees(w, Drafted(w.desk, id, answer));
  }

  lemma AnyRetractAgreesIff(w: World, id: nat)
    requires Agrees(w) && Sound(w.tables)
    ensures Agrees(AfterRetract(w, id)) <==> (IsConfirmed(w.desk, id) ==> !Asked(w.desk, w.desk.tickets[id].norm))
  {
    hide Agrees, Sound, Asked;
    if IsConfirmed(w.desk, id) {
      hide AfterRetract;
      RetractAgreesIff(w, id);
    }
  }

  /** Saving a document in the library keeps them in agreement exactly when it is not under qa/, or
      nothing comes of it: an answer corrected where it lives is one no ticket gave. */
  lemma SaveAgreesIff(w: World, r: Rules, doc: Doc, fails: bool)
    requires Agrees(w) && Sound(w.tables)
    ensures Agrees(Next(w, r, Save(doc, fails)))
       <==> !UnderQa(doc.path) || Trim(doc.body) == "" || r.split(doc.body) == [] || fails
  {
    hide Agrees, Sound, UnderQa, Ingested, Trim;
    if Trim(doc.body) != "" && r.split(doc.body) != [] && !fails {
      if UnderQa(doc.path) {
        SavedAnswerParts(w, r, doc);
      } else {
        BroughtView(w, r, doc);
        BroughtKeepsDesk(w, r, doc);
        ApprovalsOf(w);
        hide Brought, LiveBody;
        LibraryAgrees(w, Brought(w, r, doc, false), doc.path);
      }
    }
  }

  /** Nobody has approved what was just saved. */
  lemma SavedAnswerParts(w: World, r: Rules, doc: Doc)
    requires Sound(w.tables) && UnderQa(doc.path) && r.split(doc.body) != []
    ensures !Agrees(Brought(w, r, doc, false))
  {
    hide Sound, UnderQa, Ingested, VectorsFor, Counted, Linked, OwnPaths, Backed, Exclusive, SameElsewhere;
    var cs := r.split(doc.body);
    var u, id := Ingested(w.tables, doc, cs, VectorsFor(cs, r.embed), w.now), DocId(w.tables, doc.path);
    IngestedFacts(w.tables, doc, cs, VectorsFor(cs, r.embed), w.now);
    var c := w.tables.nextChunk;
    assert c in u.chunks && u.chunks[c].documentId == id && doc.path in u.documents && u.documents[doc.path].id == id;
    assert !ApprovalsRight(u);
  }

  lemma BroughtKeepsDesk(w: World, r: Rules, doc: Doc)
    ensures Brought(w, r, doc, false).desk == w.desk
  {
  }

  lemma ApprovalsOf(w: World)
    requires Agrees(w)
    ensures ApprovalsRight(w.tables)
  {
  }

  /** Removing one does exactly when it is not under qa/, or does not answer anyway: what answers
      there is a confirmed ticket's. */
  lemma RemoveAgreesIff(w: World, path: string)
    requires Agrees(w) && Sound(w.tables)
    ensures Agrees(Unlinked(w, path)) <==> !UnderQa(path) || !Live(w.tables, path)
  {
    UnlinkedView(w, path);
    hide Removed, Sound, QaMarkdown, UnderQa, ApprovalsRight;
    if UnderQa(path) && Live(w.tables, path) {
      RemovedAnswerParts(w, Unlinked(w, path), path);
    } else if UnderQa(path) {
      SameTablesAgree(w, Unlinked(w, path));
    } else {
      ApprovalsOf(w);
      hide Agrees, LiveBody;
      LibraryAgrees(w, Unlinked(w, path), path);
    }
  }

  lemma RemovedAnswerParts(w: World, w': World, path: string)
    requires Agrees(w) && UnderQa(path) && Live(w.tables, path) && w'.desk == w.desk && LiveBody(w'.tables, path).None?
    ensures !Agrees(w')
  {
    hide UnderQa, QaMarkdown, Linked, OwnPaths, ApprovalsRight, Counted;
    assert Claimed(w.desk, path);
    var id :| IsConfirmed(w.desk, id) && w.desk.tickets[id].docPath == path;
    assert IsConfirmed(w'.desk, id);
  }

  lemma SameTablesAgree(w: World, w': World)
    requires Agrees(w) && w'.desk == w.desk && w'.tables == w.tables
    ensures Agrees(w')
  {
    hide Counted, Linked, OwnPaths, ApprovalsRight, QaMarkdown, Claimed, LiveBody, UnderQa;
  }

  lemma OpenAgrees(w: World, question: string, miss: string)
    requires Agrees(w)
    ensures Agrees(w.(desk := Opened(w.desk, question, miss)))
  {
    DeskOnlyAgrees(w, Opened(w.desk, question, miss));
  }

  lemma AnyConfirmAgreesIff(w: World, r: Rules, id: nat, answer: string, name: string, fails: bool)
    requires Agrees(w) && Indexed(w, r)
    ensures Agrees(AfterConfirm(w, r, id, answer, name, fails)) <==> Careful(w, r, Confirm(id, answer, name, fails))
  {
    hide Agrees, Indexed, ConfirmIsSafe, QaPath, QaMarkdown;
    if id in w.desk.tickets && Trim(answer) != "" {
      var t := w.desk.tickets[id];
      var rel := QaPath(id, name, t.docPath);
      if rel.Some? {
        if fails && r.split(QaMarkdown(t.question, Trim(answer))) != [] {
          FailedConfirmAgreesIff(w, r, id, Trim(answer), rel.value);
        } else {
          ConfirmAgreesIff(w, r, id, answer, name);
        }
      }
    }
  }

  /* ---- what no operation breaks ---- */

  /** What becomes of the tickets. */
  lemma DeskNext(w: World, r: Rules, op: Op)
    ensures var d, d' := w.desk, Next(w, r, op).desk;
      match op
      case OpenTicket(question, miss) => d' == Opened(d, question, miss)
      case Draft(id, answer) => d' == Drafted(d, id, answer)
      case Confirm(id, answer, name, _) =>
        d' == d || (id in d.tickets && var rel := QaPath(id, name, d.tickets[id].docPath);
                    rel.Some? && d' == ConfirmedAt(d, id, Trim(answer), rel.value))
      case Retract(id) => d' == d || d' == Retracted(d, id)
      case Reject(id, note) => d' == d || d' == RejectedWith(d, id, note)
      case Delete(id) => d' == d || d' == Deleted(d, id)
      case _ => d' == d
  {
    hide Removed, Ingested, Approved, QaPath, QaMarkdown, Trim, Opened, Drafted, ConfirmedAt, Retracted, RejectedWith, Deleted;
  }

  lemma DeskStaysOrderly(w: World, r: Rules, op: Op)
    requires Counted(w.desk) && OnePerQuestion(w.desk) && Linked(w.desk)
    ensures var d := Next(w, r, op).desk; Counted(d) && OnePerQuestion(d) && Linked(d)
  {
    hide Counted, OnePerQuestion, Linked, Next, QaPath, Trim, Opened, Drafted, ConfirmedAt, Retracted, RejectedWith, Deleted;
    DeskNext(w, r, op);
    var d := w.desk;
    match op {
      case OpenTicket(question, miss) => OnePerQuestionHeld(d, 0, question, miss); LinkedOpened(d, question, miss);
      case Draft(id, answer) => OnePerQuestionHeld(d, id, "", answer); LinkedOne(d, id, answer, "");
      case Confirm(id, answer, name, _) => if id in d.tickets { ConfirmStaysOrderly(d, id, Trim(answer), name); }
      case Retract(id) => OnePerQuestionHeld(d, id, "", ""); LinkedOne(d, id, "", "");
      case Reject(id, note) => OnePerQuestionHeld(d, id, "", note); LinkedOne(d, id, note, "");
      case Delete(id) => OnePerQuestionHeld(d, id, "", ""); LinkedOne(d, id, "", "");
      case _ =>
    }
  }

  lemma ConfirmStaysOrderly(d: Desk, id: nat, answer: string, name: string)
    requires Counted(d) && OnePerQuestion(d) && Linked(d) && id in d.tickets
    ensures var rel := QaPath(id, name, d.tickets[id].docPath);
      rel.Some? ==> var d' := ConfirmedAt(d, id, answer, rel.value); Counted(d') && OnePerQuestion(d') && Linked(d')
  {
    hide Counted, OnePerQuestion, QaPath, IsQaPath, ConfirmedAt;
    var rel := QaPath(id, name, d.tickets[id].docPath);
    if rel.Some? {
      QaPathStaysInside(id, name, d.tickets[id].docPath);
      hide Linked;
      OnePerQuestionHeld(d, id, rel.value, answer);
      LinkedOne(d, id, answer, rel.value);
    }
  }

  lemma OnePerQuestionHeld(d: Desk, id: nat, question: string, text: string)
    requires Counted(d) && OnePerQuestion(d)
    ensures OnePerQuestion(Opened(d, question, text)) && OnePerQuestion(Drafted(d, id, text))
    ensures OnePerQuestion(ConfirmedAt(d, id, text, question)) && OnePerQuestion(Retracted(d, id))
    ensures OnePerQuestion(RejectedWith(d, id, text)) && OnePerQuestion(Deleted(d, id))
  {
    hide OnePerQuestion, Opened, Drafted, ConfirmedAt, Retracted, RejectedWith, Deleted;
    OnePerQuestionKept(d, id, question, text);
  }

  lemma LinkedOpened(d: Desk, question: string, miss: string)
    requires Counted(d) && Linked(d)
    ensures Counted(Opened(d, question, miss)) && Linked(Opened(d, question, miss))
  {
    hide Trim, Normalise, Asked, IsQaPath;
  }

  lemma LinkedOne(d: Desk, id: nat, text: string, rel: string)
    requires Counted(d) && Linked(d)
    ensures Counted(Drafted(d, id, text)) && Linked(Drafted(d, id, text))
    ensures Counted(Retracted(d, id)) && Linked(Retracted(d, id))
    ensures Counted(RejectedWith(d, id, text)) && Linked(RejectedWith(d, id, text))
    ensures Counted(Deleted(d, id)) && Linked(Deleted(d, id))
    ensures IsQaPath(rel) ==> Counted(ConfirmedAt(d, id, text, rel)) && Linked(ConfirmedAt(d, id, text, rel))
  {
    hide Linked, Counted, With, Deleted, Asked, Trim, IsQaPath;
    LinkedLess(d, id);
    if id in d.tickets {
      var t := d.tickets[id];
      LinkedPut(d, id, t.(answer := text, status := Answered));
      LinkedPut(d, id, t.(docPath := "", status := Answered));
      LinkedPut(d, id, t.(note := Trim(text), docPath := "", status := Rejected));
      if IsQaPath(rel) { LinkedPut(d, id, t.(answer := text, docPath := rel, status := Confirmed, note := "")); }
    }
  }

  lemma LinkedPut(d: Desk, id: nat, t: Ticket)
    requires Counted(d) && Linked(d) && id in d.tickets
    requires if t.status == Confirmed then IsQaPath(t.docPath) else t.docPath == "" || t.docPath == d.tickets[id].docPath
    ensures t.status == Confirmed || t.docPath == "" || d.tickets[id].status != Confirmed ==> Counted(With(d, id, t)) && Linked(With(d, id, t))
  {
    if t.status == Confirmed { QaPathIsUnderQa(t.docPath); }
    hide IsQaPath;
  }

  lemma LinkedLess(d: Desk, id: nat)
    requires Counted(d) && Linked(d)
    ensures Counted(Deleted(d, id)) && Linked(Deleted(d, id))
  {
    hide IsQaPath;
  }

  lemma WritesKeepInside(t: Tables, r: Tables, path: string, row: DocRow)
    requires Writes(t, r, path, row)
    requires forall c | c in r.chunks && r.chunks[c].documentId == row.id && r.chunks[c].approved :: UnderQa(path)
    ensures ApprovedInside(t) ==> ApprovedInside(r)
  {
    hide Sound, UnderQa;
    if ApprovedInside(t) {
      forall p, c | p in r.documents && c in r.chunks && r.chunks[c].documentId == r.documents[p].id && r.chunks[c].approved
        ensures UnderQa(p)
      {
        if p != path {
          assert p in t.documents && t.documents[p].id != row.id;
          assert c in t.chunks && r.chunks[c] == t.chunks[c];
        }
      }
    }
  }

  lemma UnlinkedStaysInside(w: World, path: string)
    requires Sound(w.tables) && ApprovedInside(w.tables)
    ensures ApprovedInside(Unlinked(w, path).tables)
  {
    hide Sound, ApprovedInside, Without;
    if Live(w.tables, path) {
      RemovedFacts(w.tables, path, w.now);
      var row := w.tables.documents[path].(deletedAt := Some(w.now));
      hide Removed;
      WritesKeepInside(w.tables, Removed(w.tables, path, w.now), path, row);
    }
  }

  lemma BroughtStaysInside(w: World, r: Rules, d: Doc, fails: bool)
    requires Sound(w.tables) && ApprovedInside(w.tables)
    ensures ApprovedInside(Brought(w, r, d, fails).tables)
  {
    hide Sound, ApprovedInside, Ingested, VectorsFor, HoldsChunks, Writes;
    var cs := r.split(d.body);
    if cs != [] && !fails {
      var vs := VectorsFor(cs, r.embed);
      IngestedFacts(w.tables, d, cs, vs, w.now);
      WritesKeepInside(w.tables, Ingested(w.tables, d, cs, vs, w.now), d.path, DocRow(DocId(w.tables, d.path), d, w.now, None));
    }
  }

  lemma ApprovedStaysInside(t: Tables, path: string)
    requires Sound(t) && ApprovedInside(t) && UnderQa(path)
    ensures ApprovedInside(Approved(t, path))
  {
    ApprovedFacts(t, path);
    hide Approved, UnderQa;
    forall p, c | p in t.documents && c in t.chunks && t.chunks[c].documentId == t.documents[p].id && Approved(t, path).chunks[c].approved
      ensures UnderQa(p)
    {
      if !t.chunks[c].approved { assert t.documents[p].id == t.documents[path].id && p == path; }
    }
  }

  lemma ConfirmStaysInside(w: World, r: Rules, id: nat, answer: string, rel: string, fails: bool)
    requires Indexed(w, r) && ApprovedInside(w.tables) && id in w.desk.tickets && UnderQa(rel)
    ensures ApprovedInside(ConfirmedAs(w, r, id, answer, rel, fails).tables)
  {
    hide Indexed, ApprovedInside, UnderQa, Unlinked, Brought, Approved, QaMarkdown, ConfirmedAt, Sound;
    var t := w.desk.tickets[id];
    var w1 := if t.docPath != "" && t.docPath != rel then Unlinked(w, t.docPath) else w;
    IndexedIsSound(w, r);
    UnlinkedStaysInside(w, t.docPath);
    RemovedIsIndexed(w, r, t.docPath);
    IndexedIsSound(w1, r);
    var d := AnswerDoc(rel, t.question, answer);
    BroughtStaysInside(w1, r, d, fails);
    BroughtIsIndexed(w1, r, d, fails);
    IndexedIsSound(Brought(w1, r, d, fails), r);
    ApprovedStaysInside(Brought(w1, r, d, fails).tables, rel);
  }

  lemma RemovedIsIndexed(w: World, r: Rules, path: string)
    requires Indexed(w, r)
    ensures Indexed(Unlinked(w, path), r)
  {
    hide Derived, Removed;
    RemoveKeepsDerived(w.tables, path, w.now, r.split, r.embed);
  }

  lemma UnpublishedStaysInside(w: World, id: nat)
    requires Sound(w.tables) && ApprovedInside(w.tables)
    ensures ApprovedInside(Unpublished(w, id).tables)
  {
    hide Sound, ApprovedInside, Unlinked;
    if id in w.desk.tickets { UnlinkedStaysInside(w, w.desk.tickets[id].docPath); }
  }

  lemma TablesNext(w: World, r: Rules, op: Op)
    ensures op.Retract? || op.Reject? || op.Delete? ==> Next(w, r, op).tables in {w.tables, Unpublished(w, op.id).tables}
  {
    hide Unpublished, Retracted, RejectedWith, Deleted;
  }

  lemma TablesStayInside(w: World, r: Rules, op: Op)
    requires Indexed(w, r) && Linked(w.desk) && ApprovedInside(w.tables)
    ensures ApprovedInside(Next(w, r, op).tables)
  {
    IndexedIsSound(w, r);
    hide Indexed, Linked, ApprovedInside, Sound, Unlinked, Unpublished, Brought, ConfirmedAs, QaPath, Trim, UnderQa;
    match op {
      case Confirm(id, answer, name, fails) =>
        if id in w.desk.tickets && QaPath(id, name, w.desk.tickets[id].docPath).Some? {
          LinkedPathIsQa(w.desk, id, name);
          ConfirmStaysInside(w, r, id, Trim(answer), QaPath(id, name, w.desk.tickets[id].docPath).value, fails);
        }
      case Save(doc, fails) => BroughtStaysInside(w, r, doc, fails);
      case Remove(path) => UnlinkedStaysInside(w, path);
      case OpenTicket(_, _) =>
      case Draft(_, _) =>
      case _ =>
        TablesNext(w, r, op);
        UnpublishedStaysInside(w, op.id);
    }
  }

  lemma LinkedPathIsQa(d: Desk, id: nat, name: string)
    requires Linked(d) && id in d.tickets && QaPath(id, name, d.tickets[id].docPath).Some?
    ensures UnderQa(QaPath(id, name, d.tickets[id].docPath).value)
  {
    hide QaPath, IsQaPath;
    QaPathStaysInside(id, name, d.tickets[id].docPath);
    QaPathIsUnderQa(QaPath(id, name, d.tickets[id].docPath).value);
  }

  lemma NextIsOrderly(w: World, r: Rules, op: Op)
    requires Indexed(w, r) && Orderly(w)
    ensures Orderly(Next(w, r, op))
  {
    hide Indexed, Next, Counted, OnePerQuestion, Linked, ApprovedInside;
    DeskStaysOrderly(w, r, op);
    TablesStayInside(w, r, op);
  }

  /** Queue and corpus over all runs, whatever the operations and their order and whenever the service
      fails: the index is the one the documents determine, no question is pending twice, exactly the
      confirmed tickets name a document, under qa/, and no chunk outside qa/ is approved. As long as
      the operations are careful, the documents under qa/ are exactly the confirmed tickets' answers
      and exactly their chunks are approved. */
  lemma {:induction false} RunAgrees(w: World, r: Rules, ops: seq<Op>)
    requires Indexed(w, r)
    ensures Indexed(Run(w, r, ops), r)
    ensures Orderly(w) ==> Orderly(Run(w, r, ops))
    ensures Agrees(w) && CarefulRun(w, r, ops) ==> Agrees(Run(w, r, ops))
    decreases |ops|
  {
    if ops != [] {
      hide Indexed, Orderly, Agrees, Careful, Next;
      NextIsIndexed(w, r, ops[0]);
      if Orderly(w) { NextIsOrderly(w, r, ops[0]); }
      if Agrees(w) { NextAgreesIff(w, r, ops[0]); }
      RunAgrees(Next(w, r, ops[0]), r, ops[1..]);
    }
  }

  ghost predicate AgreesThroughout(w: World, r: Rules, ops: seq<Op>) {
    forall n | 0 <= n <= |ops| :: Agrees(Run(w, r, ops[..n]))
  }

  /** And only so long: they agree all through a run exactly when every operation of it is careful. */
  lemma {:induction false} AgreesThroughoutIff(w: World, r: Rules, ops: seq<Op>)
    requires Indexed(w, r) && Agrees(w)
    ensures AgreesThroughout(w, r, ops) <==> CarefulRun(w, r, ops)
    decreases |ops|
  {
    hide Indexed, Agrees, Careful, Next, AgreesThroughout;
    if ops == [] {
      ThroughoutNothing(w, r);
    } else {
      var w', rest := Next(w, r, ops[0]), ops[1..];
      NextIsIndexed(w, r, ops[0]);
      NextAgreesIff(w, r, ops[0]);
      if Agrees(w') { AgreesThroughoutIff(w', r, rest); }
      ThroughoutStarts(w', r, rest);
      ThroughoutStep(w, r, ops);
    }
  }

  lemma ThroughoutNothing(w: World, r: Rules)
    requires Agrees(w)
    ensures AgreesThroughout(w, r, [])
  {
    hide Agrees;
    var none: seq<Op> := [];
    assert none[..0] == none;
  }

  lemma ThroughoutStarts(w: World, r: Rules, ops: seq<Op>)
    ensures AgreesThroughout(w, r, ops) ==> Agrees(w)
  {
    hide Agrees, Next;
    assert ops[..0] == [] && Run(w, r, ops[..0]) == w;
  }

  lemma ThroughoutStep(w: World, r: Rules, ops: seq<Op>)
    requires ops != [] && Agrees(w)
    ensures AgreesThroughout(w, r, ops) <==> AgreesThroughout(Next(w, r, ops[0]), r, ops[1..])
  {
    hide Agrees, Next;
    var w', rest := Next(w, r, ops[0]), ops[1..];
    forall n | 0 < n <= |ops| ensures Run(w, r, ops[..n]) == Run(w', r, rest[..n - 1]) {
      assert ops[..n][1..] == rest[..n - 1];
    }
    assert Run(w, r, ops[..0]) == w;
    if AgreesThroughout(w, r, ops) {
      forall n | 0 <= n <= |rest| ensures Agrees(Run(w', r, rest[..n])) {
        assert Agrees(Run(w, r, ops[..n + 1]));
      }
    }
    if AgreesThroughout(w', r, rest) {
      forall n | 0 <= n <= |ops| ensures Agrees(Run(w, r, ops[..n])) {
        if n > 0 { assert Agrees(Run(w', r, rest[..n - 1])); }
      }
    }
  }

  lemma StartAgrees(r: Rules)
    ensures Indexed(START, r) && Agrees(START) && Orderly(START)
  {
  }

  lemma IndexedIsSound(w: World, r: Rules)
    requires Indexed(w, r)
    ensures Sound(w.tables)
  {
  }
}
