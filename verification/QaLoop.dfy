/** The loop that turns a gap into a document and back (internal/rag/qa.go): each operation on the
    tickets and the documents together, and when the two still agree afterwards. */
module QaLoop {
  import opened Text
  import opened Chunking
  import opened Paths
  import opened Corpus
  import opened Tickets
  import opened Ingest

  const QA_KIND: string := "answer"
  const QA_ABOUT: string := "Confirmed answer to a question the documents did not cover."

  /** The documents, the tickets and the clock. */
  datatype World = World(tables: Tables, desk: Desk, now: nat)

  const START := World(EMPTY, Desk(map[], 0), 0)

  /** The two functions the index is derived with: a text's chunks, a text's vector. */
  datatype Rules = Rules(split: string -> seq<Chunk>, embed: string -> Vector)

  function QaMarkdown(question: string, answer: string): string {
    "# " + Trim(question) + "\n\n" + Trim(answer) + "\n"
  }

  function AnswerDoc(rel: string, question: string, answer: string): Doc {
    Doc(rel, question, "", QA_KIND, QA_ABOUT, QaMarkdown(question, answer))
  }

  predicate UnderQa(path: string) { QA_DIR + "/" <= path }

  /* ---- the operations ---- */

  function Unlinked(w: World, path: string): World {
    w.(tables := Removed(w.tables, path, w.now), now := w.now + 1)
  }

  /** Split, embed and write; `fails` is the embedding service failing. */
  function Brought(w: World, r: Rules, d: Doc, fails: bool): World {
    var cs := r.split(d.body);
    if cs == [] || fails then w
    else w.(tables := Ingested(w.tables, d, cs, VectorsFor(cs, r.embed), w.now), now := w.now + 1)
  }

  function Unpublished(w: World, id: nat): World {
    if id in w.desk.tickets && w.desk.tickets[id].docPath != "" then Unlinked(w, w.desk.tickets[id].docPath) else w
  }

  /** Confirm, once the path has been decided: the old name goes, the answer comes in, its chunks
      are approved, and the ticket closes last. */
  function ConfirmedAs(w: World, r: Rules, id: nat, answer: string, rel: string, fails: bool): World
    requires id in w.desk.tickets
  {
    var t := w.desk.tickets[id];
    var w1 := if t.docPath != "" && t.docPath != rel then Unlinked(w, t.docPath) else w;
    var d := AnswerDoc(rel, t.question, answer);
    if r.split(d.body) != [] && fails then w1
    else
      var w2 := Brought(w1, r, d, fails);
      World(Approved(w2.tables, rel), ConfirmedAt(w2.desk, id, answer, rel), w2.now)
  }

  function AfterConfirm(w: World, r: Rules, id: nat, answer: string, name: string, fails: bool): World {
    if Trim(answer) == "" || id !in w.desk.tickets then w
    else
      var rel := QaPath(id, name, w.desk.tickets[id].docPath);
      if rel.None? then w else ConfirmedAs(w, r, id, Trim(answer), rel.value, fails)
  }

  function AfterRetract(w: World, id: nat): World {
    if !In(w.desk, id, {Confirmed}) then w
    else
      var w1 := Unpublished(w, id);
      w1.(desk := Retracted(w1.desk, id))
  }

  function AfterReject(w: World, id: nat, note: string): World {
    if id !in w.desk.tickets then w
    else
      var w1 := Unpublished(w, id);
      w1.(desk := RejectedWith(w1.desk, id, note))
  }

  function AfterDelete(w: World, id: nat): World {
    if id !in w.desk.tickets then w
    else
      var w1 := Unpublished(w, id);
      w1.(desk := Deleted(w1.desk, id))
  }

  /* ---- what a confirmed answer becomes ---- */

  /** The question as a heading, a blank line, and the answer, both without the blanks around them. */
  function AnswerText(question: string, answer: string): string {
    "# " + Trim(question) + "\n\n" + Trim(answer) + "\n"
  }

  /** The document at `rel` answers, with this text and under this question. */
  ghost predicate Answers(t: Tables, rel: string, question: string, text: string) {
    && rel in t.documents && t.documents[rel].deletedAt.None?
    && t.documents[rel].doc == Doc(rel, question, "", "answer", "Confirmed answer to a question the documents did not cover.", text)
  }

  /** A confirm, once it may go through: the answer's document answers under its path with the question
      and the answer in it, and the ticket is closed with both. */
  lemma ConfirmPutsUp(w: World, r: Rules, id: nat, answer: string, name: string)
    ensures id in w.desk.tickets && Trim(answer) != "" ==>
      var t, w' := w.desk.tickets[id], AfterConfirm(w, r, id, answer, name, false);
      var rel := QaPath(id, name, t.docPath);
      rel.Some? && r.split(AnswerText(t.question, answer)) != [] ==>
        && Answers(w'.tables, rel.value, t.question, AnswerText(t.question, answer)) && id in w'.desk.tickets
        && (t.status != Rejected ==> w'.desk.tickets[id] == t.(answer := Trim(answer), docPath := rel.value, status := Confirmed, note := ""))
  {
    if id in w.desk.tickets && Trim(answer) != "" {
      TrimOfTrimmed(Trim(answer));
      hide Trim, QaPath, Ingested, Removed;
      var t, rel := w.desk.tickets[id], QaPath(id, name, w.desk.tickets[id].docPath);
      if rel.Some? {
        var w1 := if t.docPath != "" && t.docPath != rel.value then Unlinked(w, t.docPath) else w;
        var d := AnswerDoc(rel.value, t.question, Trim(answer));
        var cs := r.split(d.body);
        IngestedDocument(w1.tables, d, cs, VectorsFor(cs, r.embed), w1.now);
        ApprovedDocuments(Brought(w1, r, d, false).tables, rel.value);
        hide Approved;
      }
    }
  }

  /** What a confirm has done before it brings the answer in. */
  function OldNameGone(w: World, id: nat, rel: string): World
    requires id in w.desk.tickets
  {
    var t := w.desk.tickets[id];
    if t.docPath != "" && t.docPath != rel then Unlinked(w, t.docPath) else w
  }

  /** What a confirm has done when it stops early, when the service fails, and when it is through. */
  lemma ConfirmSteps(w: World, r: Rules, id: nat, answer: string, name: string)
    ensures Trim(answer) == "" || id !in w.desk.tickets ==> AfterConfirm(w, r, id, answer, name, false) == w
    ensures Trim(answer) != "" && id in w.desk.tickets ==>
      var t := w.desk.tickets[id];
      var rel := QaPath(id, name, t.docPath);
      if rel.None? then AfterConfirm(w, r, id, answer, name, false) == w
      else
        var w1, d := OldNameGone(w, id, rel.value), AnswerDoc(rel.value, t.question, Trim(answer));
        var w2 := Brought(w1, r, d, false);
        && (r.split(d.body) != [] ==> AfterConfirm(w, r, id, answer, name, true) == w1)
        && AfterConfirm(w, r, id, answer, name, false)
             == World(Approved(w2.tables, rel.value), ConfirmedAt(w2.desk, id, Trim(answer), rel.value), w2.now)
  {
    hide Removed, Ingested, Approved, QaPath, QaMarkdown, ConfirmedAt, Trim, VectorsFor;
  }

  lemma ApprovedDocuments(t: Tables, path: string)
    ensures Approved(t, path).documents == t.documents
  {
  }

  /* ---- the engine ---- */

  class Engine {
    const store: Store
    const desk: TicketTable
    const ingester: Ingester

    constructor (store: Store, desk: TicketTable, ingester: Ingester)
      requires ingester.store == store
      ensures this.store == store && this.desk == desk && this.ingester == ingester
    {
      this.store, this.desk, this.ingester := store, desk, ingester;
    }

    predicate Wired() { ingester.store == store }

    function Derivation(): Rules {
      Rules(body => Chunks(Split(ingester.clean(body), "\n")), ingester.ai.embedding)
    }

    function State(): World
      reads store, desk
    {
      World(store.State(), desk.State(), store.clock)
    }

    method Unpublish(id: nat)
      requires Wired()
      modifies store
      ensures State() == Unpublished(old(State()), id)
    {
      if id in desk.tickets && desk.tickets[id].docPath != "" {
        var _ := store.RemoveDocument(desk.tickets[id].docPath);
      }
    }

    method Reject(id: nat, note: string) returns (ok: bool)
      requires Wired()
      modifies store, desk
      ensures State() == AfterReject(old(State()), id, note)
      ensures ok == (id in old(desk.tickets) && old(desk.tickets)[id].status != Rejected)
      ensures ok ==> desk.tickets == old(desk.tickets)[id := old(desk.tickets)[id].(note := Trim(note), docPath := "", status := Rejected)]
    {
      if id !in desk.tickets {
        return false;
      }
      Unpublish(id);
      ok := desk.Reject(id, note);
    }

    method Retract(id: nat) returns (ok: bool)
      requires Wired()
      modifies store, desk
      ensures State() == AfterRetract(old(State()), id)
      ensures ok ==> id in old(desk.tickets)
      ensures desk.tickets == if ok then old(desk.tickets)[id := old(desk.tickets)[id].(docPath := "", status := Answered)]
                              else old(desk.tickets)
    {
      if id !in desk.tickets || desk.tickets[id].status != Confirmed {
        return false;
      }
      Unpublish(id);
      ok := desk.Retract(id);
    }

    method Delete(id: nat) returns (ok: bool)
      requires Wired()
      modifies store, desk
      ensures State() == AfterDelete(old(State()), id)
      ensures ok == (id in old(desk.tickets)) && desk.tickets == old(desk.tickets) - {id}
    {
      if id !in desk.tickets {
        return false;
      }
      Unpublish(id);
      ok := desk.DeleteTicket(id);
    }

    /** Whether the embedding service failed is not the caller's to choose. */
    method Confirm(id: nat, answer: string, name: string) returns (ok: bool, fails: bool)
      requires Wired()
      modifies store, desk
      ensures State() == AfterConfirm(old(State()), Derivation(), id, answer, name, fails)
      ensures id in old(desk.tickets) && Trim(answer) != "" && !fails ==>
        var t := old(desk.tickets)[id];
        var rel := QaPath(id, name, t.docPath);
        rel.Some? && Derivation().split(AnswerText(t.question, answer)) != [] ==>
          Answers(store.State(), rel.value, t.question, AnswerText(t.question, answer))
    {
      hide Removed, Ingested, Approved, QaPath, Chunks, Split, IsThere, ConfirmedAt, Trim, Answers, AnswerText, QaMarkdown, AfterConfirm, ConfirmedAs, VectorsFor;
      ghost var w, rules := State(), Derivation();
      ConfirmPutsUp(w, rules, id, answer, name);
      ConfirmSteps(w, rules, id, answer, name);
      fails := false;
      var text := Trim(answer);
      if text == "" || id !in desk.tickets {
        return false, false;
      }
      var t := desk.tickets[id];
      var rel := QaPath(id, name, t.docPath);
      if rel.None? {
        return false, false;
      }
      if t.docPath != "" && t.docPath != rel.value {
        var _ := store.RemoveDocument(t.docPath);
      }
      ghost var w1 := State();
      assert w1 == OldNameGone(w, id, rel.value);
      var d := AnswerDoc(rel.value, t.question, text);
      assert rules.split(d.body) == Chunks(Split(ingester.clean(d.body), "\n"));
      var r := ingester.Ingest(d);
      if r == Failed {
        return false, true;
      }
      assert State() == Brought(w1, rules, d, false);
      store.Approve(rel.value);
      ok := desk.Confirm(id, text, rel.value);
    }
  }
}
