/** Runs from an empty start after which the queue and the corpus do not agree (internal/rag/qa.go):
    one for each condition that the operations need and do not check. */
module Partings {
  import opened Text
  import opened Headings
  import opened Chunking
  import opened Paths
  import opened Corpus
  import opened Tickets
  import opened Ingest
  import opened QaLoop
  import opened Agreement

  /** The name a ticket's answer gets when none is typed, and another one to type. */
  const FIRST: string := "qa/ticket-0.md"
  const TYPED: string := "qa/b.md"

  function NewTicket(q: string): Ticket { Ticket(Trim(q), Normalise(Trim(q)), "", Open, "", "", "") }

  lemma FirstIs(current: string)
    ensures QaPath(0, "", current) == Some(if current == "" then FIRST else current)
  {
    TrimOfTrimmed("");
    CleanFirst();
    hide SafePath, Clean, TypedName;
  }

  lemma CleanFirst()
    ensures Clean(QA_DIR + "/" + ("ticket-" + Decimal(0) + ".md")) == FIRST
  {
    var file := "ticket-" + Decimal(0) + ".md";
    assert Decimal(0) == "0";
    assert QA_DIR + "/" + file == FIRST;
    hide *;
    FirstNameIsGood(0);
    GoodIsGood([QA_DIR, file]);
    CleanOfGood([QA_DIR, file]);
    JoinTwo(QA_DIR, file);
  }

  lemma GoodIsGood(segs: seq<string>)
    requires GoodPath(segs, true)
    ensures GoodSegments(segs)
  {
  }

  lemma JoinTwo(a: string, b: string)
    ensures Join([a, b], "/") == a + "/" + b
  {
    assert [a, b][1..] == [b];
  }

  lemma TypedIs(id: nat, current: string)
    ensures QaPath(id, TYPED, current) == Some(TYPED)
  {
    var segs := [QA_DIR, "b.md"];
    ExtOfMd("b");
    assert "b" + ".md" == "b.md" && Lower(".md") == ".md" && IsText("b.md");
    assert GoodSegment("b.md") && GoodSegment(QA_DIR) by { ShortIsGood(); }
    JoinTwo(QA_DIR, "b.md");
    assert Join(segs, "/") == TYPED;
    assert QA_DIR + "/" <= TYPED && GoodPath(segs, true);
    hide GoodPath, QaPath;
    RetypedPathIsTheSame(id, TYPED, current);
  }

  lemma ShortIsGood()
    ensures GoodSegment("b.md") && GoodSegment(QA_DIR)
  {
    assert "b.md"[0] == 'b' && Last("b.md") == 'd' && QA_DIR[0] == 'q' && Last(QA_DIR) == 'a';
  }

  /* ---- steps ---- */

  lemma AskedOnce(r: Rules, q: string)
    requires Trim(q) != ""
    ensures Next(START, r, OpenTicket(q, "")) == World(EMPTY, Desk(map[0 := NewTicket(q)], 1), 0)
    ensures Indexed(Next(START, r, OpenTicket(q, "")), r) && Agrees(Next(START, r, OpenTicket(q, "")))
  {
    StartAgrees(r);
    NextIsIndexed(START, r, OpenTicket(q, ""));
    NextAgreesIff(START, r, OpenTicket(q, ""));
    TrimOfTrimmed("");
    hide Normalise, Agrees, Indexed;
    assert !Asked(START.desk, NewTicket(q).norm);
  }

  lemma AskedTwice(r: Rules, q: string, q': string) returns (w: World)
    requires Trim(q) != "" && Trim(q') != "" && Normalise(Trim(q)) != Normalise(Trim(q'))
    ensures w == Next(Next(START, r, OpenTicket(q, "")), r, OpenTicket(q', ""))
    ensures w == World(EMPTY, Desk(map[0 := NewTicket(q), 1 := NewTicket(q')], 2), 0)
    ensures Indexed(w, r) && Agrees(w)
  {
    var w1 := Next(START, r, OpenTicket(q, ""));
    AskedOnce(r, q);
    w := Next(w1, r, OpenTicket(q', ""));
    NextIsIndexed(w1, r, OpenTicket(q', ""));
    NextAgreesIff(w1, r, OpenTicket(q', ""));
    TrimOfTrimmed("");
    hide Normalise, Agrees, Indexed;
    assert !Asked(w1.desk, NewTicket(q').norm);
  }

  /** A confirm that is safe, where it leads. */
  lemma Published(w: World, r: Rules, id: nat, a: string, name: string, rel: string) returns (w': World)
    requires Indexed(w, r) && Agrees(w) && id in w.desk.tickets && w.desk.tickets[id].status == Open
    requires Trim(a) != "" && QaPath(id, name, w.desk.tickets[id].docPath) == Some(rel)
    requires r.split(QaMarkdown(w.desk.tickets[id].question, Trim(a))) != [] && !OtherClaims(w.desk, id, rel)
    ensures w' == Next(w, r, Confirm(id, a, name, false)) && Indexed(w', r) && Agrees(w')
    ensures w'.desk == ConfirmedAt(w.desk, id, Trim(a), rel)
  {
    w' := Next(w, r, Confirm(id, a, name, false));
    hide Agrees, Indexed, QaPath, Next, QaMarkdown;
    NextIsIndexed(w, r, Confirm(id, a, name, false));
    ConfirmIs(w, r, id, a, name, rel);
    ConfirmAgreesIff(w, r, id, a, name);
  }

  lemma ConfirmIs(w: World, r: Rules, id: nat, a: string, name: string, rel: string)
    requires id in w.desk.tickets && Trim(a) != "" && QaPath(id, name, w.desk.tickets[id].docPath) == Some(rel)
    requires r.split(QaMarkdown(w.desk.tickets[id].question, Trim(a))) != []
    ensures Next(w, r, Confirm(id, a, name, false)) == AfterConfirm(w, r, id, a, name, false)
    ensures Next(w, r, Confirm(id, a, name, false)).desk == ConfirmedAt(w.desk, id, Trim(a), rel)
  {
    hide QaPath, Removed, Ingested, Approved, QaMarkdown;
  }

  lemma TwoSteps(w: World, r: Rules, a: Op, b: Op)
    ensures Run(w, r, [a, b]) == Next(Next(w, r, a), r, b)
  {
    hide Next;
    assert [a, b][1..] == [b] && [b][1..] == [];
    assert Run(Next(w, r, a), r, [b]) == Next(Next(w, r, a), r, b);
  }

  lemma ThreeSteps(w: World, r: Rules, a: Op, b: Op, c: Op)
    ensures Run(w, r, [a, b, c]) == Next(Next(Next(w, r, a), r, b), r, c)
  {
    hide Next;
    TwoSteps(Next(w, r, a), r, b, c);
    assert [a, b, c][1..] == [b, c];
  }

  lemma FourSteps(w: World, r: Rules, a: Op, b: Op, c: Op, d: Op)
    ensures Run(w, r, [a, b, c, d]) == Next(Next(Next(Next(w, r, a), r, b), r, c), r, d)
  {
    hide Next;
    ThreeSteps(Next(w, r, a), r, b, c, d);
    assert [a, b, c, d][1..] == [b, c, d];
  }

  /* ---- runs ---- */

  /** An answer with nothing to index is confirmed. */
  lemma EmptyAnswerPartsThem(r: Rules, q: string, a: string)
    requires Trim(q) != "" && Trim(a) != "" && r.split(QaMarkdown(Trim(q), Trim(a))) == []
    ensures !Agrees(Run(START, r, [OpenTicket(q, ""), Confirm(0, a, "", false)]))
  {
    hide Agrees, Indexed, QaPath, Run, QaMarkdown, AfterConfirm, Normalise;
    var w1 := Next(START, r, OpenTicket(q, ""));
    TwoSteps(START, r, OpenTicket(q, ""), Confirm(0, a, "", false));
    AskedOnce(r, q);
    FirstIs("");
    ConfirmAgreesIff(w1, r, 0, a, "");
  }

  /** There are such answers: a heading with nothing under it. */
  lemma HeadingHasNothingToIndex()
    ensures Chunks(Split(QaMarkdown("q", "# x"), "\n")) == []
  {
    TrimOfTrimmed("q");
    TrimOfTrimmed("# x");
    var lines := ["# q", "", "# x", ""];
    assert QaMarkdown("q", "# x") == "# q" + "\n" + ("" + "\n" + ("# x" + "\n" + ""));
    SplitPiece("# q", '\n', "" + "\n" + ("# x" + "\n" + ""));
    SplitPiece("", '\n', "# x" + "\n" + "");
    SplitPiece("# x", '\n', "");
    assert Split(QaMarkdown("q", "# x"), "\n") == lines;
    HeadingsOnly();
    NoChunksIffNoSections(lines);
  }

  lemma HeadingsOnly()
    ensures SectionsOf(["# q", "", "# x", ""], [], "") == []
  {
    HeadingLines();
    BlankBuffers();
    hide HeadingIn, Pushed, SectionsOf, Trim;
    var c1 := Pushed([], HeadingIn("# q"));
    var c2 := Pushed(c1, HeadingIn("# x"));
    assert ["# q", "", "# x", ""] == ["# q"] + ([""] + (["# x"] + [""])) && [""] + [] == [""];
    HeadingStep("# q", [""] + (["# x"] + [""]), [], "");
    EmptyLineStep(["# x"] + [""], c1);
    HeadingStep("# x", [""], c1, "\n");
    EmptyLineStep([], c2);
    NothingLeft(c2, "\n");
  }

  lemma HeadingStep(line: string, rest: seq<string>, crumb: seq<string>, buf: string)
    requires HeadingIn(line).level > 0 && Trim(buf) == ""
    ensures SectionsOf([line] + rest, crumb, buf) == SectionsOf(rest, Pushed(crumb, HeadingIn(line)), "")
  {
    hide HeadingIn, Pushed, Trim, SectionsOf;
    SectionsStep(line, rest, crumb, buf);
  }

  lemma EmptyLineStep(rest: seq<string>, crumb: seq<string>)
    requires HeadingIn("").level == 0
    ensures SectionsOf([""] + rest, crumb, "") == SectionsOf(rest, crumb, "\n")
  {
    hide HeadingIn, Pushed, Trim, SectionsOf;
    SectionsStep("", rest, crumb, "");
    assert "" + "" + "\n" == "\n";
  }

  lemma NothingLeft(crumb: seq<string>, buf: string)
    requires Trim(buf) == ""
    ensures SectionsOf([], crumb, buf) == []
  {
    hide Trim;
  }

  lemma HeadingLines()
    ensures HeadingIn("# q").level == 1 && HeadingIn("").level == 0 && HeadingIn("# x").level == 1
  {
    TrimOfTrimmed("# q");
    TrimOfTrimmed("# x");
    TrimOfTrimmed("");
  }

  lemma BlankBuffers()
    ensures Trim("") == "" && Trim("\n") == ""
  {
    TrimOfTrimmed("");
    TrimEmptyIffBlank("\n");
  }

  /** A rejected ticket is confirmed. */
  lemma RejectedConfirmPartsThem(r: Rules, q: string, a: string)
    requires Trim(q) != "" && Trim(a) != "" && r.split(QaMarkdown(Trim(q), Trim(a))) != []
    ensures !Agrees(Run(START, r, [OpenTicket(q, ""), Reject(0, ""), Confirm(0, a, "", false)]))
  {
    hide Agrees, Indexed, QaPath, Run, QaMarkdown, AfterConfirm, Normalise, Next;
    ThreeSteps(START, r, OpenTicket(q, ""), Reject(0, ""), Confirm(0, a, "", false));
    FirstIs("");
    var w2 := AskedAndRejected(r, q);
    ConfirmIs(w2, r, 0, a, "", FIRST);
    ConfirmAgreesIff(w2, r, 0, a, "");
  }

  lemma AskedAndRejected(r: Rules, q: string) returns (w: World)
    requires Trim(q) != ""
    ensures w == Next(Next(START, r, OpenTicket(q, "")), r, Reject(0, "")) && Indexed(w, r) && Agrees(w)
    ensures w.desk.tickets == map[0 := NewTicket(q).(status := Rejected)]
  {
    hide Agrees, Indexed, Normalise;
    var w1 := Next(START, r, OpenTicket(q, ""));
    w := Next(w1, r, Reject(0, ""));
    AskedOnce(r, q);
    NextIsIndexed(w1, r, Reject(0, ""));
    NextAgreesIff(w1, r, Reject(0, ""));
    TrimOfTrimmed("");
  }

  /** Two tickets are confirmed under one name. */
  lemma SameNamePartsThem(r: Rules, q: string, q': string, a: string, b: string)
    requires Trim(q) != "" && Trim(q') != "" && Normalise(Trim(q)) != Normalise(Trim(q')) && Trim(a) != "" && Trim(b) != ""
    requires r.split(QaMarkdown(Trim(q), Trim(a))) != []
    ensures !Agrees(Run(START, r, [OpenTicket(q, ""), OpenTicket(q', ""), Confirm(0, a, TYPED, false), Confirm(1, b, TYPED, false)]))
  {
    hide Agrees, Indexed, QaPath, Run, QaMarkdown, AfterConfirm, Normalise;
    FourSteps(START, r, OpenTicket(q, ""), OpenTicket(q', ""), Confirm(0, a, TYPED, false), Confirm(1, b, TYPED, false));
    var w2 := AskedTwice(r, q, q');
    TypedIs(0, "");
    TypedIs(1, "");
    var w3 := Published(w2, r, 0, a, TYPED, TYPED);
    assert IsConfirmed(w3.desk, 0) && w3.desk.tickets[0].docPath == TYPED && w3.desk.tickets[1] == NewTicket(q');
    ConfirmAgreesIff(w3, r, 1, b, TYPED);
  }

  /** A published answer is confirmed under another name while the embedding service fails. */
  lemma FailedRenamePartsThem(r: Rules, q: string, a: string)
    requires Trim(q) != "" && Trim(a) != "" && r.split(QaMarkdown(Trim(q), Trim(a))) != []
    ensures !Agrees(Run(START, r, [OpenTicket(q, ""), Confirm(0, a, "", false), Confirm(0, a, TYPED, true)]))
  {
    hide Agrees, Indexed, QaPath, Run, QaMarkdown, ConfirmedAs, Normalise;
    ThreeSteps(START, r, OpenTicket(q, ""), Confirm(0, a, "", false), Confirm(0, a, TYPED, true));
    var w2 := FirstPublished(r, q, a);
    TypedIs(0, FIRST);
    FailedConfirmAgreesIff(w2, r, 0, Trim(a), TYPED);
  }

  /** A published answer is edited in the library. */
  lemma EditPartsThem(r: Rules, q: string, a: string, d: Doc)
    requires Trim(q) != "" && Trim(a) != "" && r.split(QaMarkdown(Trim(q), Trim(a))) != []
    requires d.path == FIRST && Trim(d.body) != "" && r.split(d.body) != []
    ensures !Agrees(Run(START, r, [OpenTicket(q, ""), Confirm(0, a, "", false), Save(d, false)]))
  {
    hide Agrees, Indexed, QaPath, Run, QaMarkdown, Next, Normalise, Trim;
    ThreeSteps(START, r, OpenTicket(q, ""), Confirm(0, a, "", false), Save(d, false));
    var w2 := FirstPublished(r, q, a);
    IndexedIsSound(w2, r);
    SaveAgreesIff(w2, r, d, false);
  }

  /** A published answer is removed in the library. */
  lemma RemovalPartsThem(r: Rules, q: string, a: string)
    requires Trim(q) != "" && Trim(a) != "" && r.split(QaMarkdown(Trim(q), Trim(a))) != []
    ensures !Agrees(Run(START, r, [OpenTicket(q, ""), Confirm(0, a, "", false), Remove(FIRST)]))
  {
    hide Agrees, Indexed, QaPath, Run, QaMarkdown, Next, Normalise, Trim;
    ThreeSteps(START, r, OpenTicket(q, ""), Confirm(0, a, "", false), Remove(FIRST));
    var w2 := FirstPublished(r, q, a);
    FirstAnswers(w2);
    NextAgreesIff(w2, r, Remove(FIRST));
  }

  lemma FirstPublished(r: Rules, q: string, a: string) returns (w: World)
    requires Trim(q) != "" && Trim(a) != "" && r.split(QaMarkdown(Trim(q), Trim(a))) != []
    ensures w == Next(Next(START, r, OpenTicket(q, "")), r, Confirm(0, a, "", false)) && Indexed(w, r) && Agrees(w)
    ensures w.desk.tickets.Keys == {0} && w.desk.next == 1
    ensures w.desk.tickets[0] == NewTicket(q).(answer := Trim(a), docPath := FIRST, status := Confirmed)
  {
    hide Agrees, Indexed, QaPath, QaMarkdown, Next, Normalise, Trim;
    AskedOnce(r, q);
    FirstIs("");
    w := Published(Next(START, r, OpenTicket(q, "")), r, 0, a, "", FIRST);
  }

  lemma FirstAnswers(w: World)
    requires Agrees(w) && 0 in w.desk.tickets && w.desk.tickets[0].status == Confirmed && w.desk.tickets[0].docPath == FIRST
    ensures UnderQa(FIRST) && Live(w.tables, FIRST)
  {
    hide QaMarkdown, Linked, OwnPaths, Exclusive, ApprovalsRight;
    assert IsConfirmed(w.desk, 0);
    assert LiveBody(w.tables, FIRST).Some?;
  }

  /** An answer is published, its question asked again, and the answer taken back. */
  lemma RetractCanPartThem(r: Rules, q: string, a: string)
    requires Trim(q) != "" && Trim(a) != "" && r.split(QaMarkdown(Trim(q), Trim(a))) != []
    ensures !Agrees(Run(START, r, [OpenTicket(q, ""), Confirm(0, a, "", false), OpenTicket(q, ""), Retract(0)]))
  {
    hide Agrees, Indexed, QaPath, Run, QaMarkdown, AfterConfirm, AfterRetract, Normalise;
    FourSteps(START, r, OpenTicket(q, ""), Confirm(0, a, "", false), OpenTicket(q, ""), Retract(0));
    var w2 := FirstPublished(r, q, a);
    var w3 := Next(w2, r, OpenTicket(q, ""));
    NextIsIndexed(w2, r, OpenTicket(q, ""));
    NextAgreesIff(w2, r, OpenTicket(q, ""));
    IndexedIsSound(w3, r);
    AskedAgain(w2, r, q);
    RetractAgreesIff(w3, 0);
  }

  lemma AskedAgain(w: World, r: Rules, q: string)
    requires Trim(q) != "" && w.desk.tickets.Keys == {0} && w.desk.next == 1
    requires w.desk.tickets[0].status == Confirmed && w.desk.tickets[0].norm == Normalise(Trim(q))
    ensures var d := Next(w, r, OpenTicket(q, "")).desk; IsConfirmed(d, 0) && Asked(d, d.tickets[0].norm)
  {
    hide Normalise;
    assert !Asked(w.desk, Normalise(Trim(q)));
    var d := Opened(w.desk, q, "");
    assert 1 in d.tickets && Pending(d.tickets[1]) && d.tickets[1].norm == d.tickets[0].norm;
  }
}
