/** What a confirmed answer is as a document (internal/rag/qa.go), and what the chunker makes of it. */
module Answers {
  import opened Text
  import opened Headings
  import opened Packing
  import opened Chunking
  import opened QaLoop

  /** The document of an answer, line by line: the question as a heading, a blank line, the answer. */
  lemma QaMarkdownLines(q: string, a: string)
    requires '\n' !in q
    ensures Split(QaMarkdown(q, a), "\n") == ["# " + Trim(q), ""] + Split(Trim(a), "\n") + [""]
  {
    TrimIsIn(q);
    hide Trim, Split;
    var head, text := "# " + Trim(q), Trim(a);
    FourLines(head, text);
    SplitPiece(head, '\n', "" + ['\n'] + (text + "\n"));
    SplitPiece("", '\n', text + "\n");
    LastLine(text);
    hide QaMarkdown;
    assert ["# " + Trim(q), ""] + Split(text, "\n") + [""] == [head] + ([""] + (Split(text, "\n") + [""]));
  }

  lemma FourLines(head: string, text: string)
    ensures head + "\n\n" + text + "\n" == head + ['\n'] + ("" + ['\n'] + (text + "\n"))
  {
    assert "" + ['\n'] + (text + "\n") == "\n" + (text + "\n");
    assert "\n\n" == "\n" + "\n";
  }

  lemma LastLine(text: string)
    ensures Split(text + "\n", "\n") == Split(text, "\n") + [""]
  {
    hide Split;
    SplitAppend(text, "\n", "\n");
    SplitFree(text, '\n');
    var parts := Split(text, "\n");
    var last := Last(parts);
    assert last in parts && parts == DropLast(parts) + [last];
    assert last + "\n" == last + ['\n'] + "";
    SplitPiece(last, '\n', "");
    SplitPiece("", '\n', "");
    assert [last] + [""] == [last, ""];
    assert DropLast(parts) + [last, ""] == parts + [""];
  }

  lemma TrimIsIn(s: string)
    ensures '\n' !in s ==> '\n' !in Trim(s)
  {
    var l, r := TrimSplits(s);
    assert forall c | c in Trim(s) :: c in l + Trim(s) + r;
  }

  /** An answer of one plain line comes to one chunk, named by the question and ending in that line. */
  lemma PlainAnswerIsOneChunk(q: string, a: string) returns (before: string)
    requires '\n' !in q && Trim(q) != "" && Trim(a) != "" && '\n' !in Trim(a) && HeadingIn(Trim(a)).level == 0
    ensures Chunks(Split(QaMarkdown(q, a), "\n")) == [Chunk(Trim(q), before + Trim(a))]
  {
    hide *;
    var head, text := "# " + Trim(q), Trim(a);
    QaMarkdownLines(q, a);
    SplitPiece(text, '\n', "");
    assert [head, ""] + [text] + [""] == [head, "", text, ""];
    PlainSection(q, text);
    TrimsAreTrimmed(a);
    before := OneSection([head, "", text, ""], Trim(q), text);
  }

  lemma TrimsAreTrimmed(a: string)
    ensures Trimmed(Trim(a))
  {
  }

  lemma PlainSection(q: string, text: string)
    requires Trim(q) != "" && text != "" && Trimmed(text) && HeadingIn(text).level == 0
    ensures SectionsOf(["# " + Trim(q), "", text, ""], [], "") == [Section(Trim(q), text)]
  {
    hide Trim, HeadingIn, SectionsOf, Pushed, SectionUnder, Trimmed;
    var head, crumb := "# " + Trim(q), [Trim(q)];
    QuestionHeads(q);
    NothingHeads();
    assert [head, "", text, ""] == [head] + ["", text, ""] && ["", text, ""] == [""] + [text, ""];
    assert [text, ""] == [text] + [""] && [""] == [""] + [];
    SectionsStep(head, ["", text, ""], [], "");
    assert "" + "" + "\n" == "\n" && "\n" + text + "\n" + "" + "\n" == "\n" + text + "\n\n";
    TextStep("", [text, ""], crumb, "", "\n");
    TextStep(text, [""], crumb, "\n", "\n" + text + "\n");
    TextStep("", [], crumb, "\n" + text + "\n", "\n" + text + "\n\n");
    SectionsEnd(crumb, "\n" + text + "\n\n");
    SectionStands(q, text);
    assert [Section(Trim(q), text)] + [] == [Section(Trim(q), text)];
    assert [] + SectionsOf(["", text, ""], crumb, "") == SectionsOf(["", text, ""], crumb, "");
  }

  lemma TextStep(line: string, rest: seq<string>, crumb: seq<string>, buf: string, buf': string)
    requires HeadingIn(line).level == 0 && buf' == buf + line + "\n"
    ensures SectionsOf([line] + rest, crumb, buf) == SectionsOf(rest, crumb, buf')
  {
    hide HeadingIn, SectionsOf, SectionUnder, Pushed;
    SectionsStep(line, rest, crumb, buf);
  }

  lemma QuestionHeads(q: string)
    requires Trim(q) != ""
    ensures HeadingIn("# " + Trim(q)) == Heading(1, Trim(q)) && Pushed([], Heading(1, Trim(q))) == [Trim(q)]
  {
    var head := "# " + Trim(q);
    assert Last(head) == Last(Trim(q)) && head[0] == '#';
    TrimOfTrimmed(head);
    TrimOfTrimmed(Trim(q));
    hide Trim, HeadingIn;
    assert Sharp(1) == "#" && head == Sharp(1) + " " + Trim(q);
    HeadingIff(head, 1, Trim(q));
  }

  lemma SectionStands(q: string, text: string)
    requires Trim(q) != "" && text != "" && Trimmed(text)
    ensures SectionUnder([Trim(q)], "\n" + text + "\n\n") == [Section(Trim(q), text)]
  {
    TextStands(text);
    hide Trim;
    NonEmptyKeeps([Trim(q)], []);
    assert Breadcrumb([Trim(q)]) == Trim(q);
  }

  lemma TextStands(text: string)
    requires Trimmed(text) && text != ""
    ensures Trim("\n" + text + "\n\n") == text
  {
    var t := text + "\n\n";
    assert ("\n" + text + "\n\n")[1..] == t && DropLast(t) == text + "\n" && DropLast(text + "\n") == text;
    assert TrimLeft("\n" + text + "\n\n") == TrimLeft(t) == t;
    assert TrimRight(t) == TrimRight(text + "\n") == text;
  }

  lemma NothingHeads()
    ensures HeadingIn("").level == 0 && SectionUnder([], "") == []
  {
    TrimOfTrimmed("");
  }

  /** A document of one section without a line break in it. */
  lemma OneSection(lines: seq<string>, heading: string, body: string) returns (before: string)
    requires SectionsOf(lines, [], "") == [Section(heading, body)] && Trimmed(body) && body != "" && '\n' !in body
    ensures Chunks(lines) == [Chunk(heading, before + body)]
  {
    hide SectionsOf, Trimmed, SubHeading, PackedParts, RunText;
    var s := Section(heading, body);
    assert [s][1..] == [] && [] + [s] == [s];
    if Short(s) {
      before := SubHeading(heading) + "\n";
      assert Grouped([s], []) == [Merged([s])] + [];
      assert [Merged([s])] + [] == [Merged([s])];
      ChunksOfOne(Merged([s]));
      OneTitled(s);
    } else {
      before := "";
      assert "" + body == body;
      assert Grouped([s], []) == [] + [Single(s)] + [];
      assert [] + [Single(s)] + [] == [Single(s)];
      ChunksOfOne(Single(s));
      if |body| > MAX_CHARS { OneLongLine(heading, body); }
    }
  }

  lemma OneTitled(s: Section)
    ensures RunText([s]) == SubHeading(s.heading) + "\n" + s.body && SharedAll(Crumbs([s])) == s.heading
  {
    var none: seq<Section> := [];
    assert none + [s] == [s];
    RunTextAppend(none, s);
  }

  /** A line that is too long has nowhere to be broken. */
  lemma OneLongLine(heading: string, body: string)
    requires |body| > MAX_CHARS && Trimmed(body) && '\n' !in body
    ensures SameHeading(heading, PackedParts(body)) == [Chunk(heading, body)]
  {
    hide LineParts, Split, Trim, PackedParts, Pieces;
    OneLine(body);
    assert [body][1..] == [];
    OnePiece(body);
  }

  lemma OnePiece(body: string)
    requires |body| > MAX_CHARS && '\n' !in body && LineParts(body) == [body]
    ensures PackedParts(body) == [body]
  {
    SplitOpen(body);
    BlankNothing();
    CurTextOfNothing();
    hide LineParts, Split, Trim, CurText;
    assert [body][1..] == [] && [Lines(body)] + [] == [Lines(body)];
    assert Pieces([], "", []) == [];
    assert Pieces([body], "", []) == [Lines(body)] + Pieces([], "", []);
    AllPartsOne(Lines(body));
  }

  lemma OneLine(body: string)
    requires Trimmed(body) && '\n' !in body
    ensures LineParts(body) == [body]
  {
    TrimOfTrimmed(body);
    SplitPiece(body, '\n', "");
    hide Trim, Split;
    var none: seq<string> := [];
    assert [body][1..] == none && none + [body] == [body];
    assert RowGroups([], [], [body]) == [[body]];
    assert RowGroups([], [body], []) == RowGroups([], [], [body]);
    assert PartsOf([], [[body]]) == [Join(none + [body], "\n")];
  }
}
