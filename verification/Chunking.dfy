/** The markdown chunker of internal/rag/chunk.go, from lines that have been cleaned already:
    sections under their breadcrumbs, undersized neighbours merged, oversized ones broken up. */
module Chunking {
  import opened Text
  import opened Headings
  import opened Packing

  /** Below this a section cannot be retrieved on its own merit. */
  const MIN_CHARS: nat := 600

  datatype Chunk = Chunk(heading: string, content: string)

  /** A run of lines under one heading: the breadcrumb and the trimmed text. */
  datatype Section = Section(heading: string, body: string)

  /* ---- sections ---- */

  function SectionUnder(crumb: seq<string>, buf: string): seq<Section> {
    if Trim(buf) == "" then [] else [Section(Breadcrumb(crumb), Trim(buf))]
  }

  /** The non-empty sections of the lines, given the heading stack and the text read so far. */
  function SectionsOf(lines: seq<string>, crumb: seq<string>, buf: string): seq<Section> {
    if lines == [] then SectionUnder(crumb, buf)
    else
      var h := HeadingIn(lines[0]);
      if h.level > 0 then SectionUnder(crumb, buf) + SectionsOf(lines[1..], Pushed(crumb, h), "")
      else SectionsOf(lines[1..], crumb, buf + lines[0] + "\n")
  }

  /* ---- grouping ---- */

  /** How a section reaches the index: alone, broken up, or merged with its neighbours. */
  datatype Group = Alone(s: Section) | Oversized(s: Section) | Merged(run: seq<Section>)

  predicate Short(s: Section) { |s.body| < MIN_CHARS }

  function Titled(s: Section): string {
    SubHeading(s.heading) + "\n" + s.body
  }

  function Titles(run: seq<Section>): (r: seq<string>)
    ensures |r| == |run|
  {
    if run == [] then [] else Titles(DropLast(run)) + [Titled(Last(run))]
  }

  /** The text of merged sections: each one's text under its own heading. */
  function RunText(run: seq<Section>): string {
    Join(Titles(run), "\n\n")
  }

  function Crumbs(run: seq<Section>): (r: seq<string>)
    ensures |r| == |run|
  {
    if run == [] then [] else Crumbs(DropLast(run)) + [Last(run).heading]
  }

  function SameHeading(heading: string, parts: seq<string>): seq<Chunk> {
    if parts == [] then [] else [Chunk(heading, parts[0])] + SameHeading(heading, parts[1..])
  }

  function GroupChunks(g: Group): seq<Chunk> {
    match g
    case Alone(s) => [Chunk(s.heading, s.body)]
    case Oversized(s) => SameHeading(s.heading, PackedParts(s.body))
    case Merged(run) => RunChunk(run)
  }

  function RunChunk(run: seq<Section>): seq<Chunk> {
    if run == [] then [] else [Chunk(SharedAll(Crumbs(run)), RunText(run))]
  }

  function ChunksOf(gs: seq<Group>): seq<Chunk> {
    if gs == [] then [] else GroupChunks(gs[0]) + ChunksOf(gs[1..])
  }

  function Closed(run: seq<Section>): seq<Group> {
    if run == [] then [] else [Merged(run)]
  }

  function Single(s: Section): Group {
    if |s.body| > MAX_CHARS then Oversized(s) else Alone(s)
  }

  /** Short sections collect in `run` until their text is worth retrieving. */
  function Grouped(ss: seq<Section>, run: seq<Section>): seq<Group> {
    if ss == [] then Closed(run)
    else if !Short(ss[0]) then Closed(run) + [Single(ss[0])] + Grouped(ss[1..], [])
    else
      var grown := run + [ss[0]];
      if |RunText(grown)| >= MIN_CHARS then [Merged(grown)] + Grouped(ss[1..], [])
      else Grouped(ss[1..], grown)
  }

  /** What the chunker makes of a document. */
  function Chunks(lines: seq<string>): seq<Chunk> {
    ChunksOf(Grouped(SectionsOf(lines, [], ""), []))
  }

  lemma {:induction false} ChunksOfConcat(a: seq<Group>, b: seq<Group>)
    ensures ChunksOf(a + b) == ChunksOf(a) + ChunksOf(b)
  {
    hide GroupChunks;
    if a == [] {
      assert a + b == b;
    } else {
      ChunksOfConcat(a[1..], b);
      assert (a + b)[1..] == a[1..] + b;
      Assoc(GroupChunks(a[0]), ChunksOf(a[1..]), ChunksOf(b));
    }
  }

  lemma ChunksOfOne(g: Group)
    ensures ChunksOf([g]) == GroupChunks(g)
  {
    assert [g][1..] == [] && GroupChunks(g) + [] == GroupChunks(g);
  }

  /** A section that stands by itself puts the pending run out first. */
  lemma SingleStep(s: Section, rest: seq<Section>, run: seq<Section>)
    requires !Short(s)
    ensures ChunksOf(Grouped([s] + rest, run)) ==
      RunChunk(run) + (GroupChunks(Single(s)) + ChunksOf(Grouped(rest, [])))
  {
    hide GroupChunks, Single, RunText;
    var g := Single(s);
    assert ([s] + rest)[1..] == rest;
    Assoc(Closed(run), [g], Grouped(rest, []));
    ChunksOfConcat(Closed(run), [g] + Grouped(rest, []));
    ChunksOfConcat([g], Grouped(rest, []));
    ChunksOfOne(g);
    assert ChunksOf(Closed(run)) == RunChunk(run) by {
      if run != [] {
        ChunksOfOne(Merged(run));
        assert GroupChunks(Merged(run)) == RunChunk(run) by { MergedChunks(run); }
      }
    }
  }

  lemma MergedChunks(run: seq<Section>)
    ensures GroupChunks(Merged(run)) == RunChunk(run)
    ensures ChunksOf(Closed(run)) == RunChunk(run)
  {
    if run != [] { ChunksOfOne(Merged(run)); }
  }

  /** A short section joins the run, which goes out as soon as it is long enough. */
  lemma ShortStep(s: Section, rest: seq<Section>, run: seq<Section>)
    requires Short(s)
    ensures ChunksOf(Grouped([s] + rest, run)) ==
      if |RunText(run + [s])| >= MIN_CHARS then RunChunk(run + [s]) + ChunksOf(Grouped(rest, []))
      else ChunksOf(Grouped(rest, run + [s]))
  {
    hide GroupChunks, RunText, Short, RunChunk;
    assert ([s] + rest)[0] == s && ([s] + rest)[1..] == rest;
    var grown := run + [s];
    ChunksOfConcat([Merged(grown)], Grouped(rest, []));
    ChunksOfOne(Merged(grown));
    MergedChunks(grown);
  }

  lemma RunTextAppend(run: seq<Section>, s: Section)
    ensures RunText(run + [s]) == if run == [] then Titled(s) else RunText(run) + "\n\n" + Titled(s)
    ensures Crumbs(run + [s]) == Crumbs(run) + [s.heading]
    ensures SharedAll(Crumbs(run + [s])) == if run == [] then s.heading else Shared(SharedAll(Crumbs(run)), s.heading)
  {
    assert DropLast(run + [s]) == run;
    assert Titles(run + [s]) == Titles(run) + [Titled(s)];
    if run != [] {
      JoinAppend(Titles(run), Titled(s), "\n\n");
      assert DropLast(Crumbs(run) + [s.heading]) == Crumbs(run);
    }
  }

  /* ---- the chunker ---- */

  class Chunker {
    var out: seq<Chunk>
    var pend: Option<Chunk>     // an undersized chunk waiting for the next section
    var crumb: seq<string>      // heading stack
    var buf: string
    var curHead: string
    ghost var run: seq<Section> // the sections in `pend`

    /** The pending chunk is the run's chunk. */
    ghost predicate Valid()
      reads this
    {
      && curHead == Breadcrumb(crumb)
      && pend == if run == [] then None else Some(Chunk(SharedAll(Crumbs(run)), RunText(run)))
    }

    /** Between two sections nothing pending is long enough to go out. */
    ghost predicate Settled()
      reads this
    {
      Valid() && (run != [] ==> |RunText(run)| < MIN_CHARS)
    }

    /** What will have been put out when the sections `ss` have gone through as well. */
    ghost function Outcome(ss: seq<Section>): seq<Chunk>
      reads `out, `run
    {
      out + ChunksOf(Grouped(ss, run))
    }

    constructor ()
      ensures Settled() && out == [] && run == [] && crumb == [] && buf == ""
    {
      out, pend, crumb, buf, curHead, run := [], None, [], "", "", [];
    }

    method Emit()
      requires Valid()
      modifies this`out, this`pend, this`run
      ensures Settled() && run == []
      ensures out == old(out) + RunChunk(old(run))
    {
      if pend.Some? {
        out := out + [pend.value];
        pend := None;
      }
      run := [];
    }

    /** One section is complete. The last case of the source's switch, which would put the pending
        chunk out before starting another, is proved to be out of reach. */
    method Flush(ghost rest: seq<Section>)
      requires Settled()
      modifies this`out, this`pend, this`run, this`buf
      ensures Settled() && buf == ""
      ensures Outcome(rest) == old(Outcome(SectionUnder(crumb, buf) + rest))
    {
      hide Grouped, ChunksOf, RunText, SharedAll, Crumbs, PackedParts, Breadcrumb, SubHeading, Shared, Trim, Titled, GroupChunks, Single, Short, RunChunk, SameHeading, Titles;
      var body := Trim(buf);
      ghost var start := out;
      buf := "";
      if body == "" {
        assert [] + rest == rest;
        return;
      }
      ghost var s := Section(curHead, body);
      if |body| > MAX_CHARS {
        SingleOutcome(start, s, rest, run);
        Emit();
        var parts := PackParagraphs(body);
        ghost var before := out;
        for i := 0 to |parts|
          invariant out + SameHeading(curHead, parts[i..]) == before + SameHeading(curHead, parts)
          invariant Settled() && run == [] && buf == "" && curHead == old(curHead)
        {
          PartOut(out, curHead, parts, i);
          out := out + [Chunk(curHead, parts[i])];
        }
        PartsEnd(out, curHead, parts);
      } else if |body| >= MIN_CHARS {
        SingleOutcome(start, s, rest, run);
        Emit();
        out := out + [Chunk(curHead, body)];
      } else {
        ShortOutcome(start, s, rest, run);
        Grown(run, s);
        if pend == None {
          pend := Some(Chunk(curHead, SubHeading(curHead) + "\n" + body));
        } else if |pend.value.content| + |body| <= MAX_CHARS {
          var heading := SharedCrumb(pend.value.heading, curHead);
          pend := Some(Chunk(heading, pend.value.content + "\n\n" + SubHeading(curHead) + "\n" + body));
        } else {
          assert false;
        }
        run := run + [s];
      }
      if pend.Some? && |pend.value.content| >= MIN_CHARS {
        Emit();
      }
    }

    /** One line: a heading closes the section before it and moves the stack, anything else is text. */
    method Line(line: string, ghost rest: seq<string>)
      requires Settled()
      modifies this
      ensures Settled()
      ensures Outcome(SectionsOf(rest, crumb, buf)) == old(Outcome(SectionsOf([line] + rest, crumb, buf)))
    {
      hide Outcome, Grouped, ChunksOf, SectionsOf, SectionUnder, HeadingIn, Pushed, RunText, SharedAll, Crumbs, NonEmptyOf, Join;
      var h := HeadingOf(line);
      SectionsStep(line, rest, crumb, buf);
      if h.level > 0 {
        Flush(SectionsOf(rest, Pushed(crumb, h), ""));
        crumb := Push(crumb, h);
        var names := NonEmpty(crumb);
        curHead := Join(names, CRUMB_SEP);
      } else {
        buf := buf + line;
        buf := buf + "\n";
      }
    }

    /** The document ends: the last section, then whatever is pending. */
    method Finish() returns (chunks: seq<Chunk>)
      requires Settled()
      modifies this`out, this`pend, this`run, this`buf
      ensures chunks == old(Outcome(SectionUnder(crumb, buf) + []))
    {
      Flush([]);
      GroupedEnd(run);
      Emit();
      chunks := out;
    }
  }

  lemma GroupedEnd(run: seq<Section>)
    ensures ChunksOf(Grouped([], run)) == RunChunk(run)
  {
    MergedChunks(run);
  }

  /** The pending chunk once it has taken in one more section. */
  lemma Grown(run: seq<Section>, s: Section)
    ensures SharedAll(Crumbs(run + [s])) == if run == [] then s.heading else Shared(SharedAll(Crumbs(run)), s.heading)
    ensures RunText(run + [s]) ==
      if run == [] then SubHeading(s.heading) + "\n" + s.body
      else RunText(run) + "\n\n" + SubHeading(s.heading) + "\n" + s.body
  {
    RunTextAppend(run, s);
    hide RunText, SharedAll, Crumbs, SubHeading;
    assert RunText(run) + "\n\n" + SubHeading(s.heading) + "\n" + s.body == RunText(run) + "\n\n" + Titled(s);
  }

  lemma SingleOutcome(out: seq<Chunk>, s: Section, rest: seq<Section>, run: seq<Section>)
    requires |s.body| >= MIN_CHARS
    ensures out + ChunksOf(Grouped([s] + rest, run)) == out + RunChunk(run)
      + (if |s.body| > MAX_CHARS then SameHeading(s.heading, PackedParts(s.body)) else [Chunk(s.heading, s.body)])
      + ChunksOf(Grouped(rest, []))
  {
    assert GroupChunks(Single(s)) ==
      if |s.body| > MAX_CHARS then SameHeading(s.heading, PackedParts(s.body)) else [Chunk(s.heading, s.body)];
    hide GroupChunks, Single, ChunksOf, Grouped, RunChunk, SameHeading, PackedParts;
    SingleStep(s, rest, run);
    Assoc(out, RunChunk(run), GroupChunks(Single(s)) + ChunksOf(Grouped(rest, [])));
    Assoc(out + RunChunk(run), GroupChunks(Single(s)), ChunksOf(Grouped(rest, [])));
  }

  lemma ShortOutcome(out: seq<Chunk>, s: Section, rest: seq<Section>, run: seq<Section>)
    requires |s.body| < MIN_CHARS
    ensures out + ChunksOf(Grouped([s] + rest, run)) ==
      if |RunText(run + [s])| >= MIN_CHARS then out + RunChunk(run + [s]) + ChunksOf(Grouped(rest, []))
      else out + ChunksOf(Grouped(rest, run + [s]))
  {
    hide ChunksOf, Grouped, RunText, RunChunk;
    ShortStep(s, rest, run);
    Assoc(out, RunChunk(run + [s]), ChunksOf(Grouped(rest, [])));
  }

  lemma PartOut(out: seq<Chunk>, heading: string, parts: seq<string>, i: nat)
    requires i < |parts|
    ensures out + SameHeading(heading, parts[i..]) == out + [Chunk(heading, parts[i])] + SameHeading(heading, parts[i + 1..])
  {
    assert parts[i..][1..] == parts[i + 1..];
    Assoc(out, [Chunk(heading, parts[i])], SameHeading(heading, parts[i + 1..]));
  }

  lemma PartsEnd(out: seq<Chunk>, heading: string, parts: seq<string>)
    ensures out + SameHeading(heading, parts[|parts|..]) == out
  {
    assert parts[|parts|..] == [];
  }

  lemma SectionsStep(line: string, rest: seq<string>, crumb: seq<string>, buf: string)
    ensures var h := HeadingIn(line);
      SectionsOf([line] + rest, crumb, buf) ==
      if h.level > 0 then SectionUnder(crumb, buf) + SectionsOf(rest, Pushed(crumb, h), "")
      else SectionsOf(rest, crumb, buf + line + "\n")
  {
    assert ([line] + rest)[1..] == rest;
  }

  lemma SectionsEnd(crumb: seq<string>, buf: string)
    ensures SectionsOf([], crumb, buf) == SectionUnder(crumb, buf) + []
  {
  }

  /** The chunker. Its result is the groups' chunks, whatever the lines. */
  method SplitMarkdown(lines: seq<string>) returns (out: seq<Chunk>)
    ensures out == Chunks(lines)
  {
    ghost var all := Chunks(lines);
    var c := new Chunker();
    hide Grouped, ChunksOf, SectionsOf;
    assert [] + all == all;
    assert c.Outcome(SectionsOf(lines, [], "")) == all;
    hide *;
    assert lines[0..] == lines && lines[|lines|..] == [];
    for i := 0 to |lines|
      invariant c.Settled()
      invariant c.Outcome(SectionsOf(lines[i..], c.crumb, c.buf)) == all
    {
      FirstOfRest(lines, i);
      c.Line(lines[i], lines[i + 1..]);
    }
    SectionsEnd(c.crumb, c.buf);
    out := c.Finish();
  }

  /* ---- every line of text is in one section ---- */

  /** A section before trimming: the headings read up to it, and its lines. */
  datatype Raw = Raw(hs: seq<Heading>, text: string)

  function RawOf(lines: seq<string>, hs: seq<Heading>, buf: string): seq<Raw> {
    if lines == [] then [Raw(hs, buf)]
    else
      var h := HeadingIn(lines[0]);
      if h.level > 0 then [Raw(hs, buf)] + RawOf(lines[1..], hs + [h], "")
      else RawOf(lines[1..], hs, buf + lines[0] + "\n")
  }

  predicate RealHeadings(hs: seq<Heading>) { forall h | h in hs :: h.level > 0 }

  function Visible(raws: seq<Raw>): seq<Section>
    requires forall r | r in raws :: RealHeadings(r.hs)
  {
    if raws == [] then []
    else
      assert raws[0] in raws && RealHeadings(raws[0].hs);
      SectionUnder(Stack(raws[0].hs), raws[0].text) + Visible(raws[1..])
  }

  function TextLines(lines: seq<string>): string {
    if lines == [] then ""
    else (if HeadingIn(lines[0]).level > 0 then "" else lines[0] + "\n") + TextLines(lines[1..])
  }

  function TextOf(raws: seq<Raw>): string {
    if raws == [] then "" else raws[0].text + TextOf(raws[1..])
  }

  /** The sections are the stretches between headings, blank ones left out, each under the heading
      stack of the headings before it; and the stretches together are the lines that are not
      headings, in order. */
  lemma {:induction false} SectionsKeepText(lines: seq<string>, hs: seq<Heading>, buf: string)
    requires RealHeadings(hs)
    ensures var raws := RawOf(lines, hs, buf);
      && (forall r | r in raws :: RealHeadings(r.hs))
      && SectionsOf(lines, Stack(hs), buf) == Visible(raws)
      && TextOf(raws) == buf + TextLines(lines)
  {
    hide HeadingIn, SectionUnder, Pushed;
    if lines == [] {
      assert SectionUnder(Stack(hs), buf) + [] == SectionUnder(Stack(hs), buf);
      assert [Raw(hs, buf)][1..] == [];
    } else {
      var line, rest, h := lines[0], lines[1..], HeadingIn(lines[0]);
      if h.level > 0 {
        assert DropLast(hs + [h]) == hs;
        SectionsKeepText(rest, hs + [h], "");
        var raws := RawOf(rest, hs + [h], "");
        assert ([Raw(hs, buf)] + raws)[1..] == raws;
        assert "" + TextLines(rest) == TextLines(rest);
      } else {
        SectionsKeepText(rest, hs, buf + line + "\n");
        TextAssoc(buf, line, TextLines(rest));
      }
    }
  }

  lemma TextAssoc(buf: string, line: string, rest: string)
    ensures buf + line + "\n" + rest == buf + (line + "\n" + rest)
  {
  }

  /** The stretches with anything in them. */
  function Shown(raws: seq<Raw>): (r: seq<Raw>)
    ensures forall raw | raw in r :: raw in raws
  {
    if raws == [] then [] else (if Blank(raws[0].text) then [] else [raws[0]]) + Shown(raws[1..])
  }

  /** A section's body is the text of its stretch, all of it but the blanks around it; and its heading
      is the names of the headings it stands under, which can be read back. */
  ghost predicate IsStretch(s: Section, raw: Raw)
    requires RealHeadings(raw.hs)
  {
    && s.body != "" && Trimmed(s.body)
    && (exists l: string, r: string :: raw.text == l + s.body + r && Blank(l) && Blank(r))
    && ((forall name | name in Stack(raw.hs) :: Separable(name)) ==>
          var names := NonEmptyOf(Stack(raw.hs));
          if names == [] then s.heading == "" else Split(s.heading, " > ") == names)
  }

  lemma SectionIsStretch(raw: Raw)
    requires RealHeadings(raw.hs) && !Blank(raw.text)
    ensures var ss := SectionUnder(Stack(raw.hs), raw.text); |ss| == 1 && IsStretch(ss[0], raw)
  {
    TrimEmptyIffBlank(raw.text);
    var l, r := TrimSplits(raw.text);
    hide Trim, Breadcrumb, Stack;
    if forall name | name in Stack(raw.hs) :: Separable(name) { BreadcrumbSplits(Stack(raw.hs)); }
  }

  lemma {:induction false} VisibleAreShown(raws: seq<Raw>)
    requires forall r | r in raws :: RealHeadings(r.hs)
    ensures |Visible(raws)| == |Shown(raws)|
    ensures forall i | 0 <= i < |Visible(raws)| :: RealHeadings(Shown(raws)[i].hs) && IsStretch(Visible(raws)[i], Shown(raws)[i])
  {
    hide IsStretch, SectionUnder, Stack, Blank;
    if raws != [] {
      var first, rest := raws[0], raws[1..];
      assert first in raws && RealHeadings(first.hs) && forall r | r in rest :: r in raws;
      VisibleAreShown(rest);
      if Blank(first.text) { BlankIsNoSection(first); } else { SectionIsStretch(first); }
      hide RealHeadings;
      var ss := SectionUnder(Stack(first.hs), first.text);
      assert Visible(raws) == ss + Visible(rest) && Shown(raws) == (if Blank(first.text) then [] else [first]) + Shown(rest);
    }
  }

  lemma BlankIsNoSection(raw: Raw)
    requires RealHeadings(raw.hs) && Blank(raw.text)
    ensures SectionUnder(Stack(raw.hs), raw.text) == []
  {
    TrimEmptyIffBlank(raw.text);
  }

  /** The sections of a document are its stretches that are not blank, one each, in order. */
  lemma SectionsAreStretches(lines: seq<string>)
    ensures var raws, ss := Shown(RawOf(lines, [], "")), SectionsOf(lines, [], "");
      && |ss| == |raws|
      && forall i | 0 <= i < |ss| :: RealHeadings(raws[i].hs) && IsStretch(ss[i], raws[i])
  {
    hide IsStretch, Shown, Visible, SectionsOf, RawOf;
    SectionsKeepText(lines, [], "");
    VisibleAreShown(RawOf(lines, [], ""));
  }

  /* ---- what comes out of a group ---- */

  /** The last of a breadcrumb's names. */
  function LastName(heading: string): string { Last(Split(heading, " > ")) }

  /** A section alone is one chunk, its body; one over the limit is its parts, each under its heading; and
      merged ones are one chunk, which holds each body under its own last name, in order. */
  ghost predicate IsPutOut(g: Group, cs: seq<Chunk>) {
    match g
    case Alone(s) => cs == [Chunk(s.heading, s.body)]
    case Oversized(s) =>
      var parts := PackedParts(s.body);
      |cs| == |parts| && forall i | 0 <= i < |parts| :: cs[i] == Chunk(s.heading, parts[i])
    case Merged(run) =>
      |cs| == 1 && cs[0].content == Join(seq(|run|, i requires 0 <= i < |run| => "## " + LastName(run[i].heading) + "\n" + run[i].body), "\n\n")
  }

  lemma GroupIsPutOut(g: Group)
    requires g.Merged? ==> g.run != []
    ensures IsPutOut(g, GroupChunks(g))
  {
    match g {
      case Alone(s) =>
      case Oversized(s) => SameHeadingAt(s.heading, PackedParts(s.body));
      case Merged(run) =>
        TitleAt(run);
        hide Split;
        assert Titles(run) == seq(|run|, i requires 0 <= i < |run| => "## " + LastName(run[i].heading) + "\n" + run[i].body);
    }
  }

  lemma {:induction false} SameHeadingAt(heading: string, parts: seq<string>)
    ensures |SameHeading(heading, parts)| == |parts|
    ensures forall i | 0 <= i < |parts| :: SameHeading(heading, parts)[i] == Chunk(heading, parts[i])
  {
    if parts != [] { SameHeadingAt(heading, parts[1..]); }
  }

  lemma {:induction false} ChunksInOrder(gs: seq<Group>)
    ensures ChunksOf(gs) == Concat(seq(|gs|, i requires 0 <= i < |gs| => GroupChunks(gs[i])))
  {
    hide GroupChunks;
    var all := seq(|gs|, i requires 0 <= i < |gs| => GroupChunks(gs[i]));
    if gs != [] {
      ChunksInOrder(gs[1..]);
      assert all[1..] == seq(|gs| - 1, i requires 0 <= i < |gs| - 1 => GroupChunks(gs[1..][i]));
    }
  }

  /** The chunks of a document, from its text: each stretch between headings is one section, sections are
      grouped by size, and each group's chunks hold the bodies of its sections. */
  lemma ChunksHoldTheText(lines: seq<string>) returns (gs: seq<Group>, css: seq<seq<Chunk>>)
    ensures WellGrouped(SectionsOf(lines, [], ""), gs) && |css| == |gs|
    ensures Chunks(lines) == Concat(css) && forall i | 0 <= i < |gs| :: IsPutOut(gs[i], css[i])
    ensures var raws, ss := Shown(RawOf(lines, [], "")), SectionsOf(lines, [], "");
      |ss| == |raws| && forall i | 0 <= i < |ss| :: RealHeadings(raws[i].hs) && IsStretch(ss[i], raws[i])
  {
    hide IsStretch, Shown, SectionsOf, RawOf, Grouped, ChunksOf, IsPutOut, GroupChunks, Stops, Growing;
    var ss := SectionsOf(lines, [], "");
    gs := Grouped(ss, []);
    SectionsAreStretches(lines);
    NothingGrows();
    GroupedIsWellGrouped(ss, []);
    assert [] + ss == ss;
    ChunksInOrder(gs);
    css := seq(|gs|, i requires 0 <= i < |gs| => GroupChunks(gs[i]));
    forall i | 0 <= i < |gs| ensures IsPutOut(gs[i], css[i]) {
      assert FitsGroup(gs[i]);
      GroupIsPutOut(gs[i]);
    }
  }

  lemma NothingGrows()
    ensures Growing([], 1)
  {
  }

  /* ---- the grouping, described without the loop ---- */

  function Members(gs: seq<Group>): seq<Section> {
    if gs == [] then [] else Own(gs[0]) + Members(gs[1..])
  }

  function Own(g: Group): seq<Section> {
    match g
    case Alone(s) => [s]
    case Oversized(s) => [s]
    case Merged(run) => run
  }

  /** A section is alone or broken up by its size; a merged run is of short sections and was not
      worth retrieving before its last one. */
  ghost predicate FitsGroup(g: Group) {
    match g
    case Alone(s) => MIN_CHARS <= |s.body| <= MAX_CHARS
    case Oversized(s) => |s.body| > MAX_CHARS
    case Merged(run) => run != [] && Growing(run, |run|)
  }

  ghost predicate Growing(run: seq<Section>, n: nat) {
    (forall s | s in run :: Short(s)) && forall k | 0 < k < n && k <= |run| :: |RunText(run[..k])| < MIN_CHARS
  }

  /** A merged run stops when it is worth retrieving, or because what follows is not short. */
  ghost predicate Stops(g: Group, next: Group) {
    g.Merged? && next.Merged? ==> |RunText(g.run)| >= MIN_CHARS
  }

  ghost predicate WellGrouped(ss: seq<Section>, gs: seq<Group>) {
    && Members(gs) == ss
    && (forall i | 0 <= i < |gs| :: FitsGroup(gs[i]))
    && (forall i | 0 < i < |gs| :: Stops(gs[i - 1], gs[i]))
  }

  lemma WellGroupedCons(g: Group, ss: seq<Section>, gs: seq<Group>)
    requires FitsGroup(g) && WellGrouped(ss, gs) && (gs != [] ==> Stops(g, gs[0]))
    ensures WellGrouped(Own(g) + ss, [g] + gs)
  {
    assert ([g] + gs)[1..] == gs;
  }

  lemma WellGroupedTail(ss: seq<Section>, gs: seq<Group>)
    requires gs != [] && WellGrouped(ss, gs)
    ensures Own(gs[0]) <= ss && WellGrouped(ss[|Own(gs[0])|..], gs[1..])
  {
    assert ss[|Own(gs[0])|..] == Members(gs[1..]);
    assert forall i | 0 <= i < |gs[1..]| :: gs[1..][i] == gs[i + 1];
  }

  /** The chunker's grouping fits the description: every section is in exactly one group, in
      order ... */
  lemma {:induction false} GroupedIsWellGrouped(ss: seq<Section>, run: seq<Section>)
    requires Growing(run, |run| + 1)
    ensures WellGrouped(run + ss, Grouped(ss, run))
    decreases |ss|
  {
    hide RunText;
    if ss == [] {
      WellGroupedRun(run, [], []);
      assert Closed(run) + [] == Closed(run);
    } else {
      var s, rest := ss[0], ss[1..];
      assert ss == [s] + rest;
      if !Short(s) {
        GroupedIsWellGrouped(rest, []);
        assert [] + rest == rest;
        WellGroupedCons(Single(s), rest, Grouped(rest, []));
        WellGroupedRun(run, ss, [Single(s)] + Grouped(rest, []));
        Assoc(Closed(run), [Single(s)], Grouped(rest, []));
      } else {
        var grown := run + [s];
        GrownRun(run, s);
        Assoc(run, [s], rest);
        if |RunText(grown)| >= MIN_CHARS {
          GroupedIsWellGrouped(rest, []);
          assert [] + rest == rest;
          WellGroupedCons(Merged(grown), rest, Grouped(rest, []));
        } else {
          GroupedIsWellGrouped(rest, grown);
        }
      }
    }
  }

  lemma GrownRun(run: seq<Section>, s: Section)
    requires Growing(run, |run| + 1) && Short(s)
    ensures Growing(run + [s], |run| + 1)
    ensures |RunText(run + [s])| < MIN_CHARS ==> Growing(run + [s], |run| + 2)
  {
    hide RunText;
    var grown := run + [s];
    assert forall k | 0 < k <= |run| :: grown[..k] == run[..k];
    assert grown[..|grown|] == grown;
  }

  lemma WellGroupedRun(run: seq<Section>, ss: seq<Section>, gs: seq<Group>)
    requires Growing(run, |run| + 1) && WellGrouped(ss, gs) && (gs != [] ==> !gs[0].Merged?)
    ensures WellGrouped(run + ss, Closed(run) + gs)
  {
    hide RunText;
    if run == [] {
      assert [] + ss == ss && [] + gs == gs;
    } else {
      assert FitsGroup(Merged(run));
      WellGroupedCons(Merged(run), ss, gs);
    }
  }

  /** ... and it is the only grouping that does. */
  lemma {:induction false} OneGrouping(ss: seq<Section>, gs: seq<Group>, hs: seq<Group>)
    requires WellGrouped(ss, gs) && WellGrouped(ss, hs)
    ensures gs == hs
    decreases |ss|
  {
    if gs != [] { WellGroupedTail(ss, gs); }
    if hs != [] { WellGroupedTail(ss, hs); }
    if gs != [] && hs != [] {
      FirstRunNotShorter(ss, gs, hs);
      FirstRunNotShorter(ss, hs, gs);
      SameFirst(ss, gs[0], hs[0]);
      OneGrouping(ss[|Own(gs[0])|..], gs[1..], hs[1..]);
      assert gs == [gs[0]] + gs[1..] && hs == [hs[0]] + hs[1..];
    }
  }

  lemma SameFirst(ss: seq<Section>, g: Group, h: Group)
    requires FitsGroup(g) && FitsGroup(h) && Own(g) <= ss && Own(h) <= ss && |Own(g)| == |Own(h)|
    ensures g == h
  {
    assert Own(g)[0] == ss[0] == Own(h)[0];
    assert Own(g) == ss[..|Own(g)|] == Own(h);
    assert g.Merged? ==> g.run[0] in g.run;
    assert h.Merged? ==> h.run[0] in h.run;
  }

  /** When a short section follows the first group, that group was worth retrieving. */
  lemma FirstRunStops(ss: seq<Section>, gs: seq<Group>)
    requires gs != [] && WellGrouped(ss, gs)
    requires |Own(gs[0])| < |ss| && Short(ss[|Own(gs[0])|]) && gs[0].Merged?
    ensures |RunText(gs[0].run)| >= MIN_CHARS
  {
    hide RunText;
    WellGroupedTail(ss, gs);
    var rest := ss[|Own(gs[0])|..];
    assert gs[1..] != [];
    WellGroupedTail(rest, gs[1..]);
    assert FitsGroup(gs[1]) && Own(gs[1])[0] == rest[0];
    assert Stops(gs[0], gs[1]);
  }

  lemma FirstRunNotShorter(ss: seq<Section>, gs: seq<Group>, hs: seq<Group>)
    requires gs != [] && hs != [] && WellGrouped(ss, gs) && WellGrouped(ss, hs)
    ensures |Own(gs[0])| >= |Own(hs[0])|
  {
    hide RunText;
    WellGroupedTail(ss, gs);
    WellGroupedTail(ss, hs);
    var g, h := Own(gs[0]), Own(hs[0]);
    if |g| < |h| {
      assert FitsGroup(gs[0]) && FitsGroup(hs[0]);
      var run := hs[0].run;
      assert g == run[..|g|] && ss[|g|] == run[|g|];
      assert Short(run[0]) && Short(run[|g|]);
      assert g[0] == run[0];
      FirstRunStops(ss, gs);
      assert false;
    }
  }

  /* ---- how long a merged chunk may get, and what it is called ---- */

  /** A merged chunk is at most two sections' worth of short text, the marks around them and the
      last heading; this is what keeps the last case of `Flush` out of reach. */
  lemma MergedLength(run: seq<Section>)
    requires FitsGroup(Merged(run))
    ensures |RunText(run)| <= 2 * (MIN_CHARS - 1) + 6 + |Leaf(Last(run).heading)|
  {
    var before, s := DropLast(run), Last(run);
    assert run == before + [s] && before == run[..|before|];
    assert Short(s) && (before != [] ==> |RunText(before)| < MIN_CHARS);
    hide RunText, Leaf;
    RunTextAppend(before, s);
    TitledLength(s);
  }

  lemma TitledLength(s: Section)
    ensures |Titled(s)| == |s.body| + 4 + |Leaf(s.heading)|
  {
    hide Leaf;
  }

  /** The chunks of a document: each group's, in order. A chunk of a stand-alone section is that
      section; a merged one holds its sections' texts under their own headings, is named by a
      component prefix of its first section's breadcrumb, and by the longest breadcrumb prefix
      they all share as soon as they share one. */
  lemma MergedChunk(run: seq<Section>)
    requires run != []
    ensures GroupChunks(Merged(run)) == [Chunk(SharedAll(Crumbs(run)), Join(Titles(run), "\n\n"))]
    ensures forall i | 0 <= i < |run| :: Titles(run)[i] == Titled(run[i]) && Crumbs(run)[i] == run[i].heading
    ensures Split(SharedAll(Crumbs(run)), CRUMB_SEP) <= Split(run[0].heading, CRUMB_SEP)
    ensures CommonOfAll(Crumbs(run)) != [] ==> Split(SharedAll(Crumbs(run)), CRUMB_SEP) == CommonOfAll(Crumbs(run))
  {
    TitleAt(run);
    MergedHeading(Crumbs(run));
  }

  lemma {:induction false} TitleAt(run: seq<Section>)
    ensures forall i | 0 <= i < |run| :: Titles(run)[i] == Titled(run[i]) && Crumbs(run)[i] == run[i].heading
  {
    if run != [] {
      TitleAt(DropLast(run));
      assert forall i | 0 <= i < |run| - 1 :: DropLast(run)[i] == run[i];
    }
  }

  /* ---- a document with text has something to retrieve ---- */

  lemma {:induction false} BlankPieces(parts: seq<string>)
    requires NonBlank(parts) == []
    ensures Blank(Join(parts, "\n\n"))
  {
    if parts != [] {
      BlankPieces(DropLast(parts));
      assert parts == DropLast(parts) + [Last(parts)];
      assert Blank("\n\n");
      if |parts| > 1 {
        JoinAppend(DropLast(parts), Last(parts), "\n\n");
      }
    }
  }

  lemma PackedPartsExist(body: string)
    requires !Blank(body)
    ensures PackedParts(body) != []
  {
    if |body| > MAX_CHARS {
      PackedSection(body);
      var pieces := PiecesOf(body);
      if pieces == [] {
        assert FreshOf(pieces) == [];
        FreshOne(Lines(""));
        BlankPieces(Split(body, "\n\n"));
        assert false;
      }
      if pieces[0].Lines? { OversizedParagraph(pieces[0].p); }
    }
  }

  predicate HasText(ss: seq<Section>) {
    forall s | s in ss :: !Blank(s.body)
  }

  lemma {:induction false} SectionsHaveText(lines: seq<string>, crumb: seq<string>, buf: string)
    ensures HasText(SectionsOf(lines, crumb, buf))
  {
    TrimEmptyIffBlank(Trim(buf));
    TrimOfTrimmed(Trim(buf));
    if lines != [] {
      var h := HeadingIn(lines[0]);
      if h.level > 0 {
        SectionsHaveText(lines[1..], Pushed(crumb, h), "");
      } else {
        SectionsHaveText(lines[1..], crumb, buf + lines[0] + "\n");
      }
    }
  }

  lemma GroupHasChunks(g: Group)
    requires FitsGroup(g) && HasText(Own(g))
    ensures GroupChunks(g) != []
  {
    if g.Oversized? {
      assert g.s in Own(g);
      PackedPartsExist(g.s.body);
    }
  }

  /** A document comes to no chunks at all exactly when it has no text outside its headings. */
  lemma NoChunksIffNoSections(lines: seq<string>)
    ensures Chunks(lines) == [] <==> SectionsOf(lines, [], "") == []
  {
    var ss := SectionsOf(lines, [], "");
    var gs := Grouped(ss, []);
    SectionsHaveText(lines, [], "");
    GroupedIsWellGrouped(ss, []);
    assert [] + ss == ss;
    if ss != [] {
      WellGroupedTail(ss, gs);
      assert forall s | s in Own(gs[0]) :: s in ss;
      GroupHasChunks(gs[0]);
    }
  }
}
