/** When packing keeps to its limit, and when it puts out an empty part (internal/rag/chunk.go). Both
    are decided where a paragraph has no room beside the text collected so far. */
module PackingLimits {
  import opened Text
  import opened Packing

  /** The text collected so far at each paragraph's turn. */
  function Collected(paras: seq<string>, carry: string, added: seq<string>): (r: seq<string>)
    ensures |r| == |paras|
  {
    if paras == [] then []
    else
      var t := TurnOf(paras[0], carry, added);
      [CurText(carry, added)] + Collected(paras[1..], t.carry, t.added)
  }

  ghost predicate AtSomeCut(curs: seq<string>, paras: seq<string>, bad: (string, string) -> bool)
    requires |curs| == |paras|
  {
    exists i :: 0 <= i < |paras| && NoRoom(curs[i], paras[i]) && bad(curs[i], paras[i])
  }

  ghost predicate SomePiece(pieces: seq<Piece>, bad: Piece -> bool) {
    exists i :: 0 <= i < |pieces| && bad(pieces[i])
  }

  lemma AtCons(cur: string, p: string, curs: seq<string>, paras: seq<string>, bad: (string, string) -> bool)
    requires |curs| == |paras|
    ensures AtSomeCut([cur] + curs, [p] + paras, bad) <==> (NoRoom(cur, p) && bad(cur, p)) || AtSomeCut(curs, paras, bad)
  {
    hide NoRoom;
    var cs, ps := [cur] + curs, [p] + paras;
    if AtSomeCut(cs, ps, bad) {
      var i :| 0 <= i < |ps| && NoRoom(cs[i], ps[i]) && bad(cs[i], ps[i]);
      if i > 0 { assert curs[i - 1] == cs[i] && paras[i - 1] == ps[i]; }
    }
    if NoRoom(cur, p) && bad(cur, p) { assert cs[0] == cur && ps[0] == p; }
    if AtSomeCut(curs, paras, bad) {
      var i :| 0 <= i < |paras| && NoRoom(curs[i], paras[i]) && bad(curs[i], paras[i]);
      assert cs[i + 1] == curs[i] && ps[i + 1] == paras[i];
    }
  }

  lemma SomeConcat(a: seq<Piece>, b: seq<Piece>, bad: Piece -> bool)
    ensures SomePiece(a + b, bad) <==> SomePiece(a, bad) || SomePiece(b, bad)
  {
    if SomePiece(a + b, bad) {
      var i :| 0 <= i < |a + b| && bad((a + b)[i]);
      if i >= |a| { assert b[i - |a|] == (a + b)[i]; }
    }
    if SomePiece(a, bad) {
      var i :| 0 <= i < |a| && bad(a[i]);
      assert (a + b)[i] == a[i];
    }
    if SomePiece(b, bad) {
      var i :| 0 <= i < |b| && bad(b[i]);
      assert (a + b)[|a| + i] == b[i];
    }
  }

  lemma SomeOf(p: string, carry: string, added: seq<string>, bad: Piece -> bool)
    requires !bad(Lines(p))
    ensures SomePiece(TurnOf(p, carry, added).out, bad) <==> TurnOf(p, carry, added).out !in {[], [Lines(p)]} && bad(Packed(carry, added))
  {
    var out := TurnOf(p, carry, added).out;
    if out != [] && out != [Lines(p)] {
      assert out[0] == Packed(carry, added) && forall i | 0 < i < |out| :: out[i] == Lines(p);
    }
  }

  /* ---- the limit ---- */

  predicate TooLong(piece: Piece) {
    piece.Packed? && |Trim(CurText(piece.carry, piece.added))| > MAX_CHARS
  }

  /** What is carried over and the paragraph without room are too long together. */
  predicate TooLongTogether(cur: string, p: string) { |Trim(Tail(cur) + "\n\n" + p + "\n\n")| > MAX_CHARS }

  lemma TurnLength(p: string, carry: string, added: seq<string>)
    ensures var t, cur := TurnOf(p, carry, added), CurText(carry, added);
      SomePiece(t.out, TooLong) || TooLong(Packed(t.carry, t.added))
      <==> TooLong(Packed(carry, added)) || (NoRoom(cur, p) && TooLongTogether(cur, p))
  {
    var cur := CurText(carry, added);
    TurnText(p, carry, added);
    BlankNothing();
    TrimOfSpaced(cur + p);
    SomeOf(p, carry, added, TooLong);
    hide CurText, Trim, Tail, AllParts, SomePiece, LineParts;
  }

  lemma {:induction false} TooLongIffCut(paras: seq<string>, carry: string, added: seq<string>)
    ensures SomePiece(Pieces(paras, carry, added), TooLong)
       <==> TooLong(Packed(carry, added)) || AtSomeCut(Collected(paras, carry, added), paras, TooLongTogether)
    decreases |paras|
  {
    if paras == [] {
      BlankNothing();
      ClosingOf(carry, added, TooLong);
      hide SomePiece, CurText, Trim;
    } else {
      var t, rest := TurnOf(paras[0], carry, added), paras[1..];
      hide SomePiece, AtSomeCut, TooLong, TooLongTogether, TurnOf, NoRoom, CurText;
      TooLongIffCut(rest, t.carry, t.added);
      TurnLength(paras[0], carry, added);
      SomeConcat(t.out, Pieces(rest, t.carry, t.added), TooLong);
      FirstOfRest(paras, 0);
      AtCons(CurText(carry, added), paras[0], Collected(rest, t.carry, t.added), rest, TooLongTogether);
    }
  }

  lemma ClosingOf(carry: string, added: seq<string>, bad: Piece -> bool)
    ensures SomePiece(Closing(carry, added), bad) <==> Trim(CurText(carry, added)) != "" && bad(Packed(carry, added))
  {
    hide Trim, CurText;
    if Trim(CurText(carry, added)) != "" && bad(Packed(carry, added)) {
      assert Closing(carry, added)[0] == Packed(carry, added);
    }
  }

  /** A packed part is over the limit exactly when some paragraph that has no room is too long with
      what is carried over to it. */
  lemma OverLimitIff(body: string)
    ensures var paras := Split(body, BREAK);
      SomePiece(PiecesOf(body), TooLong) <==> AtSomeCut(Collected(paras, "", []), paras, TooLongTogether)
  {
    CurTextOfNothing();
    BlankNothing();
    TooLongIffCut(Split(body, BREAK), "", []);
    hide SomePiece, AtSomeCut, CurText, Trim, Pieces, Split, Collected, TooLongTogether;
  }

  ghost predicate ParagraphsWithin(body: string, n: int) {
    forall p | p in Split(body, BREAK) :: |p| <= n || |p| > MAX_CHARS
  }

  /** The limit holds for every body whose paragraphs are of at most `n` bytes, but for those that
      are broken on lines. */
  ghost predicate LimitHolds(n: int) {
    forall body: string | |body| > MAX_CHARS && ParagraphsWithin(body, n) :: !SomePiece(PiecesOf(body), TooLong)
  }

  lemma ShortTogether(cur: string, p: string)
    requires |p| <= MAX_CHARS - OVERLAP - 2
    ensures !TooLongTogether(cur, p)
  {
    TrimOfSpaced(Tail(cur) + "\n\n" + p);
  }

  /** It does exactly up to paragraphs that leave room for an overlap and a blank line. */
  lemma LimitHoldsIff(n: int)
    ensures LimitHolds(n) <==> n <= MAX_CHARS - OVERLAP - 2
  {
    hide ParagraphsWithin, SomePiece, TooLong;
    if n <= MAX_CHARS - OVERLAP - 2 {
      forall body: string | |body| > MAX_CHARS && ParagraphsWithin(body, n) ensures !SomePiece(PiecesOf(body), TooLong) {
        ShortEnough(body, n);
      }
    } else {
      var body := TwoJustTooLong(n);
    }
  }

  lemma TwoJustTooLong(n: int) returns (body: string)
    requires n > MAX_CHARS - OVERLAP - 2
    ensures |body| > MAX_CHARS && ParagraphsWithin(body, n) && SomePiece(PiecesOf(body), TooLong)
  {
    var p := Letters(MAX_CHARS - OVERLAP - 1);
    body := p + BREAK + p;
    assert NoSpace(p);
    hide NoSpace, Letters;
    TwoParagraphs(p, p);
    TwoPieces(p, p);
    hide PiecesOf, CurText, Trim, Split, Tail;
    assert TooLong(PiecesOf(body)[1]);
  }

  lemma ShortEnough(body: string, n: int)
    requires ParagraphsWithin(body, n) && n <= MAX_CHARS - OVERLAP - 2
    ensures !SomePiece(PiecesOf(body), TooLong)
  {
    var paras := Split(body, BREAK);
    var curs := Collected(paras, "", []);
    OverLimitIff(body);
    forall i | 0 <= i < |paras| && NoRoom(curs[i], paras[i]) ensures !TooLongTogether(curs[i], paras[i]) {
      assert paras[i] in paras;
      ShortTogether(curs[i], paras[i]);
    }
    hide SomePiece, Split, Collected, TooLongTogether, NoRoom;
  }

  function Letters(n: nat): (s: string)
    ensures |s| == n && forall i | 0 <= i < n :: s[i] == 'x'
  {
    seq(n, _ => 'x')
  }

  predicate NoSpace(s: string) { forall i | 0 <= i < |s| :: !IsSpace(s[i]) }

  lemma TwoParagraphs(p: string, q: string)
    requires NoSpace(p) && NoSpace(q)
    ensures Split(p + BREAK + q, BREAK) == [p, q]
  {
    assert NoBreak(p) && NoBreak(q);
    SplitBlock(p, q);
    SplitOpen(q);
  }

  lemma TwoPieces(p: string, q: string)
    requires NoSpace(p) && NoSpace(q) && OVERLAP <= |p| <= MAX_CHARS && 0 < |q| <= MAX_CHARS && |p| + |q| + 2 > MAX_CHARS
    ensures var carry := Tail(p + "\n\n") + "\n\n";
      && PiecesOf(p + BREAK + q) == [Packed("", [p]), Packed(carry, [q])]
      && Trim(CurText("", [p])) == p
      && Trim(CurText(carry, [q])) == carry + q && |carry| == OVERLAP + 2
  {
    hide Trim, CurText, Tail, Split, NoSpace, Blank, Pieces;
    var cur, carry := p + "\n\n", Tail(p + "\n\n") + "\n\n";
    TwoParagraphs(p, q);
    OneText(p, "");
    OneText(q, carry);
    assert "" + p == p;
    BlankNothing();
    CurTextOfNothing();
    CarryIsTrimmed(p, q);
    assert [] + [p] == [p];
    assert TurnOf(p, "", []) == Turn([], "", [p]);
    assert TurnOf(q, "", [p]) == Turn([Packed("", [p])], carry, [q]);
    assert Closing(carry, [q]) == [Packed(carry, [q])];
    TwoTurns(p, q, Packed("", [p]), carry);
  }

  lemma TwoTurns(p: string, q: string, piece: Piece, carry: string)
    requires TurnOf(p, "", []) == Turn([], "", [p]) && TurnOf(q, "", [p]) == Turn([piece], carry, [q])
    requires Closing(carry, [q]) == [Packed(carry, [q])]
    ensures Pieces([p, q], "", []) == [piece, Packed(carry, [q])]
  {
    hide TurnOf, Closing;
    assert [p, q][1..] == [q] && [q][1..] == [];
    assert Pieces([], carry, [q]) == [Packed(carry, [q])];
    assert Pieces([q], "", [p]) == [piece] + Pieces([], carry, [q]);
    assert Pieces([p, q], "", []) == [] + Pieces([q], "", [p]);
  }

  lemma CarryIsTrimmed(p: string, q: string)
    requires NoSpace(p) && NoSpace(q) && OVERLAP <= |p| && q != ""
    ensures var carry := Tail(p + "\n\n") + "\n\n";
      Trim(p + "\n\n") == p && |carry| == OVERLAP + 2 && Trim(carry + q + "\n\n") == carry + q
  {
    var carry := Tail(p + "\n\n") + "\n\n";
    hide Trim;
    TrimOfSpacedText(p);
    assert (carry + q)[0] == p[|p| + 2 - OVERLAP] && Last(carry + q) == Last(q);
    hide Tail;
    TrimOfSpacedText(carry + q);
  }

  lemma OneText(p: string, carry: string)
    ensures CurText(carry, [p]) == carry + p + "\n\n"
  {
    CurTextAppend(carry, [], p);
    CurTextOfCarry(carry);
    assert [] + [p] == [p];
  }

  lemma TrimOfSpacedText(m: string)
    requires m != "" && Trimmed(m)
    ensures Trim(m + "\n\n") == m
  {
    var t := m + "\n\n";
    assert t[0] == m[0] && TrimLeft(t) == t;
    var u := m + "\n";
    assert Last(t) == '\n' && DropLast(t) == u;
    assert Last(u) == '\n' && DropLast(u) == m;
    assert TrimRight(u) == TrimRight(m) == m;
    assert TrimRight(t) == TrimRight(u);
  }

  /** How far: by the whole overlap and its blank line when the second paragraph is a full one. */
  lemma OverlapExceedsTheLimit(p: string, q: string)
    requires NoSpace(p) && NoSpace(q) && OVERLAP <= |p| <= MAX_CHARS && 0 < |q| <= MAX_CHARS && |p| + |q| + 2 > MAX_CHARS
    ensures var parts := PackedParts(p + BREAK + q);
      |parts| == 2 && parts[0] == p && |parts[1]| == OVERLAP + 2 + |q|
  {
    var carry := Tail(p + "\n\n") + "\n\n";
    TwoPieces(p, q);
    hide PiecesOf, CurText, Trim, Tail, NoSpace;
    AllPartsOne(Packed("", [p]));
    AllPartsOne(Packed(carry, [q]));
    AllPartsConcat([Packed("", [p])], [Packed(carry, [q])]);
    assert [Packed("", [p])] + [Packed(carry, [q])] == [Packed("", [p]), Packed(carry, [q])];
  }

  /* ---- empty parts ---- */

  predicate IsEmptyPiece(piece: Piece) { "" in PieceParts(piece) }

  predicate BlankBefore(cur: string, p: string) { Blank(cur) }

  ghost predicate LongBlank(paras: seq<string>) {
    exists i :: 0 <= i < |paras| && |paras[i]| > MAX_CHARS && Blank(paras[i])
  }

  lemma LongBlankCons(p: string, rest: seq<string>)
    ensures LongBlank([p] + rest) <==> (|p| > MAX_CHARS && Blank(p)) || LongBlank(rest)
  {
    var ps := [p] + rest;
    hide Blank;
    if LongBlank(ps) {
      var i :| 0 <= i < |ps| && |ps[i]| > MAX_CHARS && Blank(ps[i]);
      if i > 0 { assert rest[i - 1] == ps[i]; }
    }
    assert ps[0] == p;
    if LongBlank(rest) {
      var i :| 0 <= i < |rest| && |rest[i]| > MAX_CHARS && Blank(rest[i]);
      assert ps[i + 1] == rest[i];
    }
  }

  /** A paragraph broken on lines has an empty part exactly when it is blank. */
  lemma EmptyLinesIff(p: string)
    requires NoBreak(p)
    ensures "" in LineParts(p) <==> Blank(p)
  {
    hide Join, Split, HeadLines, BodyLines, Concat, FitsAlone;
    TrimEmptyIffBlank(p);
    if Trim(p) == "" {
      BlankLines(p);
    } else {
      TrimHasNoBreak(p);
      NoEmptyLine(Trim(p));
      OversizedParagraph(p);
      forall i | 0 <= i < |LineParts(p)| ensures LineParts(p)[i] != "" { NoEmptyRows(p, i); }
    }
  }

  lemma BlankLines(p: string)
    requires Trim(p) == ""
    ensures "" in LineParts(p)
  {
    hide Trim;
    var gs := LineGroups(p);
    OversizedParagraph(p);
    assert Split("", "\n") == [""];
    assert gs[0] == [""] by { ConcatFirst(gs); }
    assert LineParts(p)[0] == Join([] + [""], "\n") && [] + [""] == [""];
  }

  lemma NoEmptyRows(p: string, i: nat)
    requires "" !in Split(Trim(p), "\n") && i < |LineParts(p)|
    ensures LineParts(p)[i] != ""
  {
    var lines, gs := Split(Trim(p), "\n"), LineGroups(p);
    var head := HeadLines(lines);
    OversizedParagraph(p);
    hide Trim, Split, LineGroups;
    assert FitsAlone(head, gs[i]);
    ConcatHas(gs, i);
    assert gs[i][0] in BodyLines(lines) && gs[i][0] in lines;
    if |head + gs[i]| > 1 { assert |Join(head + gs[i], "\n")| >= 1; } else { assert head + gs[i] == [gs[i][0]]; }
  }

  lemma ConcatFirst(gs: seq<seq<string>>)
    requires gs != [] && gs[0] != [] && |Concat(gs)| == 1
    ensures gs[0] == Concat(gs)
  {
    assert Concat(gs) == gs[0] + Concat(gs[1..]);
  }

  lemma {:induction false} ConcatHas(gs: seq<seq<string>>, i: nat)
    requires i < |gs|
    ensures forall x | x in gs[i] :: x in Concat(gs)
  {
    if i > 0 { ConcatHas(gs[1..], i - 1); }
  }

  lemma TrimHasNoBreak(p: string)
    requires NoBreak(p)
    ensures NoBreak(Trim(p)) && (Trim(p) != "" ==> Last(Trim(p)) != '\n' && Trim(p)[0] != '\n')
  {
    var l, r := TrimSplits(p);
    var t := Trim(p);
    forall i | 0 <= i < |t| - 1 ensures !(t[i] == '\n' && t[i + 1] == '\n') {
      assert t[i] == p[|l| + i] && t[i + 1] == p[|l| + i + 1];
    }
  }

  lemma TurnEmpty(p: string, carry: string, added: seq<string>)
    requires NoBreak(p)
    ensures var cur := CurText(carry, added);
      SomePiece(TurnOf(p, carry, added).out, IsEmptyPiece)
      <==> (NoRoom(cur, p) && Blank(cur)) || (|p| > MAX_CHARS && Blank(p))
  {
    var cur, out := CurText(carry, added), TurnOf(p, carry, added).out;
    hide CurText, Trim, Blank, LineParts, IsEmptyPiece, Tail, NoBreak;
    TrimEmptyIffBlank(cur);
    EmptyPieces(p, carry, added);
    if out != [] { assert out[0] in {Packed(carry, added), Lines(p)}; }
    if |out| == 2 { assert out[1] == Lines(p); }
  }

  lemma EmptyPieces(p: string, carry: string, added: seq<string>)
    requires NoBreak(p)
    ensures IsEmptyPiece(Packed(carry, added)) <==> Blank(CurText(carry, added))
    ensures IsEmptyPiece(Lines(p)) <==> Blank(p)
  {
    hide CurText, Trim, Blank, LineParts, NoBreak;
    TrimEmptyIffBlank(CurText(carry, added));
    EmptyLinesIff(p);
  }

  lemma {:induction false} EmptyIffCut(paras: seq<string>, carry: string, added: seq<string>)
    requires forall i | 0 <= i < |paras| :: NoBreak(paras[i])
    ensures SomePiece(Pieces(paras, carry, added), IsEmptyPiece)
       <==> AtSomeCut(Collected(paras, carry, added), paras, BlankBefore) || LongBlank(paras)
    decreases |paras|
  {
    if paras == [] {
      ClosingOf(carry, added, IsEmptyPiece);
      hide SomePiece, CurText, Trim;
    } else {
      var t, rest := TurnOf(paras[0], carry, added), paras[1..];
      TurnEmpty(paras[0], carry, added);
      hide SomePiece, AtSomeCut, IsEmptyPiece, TurnOf, NoRoom, CurText, LongBlank, NoBreak, Blank;
      EmptyIffCut(rest, t.carry, t.added);
      SomeConcat(t.out, Pieces(rest, t.carry, t.added), IsEmptyPiece);
      FirstOfRest(paras, 0);
      LongBlankCons(paras[0], rest);
      AtCons(CurText(carry, added), paras[0], Collected(rest, t.carry, t.added), rest, BlankBefore);
    }
  }

  lemma {:induction false} EmptyIsSome(pieces: seq<Piece>)
    ensures "" in AllParts(pieces) <==> SomePiece(pieces, IsEmptyPiece)
  {
    if pieces != [] {
      hide PieceParts, SomePiece;
      EmptyIsSome(pieces[1..]);
      SomeConcat([pieces[0]], pieces[1..], IsEmptyPiece);
      OnePiece(pieces[0], IsEmptyPiece);
      FirstOfRest(pieces, 0);
    }
  }

  lemma OnePiece(piece: Piece, bad: Piece -> bool)
    ensures SomePiece([piece], bad) <==> bad(piece)
  {
    assert [piece][0] == piece;
  }

  /** An empty part is put out exactly when a paragraph that fits has no room beside text that is
      blank but not empty, or when a paragraph over the limit is blank. */
  lemma EmptyPartIff(body: string)
    requires |body| > MAX_CHARS
    ensures var paras := Split(body, BREAK);
      "" in PackedParts(body) <==> AtSomeCut(Collected(paras, "", []), paras, BlankBefore) || LongBlank(paras)
  {
    var paras := Split(body, BREAK);
    PiecesHaveNoBreak(body);
    assert forall i | 0 <= i < |paras| :: paras[i] in paras;
    hide Split, NoBreak, AtSomeCut, LongBlank, SomePiece, Pieces, AllParts, Collected;
    EmptyIffCut(paras, "", []);
    EmptyIsSome(PiecesOf(body));
  }

  /** Which happens: a blank paragraph left over after an oversized one, in front of a paragraph that
      fills the limit, is packed into a part with no text. Cleaning folds blank lines, but not inside a
      fence: a `p` that opens one gets here with its body. */
  lemma BlankParagraphPacksToNothing(p: string, q: string)
    requires NoSpace(p) && NoSpace(q) && |p| > MAX_CHARS && MAX_CHARS - 1 <= |q| <= MAX_CHARS
    ensures "" in PackedParts(p + BREAK + BREAK + q)
  {
    var body, paras := p + BREAK + BREAK + q, [p, "", q];
    ThreeParagraphs(p, q);
    var curs := Collected(paras, "", []);
    CollectedBlank(p, q);
    hide Split, Collected, NoSpace;
    assert NoRoom(curs[2], paras[2]) && BlankBefore(curs[2], paras[2]);
    EmptyPartIff(body);
  }

  lemma ThreeParagraphs(p: string, q: string)
    requires NoSpace(p) && NoSpace(q)
    ensures Split(p + BREAK + BREAK + q, BREAK) == [p, "", q]
  {
    assert p + BREAK + BREAK + q == p + BREAK + ("" + BREAK + q);
    hide Split;
    SplitBlock(p, "" + BREAK + q);
    SplitBlock("", q);
    SplitOpen(q);
  }

  lemma CollectedBlank(p: string, q: string)
    requires |p| > MAX_CHARS
    ensures Collected([p, "", q], "", [])[2] == "\n\n"
  {
    BlankNothing();
    CurTextOfNothing();
    OneText("", "");
    hide Trim, CurText, Tail;
    assert [] + [""] == [""];
    assert TurnOf(p, "", []) == Turn([Lines(p)], "", []) && TurnOf("", "", []) == Turn([], "", [""]);
    assert [p, "", q][1..] == ["", q] && ["", q][1..] == [q];
    assert Collected([q], "", [""])[0] == "\n\n";
    assert Collected(["", q], "", [])[1] == "\n\n";
  }

  /** Without blank paragraphs it does not. */
  lemma NoBlankParagraphNoEmptyPart(body: string)
    requires |body| > MAX_CHARS && forall p | p in Split(body, BREAK) :: !Blank(p)
    ensures "" !in PackedParts(body)
  {
    var paras := Split(body, BREAK);
    EmptyPartIff(body);
    hide Blank, Split;
    assert forall i | 0 <= i < |paras| :: paras[i] in paras;
    CurTextOfNothing();
    NoBlankCut(paras, "", []);
  }

  lemma {:induction false} NoBlankCut(paras: seq<string>, carry: string, added: seq<string>)
    requires forall i | 0 <= i < |paras| :: !Blank(paras[i])
    requires CurText(carry, added) == "" || !Blank(CurText(carry, added))
    ensures !AtSomeCut(Collected(paras, carry, added), paras, BlankBefore)
    decreases |paras|
  {
    if paras != [] {
      var p, t := paras[0], TurnOf(paras[0], carry, added);
      TurnText(p, carry, added);
      NotBlankIn(p, CurText(carry, added));
      NotBlankIn(p, Tail(CurText(carry, added)) + "\n\n");
      hide AtSomeCut, Blank, CurText, TurnOf, Tail, Trim, AllParts, LineParts;
      NoBlankCut(paras[1..], t.carry, t.added);
      FirstOfRest(paras, 0);
      AtCons(CurText(carry, added), p, Collected(paras[1..], t.carry, t.added), paras[1..], BlankBefore);
    }
  }

  lemma NotBlankIn(p: string, before: string)
    requires !Blank(p)
    ensures !Blank(before + p + "\n\n")
  {
    assert forall c | c in p :: c in before + p + "\n\n";
  }
}
