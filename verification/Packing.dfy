/** Breaking up a section that is too long (internal/rag/chunk.go): paragraphs are packed with a
    carried overlap, and a paragraph that is too long by itself is broken on line boundaries with
    a table's two header lines repeated. Lengths are in bytes, as in Go. */
module Packing {
  import opened Text

  const MAX_CHARS: nat := 2400
  const OVERLAP: nat := 250

  function Concat<T>(xss: seq<seq<T>>): seq<T> {
    if xss == [] then [] else xss[0] + Concat(xss[1..])
  }

  lemma {:induction false} ConcatAppend<T>(xss: seq<seq<T>>, xs: seq<T>)
    ensures Concat(xss + [xs]) == Concat(xss) + xs
  {
    if xss == [] {
      assert [xs][1..] == [] && [] + xs == xs;
    } else {
      ConcatAppend(xss[1..], xs);
      assert (xss + [xs])[1..] == xss[1..] + [xs];
    }
  }

  /* ---- lines of one oversized paragraph ---- */

  predicate IsTable(lines: seq<string>) {
    |lines| > 2 && "|" <= Trim(lines[0])
  }

  /** The lines every part starts with, and the lines shared out over the parts. */
  function HeadLines(lines: seq<string>): seq<string> {
    if IsTable(lines) then lines[..2] else []
  }

  function BodyLines(lines: seq<string>): seq<string> {
    if IsTable(lines) then lines[2..] else lines
  }

  function LineLength(lines: seq<string>): nat { |Join(lines, "\n")| }

  /** What the shared-out lines look like. Every group is non-empty; a part longer than the limit
      holds one single line; and the first line of the next group would not have fitted. */
  ghost predicate SharedOut(head: seq<string>, rows: seq<string>, groups: seq<seq<string>>) {
    && Concat(groups) == rows
    && (forall i | 0 <= i < |groups| :: FitsAlone(head, groups[i]))
    && (forall i | 0 < i < |groups| :: Overflows(head, groups[i - 1], groups[i]))
  }

  predicate FitsAlone(head: seq<string>, g: seq<string>) {
    g != [] && (|g| == 1 || LineLength(head + g) <= MAX_CHARS)
  }

  predicate Overflows(head: seq<string>, g: seq<string>, next: seq<string>) {
    next != [] ==> LineLength(head + g) + 1 + |next[0]| > MAX_CHARS
  }

  function RowGroups(head: seq<string>, rows: seq<string>, cur: seq<string>): seq<seq<string>> {
    if rows == [] then if cur == [] then [] else [cur]
    else if LineLength(head + cur) + 1 + |rows[0]| > MAX_CHARS && cur != [] then
      [cur] + RowGroups(head, rows[1..], [rows[0]])
    else RowGroups(head, rows[1..], cur + [rows[0]])
  }

  function PartsOf(head: seq<string>, groups: seq<seq<string>>): (r: seq<string>)
    ensures |r| == |groups|
    ensures forall i | 0 <= i < |r| :: r[i] == Join(head + groups[i], "\n")
  {
    if groups == [] then [] else [Join(head + groups[0], "\n")] + PartsOf(head, groups[1..])
  }

  function LineGroups(p: string): seq<seq<string>> {
    var lines := Split(Trim(p), "\n");
    RowGroups(HeadLines(lines), BodyLines(lines), [])
  }

  function LineParts(p: string): seq<string> {
    PartsOf(HeadLines(Split(Trim(p), "\n")), LineGroups(p))
  }

  method SplitLines(p: string) returns (parts: seq<string>)
    ensures parts == LineParts(p)
  {
    var all := Split(Trim(p), "\n");
    var lines := all;
    var head: seq<string> := [];
    if |lines| > 2 && "|" <= Trim(lines[0]) {
      head, lines := lines[..2], lines[2..];
    }
    parts := [];
    var cur := head;
    ghost var row: seq<string> := [];  // what `cur` holds after the header
    assert RowsDone([], head, lines, [], p);
    hide *;
    for i := 0 to |lines|
      invariant cur == head + row
      invariant RowsDone(parts, head, lines[i..], row, p)
    {
      var ln := lines[i];
      RowDone(parts, head, lines, i, row, p);
      var grown := |Join(cur, "\n")| + 1 + |ln|;
      if grown > MAX_CHARS && |cur| > |head| {
        parts := parts + [Join(cur, "\n")];
        cur := head + [ln];
        row := [ln];
      } else {
        cur := cur + [ln];
        Assoc(head, row, [ln]);
        row := row + [ln];
      }
    }
    RowsLast(parts, head, lines, row, p);
    if |cur| > |head| {
      parts := parts + [Join(cur, "\n")];
    }
  }

  /** What has been put out and what is still to come are the parts of the paragraph. */
  ghost predicate RowsDone(parts: seq<string>, head: seq<string>, rows: seq<string>, row: seq<string>, p: string) {
    parts + PartsOf(head, RowGroups(head, rows, row)) == LineParts(p)
  }

  lemma RowDone(parts: seq<string>, head: seq<string>, lines: seq<string>, i: nat, row: seq<string>, p: string)
    requires i < |lines| && RowsDone(parts, head, lines[i..], row, p)
    ensures var cur, ln := head + row, lines[i];
      if |Join(cur, "\n")| + 1 + |ln| > MAX_CHARS && |cur| > |head|
      then RowsDone(parts + [Join(cur, "\n")], head, lines[i + 1..], [ln], p)
      else RowsDone(parts, head, lines[i + 1..], row + [ln], p)
  {
    hide RowGroups, PartsOf, LineParts, Join;
    RowStep(head, lines[i..], row);
    assert lines[i..][1..] == lines[i + 1..] && lines[i..][0] == lines[i];
    Assoc(parts, [Join(head + row, "\n")], PartsOf(head, RowGroups(head, lines[i + 1..], [lines[i]])));
  }

  lemma RowsLast(parts: seq<string>, head: seq<string>, lines: seq<string>, row: seq<string>, p: string)
    requires RowsDone(parts, head, lines[|lines|..], row, p)
    ensures LineParts(p) == if |head + row| > |head| then parts + [Join(head + row, "\n")] else parts
  {
    hide RowGroups, PartsOf, LineParts, Join;
    assert lines[|lines|..] == [];
    RowEnd(head, row);
  }

  lemma RowEnd(head: seq<string>, row: seq<string>)
    ensures PartsOf(head, RowGroups(head, [], row)) == if row == [] then [] else [Join(head + row, "\n")]
  {
  }

  lemma RowStep(head: seq<string>, rows: seq<string>, cur: seq<string>)
    requires rows != []
    ensures PartsOf(head, RowGroups(head, rows, cur)) ==
      if |Join(head + cur, "\n")| + 1 + |rows[0]| > MAX_CHARS && cur != []
      then [Join(head + cur, "\n")] + PartsOf(head, RowGroups(head, rows[1..], [rows[0]]))
      else PartsOf(head, RowGroups(head, rows[1..], cur + [rows[0]]))
  {
    var rest := RowGroups(head, rows[1..], [rows[0]]);
    assert ([cur] + rest)[1..] == rest;
  }

  /** The loop shares the lines out as described ... */
  lemma {:induction false} RowGroupsShareOut(head: seq<string>, rows: seq<string>, cur: seq<string>)
    requires |cur| <= 1 || LineLength(head + cur) <= MAX_CHARS
    ensures var groups := RowGroups(head, rows, cur);
      && SharedOut(head, cur + rows, groups)
      && (groups == [] <==> cur + rows == [])
      && (groups != [] ==> groups[0] != [] && groups[0][0] == (cur + rows)[0])
    decreases |rows|
  {
    hide LineLength;
    if rows == [] {
      if cur != [] { assert Concat([cur]) == cur + Concat([cur][1..]); }
    } else if LineLength(head + cur) + 1 + |rows[0]| > MAX_CHARS && cur != [] {
      RowGroupsShareOut(head, rows[1..], [rows[0]]);
      assert [rows[0]] + rows[1..] == rows;
      SharedOutCons(head, cur, rows, RowGroups(head, rows[1..], [rows[0]]));
    } else {
      LengthAppend(head, cur, rows[0]);
      RowGroupsShareOut(head, rows[1..], cur + [rows[0]]);
      assert cur + [rows[0]] + rows[1..] == cur + rows;
    }
  }

  lemma SharedOutCons(head: seq<string>, g: seq<string>, rows: seq<string>, rest: seq<seq<string>>)
    requires SharedOut(head, rows, rest) && FitsAlone(head, g)
    requires rest != [] ==> Overflows(head, g, rest[0])
    ensures SharedOut(head, g + rows, [g] + rest)
  {
    assert ([g] + rest)[1..] == rest;
  }

  /** ... and no other way of sharing them out fits that description. */
  lemma {:induction false} OneShareOut(head: seq<string>, rows: seq<string>, gs: seq<seq<string>>, hs: seq<seq<string>>)
    requires SharedOut(head, rows, gs) && SharedOut(head, rows, hs)
    ensures gs == hs
    decreases |rows|
  {
    if gs == [] || hs == [] {
      assert rows == [] ==> gs == [] && hs == [];
    } else {
      FirstGroupNotShorter(head, rows, gs, hs);
      FirstGroupNotShorter(head, rows, hs, gs);
      assert gs[0] == rows[..|gs[0]|] == hs[0];
      SharedOutTail(head, rows, gs);
      SharedOutTail(head, rows, hs);
      OneShareOut(head, rows[|gs[0]|..], gs[1..], hs[1..]);
      assert gs == [gs[0]] + gs[1..] && hs == [hs[0]] + hs[1..];
    }
  }

  lemma SharedOutTail(head: seq<string>, rows: seq<string>, gs: seq<seq<string>>)
    requires gs != [] && SharedOut(head, rows, gs)
    ensures gs[0] <= rows && SharedOut(head, rows[|gs[0]|..], gs[1..])
  {
    hide LineLength;
    assert rows[|gs[0]|..] == Concat(gs[1..]);
    assert forall i | 0 <= i < |gs[1..]| :: gs[1..][i] == gs[i + 1];
  }

  lemma FirstGroupNotShorter(head: seq<string>, rows: seq<string>, gs: seq<seq<string>>, hs: seq<seq<string>>)
    requires gs != [] && hs != [] && SharedOut(head, rows, gs) && SharedOut(head, rows, hs)
    ensures |gs[0]| >= |hs[0]|
  {
    SharedOutTail(head, rows, gs);
    SharedOutTail(head, rows, hs);
    var g, h := gs[0], hs[0];
    if |g| < |h| {
      assert h == g + h[|g|..] && g == rows[..|g|];
      var next := h[|g|];
      assert next == rows[|g|..][0];
      assert gs[1..] != [] && gs[1] == gs[1..][0] && gs[1][0] == next;
      assert Overflows(head, g, gs[1]);
      LengthGrows(head, g, h[|g|..]);
      assert false;
    }
  }

  lemma {:induction false} LengthGrows(head: seq<string>, g: seq<string>, more: seq<string>)
    requires g != [] && more != []
    ensures LineLength(head + (g + more)) >= LineLength(head + g) + 1 + |more[0]|
    decreases |more|
  {
    if |more| == 1 {
      assert head + (g + more) == (head + g) + [more[0]];
      JoinAppend(head + g, more[0], "\n");
    } else {
      LengthGrows(head, g, DropLast(more));
      assert head + (g + more) == (head + (g + DropLast(more))) + [Last(more)];
      JoinAppend(head + (g + DropLast(more)), Last(more), "\n");
    }
  }

  lemma LengthAppend(head: seq<string>, cur: seq<string>, row: string)
    ensures LineLength(head + (cur + [row])) <= LineLength(head + cur) + 1 + |row|
  {
    assert head + (cur + [row]) == head + cur + [row];
    if head + cur == [] {
      assert [] + [row] == [row];
    } else {
      JoinAppend(head + cur, row, "\n");
    }
  }

  /** What the parts of one oversized paragraph are: a table's two header lines open every part,
      the other lines are shared out in order over at least one part, and a part longer than the
      limit is the header and a single line. */
  lemma OversizedParagraph(p: string)
    ensures var lines := Split(Trim(p), "\n"); var gs := LineGroups(p);
      && HeadLines(lines) + BodyLines(lines) == lines
      && SharedOut(HeadLines(lines), BodyLines(lines), gs)
      && |LineParts(p)| == |gs| >= 1
      && (forall i | 0 <= i < |gs| :: LineParts(p)[i] == Join(HeadLines(lines) + gs[i], "\n"))
      && (forall i | 0 <= i < |gs| && |LineParts(p)[i]| > MAX_CHARS :: |gs[i]| == 1)
  {
    var lines := Split(Trim(p), "\n");
    RowGroupsShareOut(HeadLines(lines), BodyLines(lines), []);
    assert [] + BodyLines(lines) == BodyLines(lines);
  }

  /** In a table, which is more than two lines that open with a bar, the first two lines open every part
      and the rows follow; in anything else the parts are the lines alone. */
  lemma HeaderOpensEveryPart(p: string) returns (rows: seq<seq<string>>)
    ensures var lines, parts := Split(Trim(p), "\n"), LineParts(p);
      && |rows| == |parts| >= 1 && (forall i | 0 <= i < |rows| :: rows[i] != [])
      && if |lines| > 2 && "|" <= Trim(lines[0]) then
           && Concat(rows) == lines[2..]
           && forall i | 0 <= i < |rows| :: parts[i] == lines[0] + "\n" + lines[1] + "\n" + Join(rows[i], "\n")
         else Concat(rows) == lines && forall i | 0 <= i < |rows| :: parts[i] == Join(rows[i], "\n")
  {
    var lines := Split(Trim(p), "\n");
    rows := LineGroups(p);
    OversizedParagraph(p);
    hide Trim, Split, LineGroups, LineParts, Join, Overflows;
    forall i | 0 <= i < |rows| ensures rows[i] != [] { assert FitsAlone(HeadLines(lines), rows[i]); }
    if |lines| > 2 && "|" <= Trim(lines[0]) {
      forall i | 0 <= i < |rows| ensures LineParts(p)[i] == lines[0] + "\n" + lines[1] + "\n" + Join(rows[i], "\n") {
        assert lines[..2] + rows[i] == [lines[0]] + ([lines[1]] + rows[i]);
        JoinCons(lines[0], [lines[1]] + rows[i], "\n");
        JoinCons(lines[1], rows[i], "\n");
      }
    } else {
      assert forall i | 0 <= i < |rows| :: [] + rows[i] == rows[i];
    }
  }

  /* ---- paragraphs ---- */

  /** One step of packing, in order: a part made of a carried overlap and fresh paragraphs, or a
      paragraph that was too long and went to the line splitter. */
  datatype Piece = Packed(carry: string, added: seq<string>) | Lines(p: string)

  function Spaced(ps: seq<string>): string {
    if ps == [] then "" else Spaced(DropLast(ps)) + Last(ps) + "\n\n"
  }

  function CurText(carry: string, added: seq<string>): string {
    carry + Spaced(added)
  }

  lemma CurTextAppend(carry: string, added: seq<string>, p: string)
    ensures CurText(carry, added + [p]) == CurText(carry, added) + p + "\n\n"
  {
    assert DropLast(added + [p]) == added;
  }

  /** The overlap: the last OVERLAP bytes, or everything there is. */
  function Tail(cur: string): (t: string)
    ensures |t| <= OVERLAP
  {
    if |cur| > OVERLAP then cur[|cur| - OVERLAP..] else cur
  }

  function Pieces(paras: seq<string>, carry: string, added: seq<string>): seq<Piece> {
    if paras == [] then Closing(carry, added)
    else
      var t := TurnOf(paras[0], carry, added);
      t.out + Pieces(paras[1..], t.carry, t.added)
  }

  /** What comes of one paragraph: the steps it ends, and what is collected after it. */
  datatype Turn = Turn(out: seq<Piece>, carry: string, added: seq<string>)

  function TurnOf(p: string, carry: string, added: seq<string>): Turn {
    var cur := CurText(carry, added);
    if |p| > MAX_CHARS then
      if Trim(cur) == "" then Turn([Lines(p)], carry, added) else Turn([Packed(carry, added), Lines(p)], "", [])
    else if NoRoom(cur, p) then Turn([Packed(carry, added)], Tail(cur) + "\n\n", [p])
    else Turn([], carry, added + [p])
  }

  /** A paragraph that fits the limit has no room beside what has been collected. */
  predicate NoRoom(cur: string, p: string) {
    |p| <= MAX_CHARS && |cur| > 0 && |cur| + |p| > MAX_CHARS
  }

  function Closing(carry: string, added: seq<string>): seq<Piece> {
    if Trim(CurText(carry, added)) == "" then [] else [Packed(carry, added)]
  }

  function PieceParts(piece: Piece): seq<string> {
    match piece
    case Packed(carry, added) => [Trim(CurText(carry, added))]
    case Lines(p) => LineParts(p)
  }

  function AllParts(pieces: seq<Piece>): seq<string> {
    if pieces == [] then [] else PieceParts(pieces[0]) + AllParts(pieces[1..])
  }

  function PiecesOf(body: string): seq<Piece> {
    Pieces(Split(body, BREAK), "", [])
  }

  function PackedParts(body: string): seq<string> {
    if |body| <= MAX_CHARS then [body] else AllParts(PiecesOf(body))
  }

  method PackParagraphs(body: string) returns (parts: seq<string>)
    ensures parts == PackedParts(body)
  {
    if |body| <= MAX_CHARS {
      return [body];
    }
    var paras := Split(body, BREAK);
    parts := [];
    var cur := "";
    ghost var carry: string, added: seq<string> := "", [];  // what `cur` is made of
    DoneFirst(body);
    CurTextOfNothing();
    hide LineParts, Pieces, AllParts, PackedParts, Trim, Split, CurText, TurnOf, Tail, PackDone, Closing;
    for i := 0 to |paras|
      invariant cur == CurText(carry, added)
      invariant PackDone(parts, paras[i..], carry, added, body)
    {
      var p := paras[i];
      ghost var t := TurnOf(p, carry, added);
      TurnDone(parts, paras, i, carry, added, body);
      carry, added := t.carry, t.added;
      if |p| > MAX_CHARS {
        var s := Trim(cur);
        if s != "" {
          parts := parts + [s];
          cur := "";
        }
        var ls := SplitLines(p);
        parts := parts + ls;
        continue;
      }
      if |cur| + |p| > MAX_CHARS && |cur| > 0 {
        parts := parts + [Trim(cur)];
        cur := TailOf(cur);
        cur := cur + "\n\n";
      }
      cur := cur + p;
      cur := cur + "\n\n";
    }
    assert paras[|paras|..] == [];
    DoneLast(parts, carry, added, body);
    var s := Trim(cur);
    if s != "" {
      parts := parts + [s];
    }
  }

  method TailOf(cur: string) returns (tail: string)
    ensures tail == Tail(cur)
  {
    tail := cur;
    if |tail| > OVERLAP {
      tail := tail[|tail| - OVERLAP..];
    }
  }

  /** What has been put out and what is still to come are the parts of the body. */
  ghost predicate PackDone(parts: seq<string>, paras: seq<string>, carry: string, added: seq<string>, body: string) {
    parts + AllParts(Pieces(paras, carry, added)) == PackedParts(body)
  }

  lemma DoneFirst(body: string)
    requires |body| > MAX_CHARS
    ensures PackDone([], Split(body, BREAK), "", [], body)
  {
    hide Pieces, Split, AllParts;
  }

  lemma DoneMore(parts: seq<string>, paras: seq<string>, carry: string, added: seq<string>, body: string)
    requires paras != [] && PackDone(parts, paras, carry, added, body)
    ensures var t := TurnOf(paras[0], carry, added);
      PackDone(parts + AllParts(t.out), paras[1..], t.carry, t.added, body)
  {
    var t := TurnOf(paras[0], carry, added);
    hide TurnOf, PackedParts, AllParts;
    var rest := Pieces(paras[1..], t.carry, t.added);
    AllPartsConcat(t.out, rest);
    Assoc(parts, AllParts(t.out), AllParts(rest));
  }

  /** The same, in the steps of the code. */
  lemma TurnDone(parts: seq<string>, paras: seq<string>, i: nat, carry: string, added: seq<string>, body: string)
    requires i < |paras| && PackDone(parts, paras[i..], carry, added, body)
    ensures var p, cur, t := paras[i], CurText(carry, added), TurnOf(paras[i], carry, added);
      if |p| > MAX_CHARS then
        if Trim(cur) == "" then
          PackDone(parts + LineParts(p), paras[i + 1..], t.carry, t.added, body) && CurText(t.carry, t.added) == cur
        else
          PackDone(parts + [Trim(cur)] + LineParts(p), paras[i + 1..], t.carry, t.added, body) && CurText(t.carry, t.added) == ""
      else if |cur| + |p| > MAX_CHARS && |cur| > 0 then
        PackDone(parts + [Trim(cur)], paras[i + 1..], t.carry, t.added, body)
        && CurText(t.carry, t.added) == Tail(cur) + "\n\n" + p + "\n\n"
      else PackDone(parts, paras[i + 1..], t.carry, t.added, body) && CurText(t.carry, t.added) == cur + p + "\n\n"
  {
    hide *;
    assert paras[i..][0] == paras[i] && paras[i..][1..] == paras[i + 1..];
    DoneMore(parts, paras[i..], carry, added, body);
    TurnText(paras[i], carry, added);
    Assoc(parts, [Trim(CurText(carry, added))], LineParts(paras[i]));
    assert parts + [] == parts;
  }

  lemma DoneLast(parts: seq<string>, carry: string, added: seq<string>, body: string)
    requires PackDone(parts, [], carry, added, body)
    ensures PackedParts(body) == var s := Trim(CurText(carry, added)); if s == "" then parts else parts + [s]
  {
    hide Trim, CurText, PackedParts;
    AllPartsOne(Packed(carry, added));
  }

  /** The parts and the text of a turn, as the code spells them out. */
  lemma TurnText(p: string, carry: string, added: seq<string>)
    ensures var t, cur := TurnOf(p, carry, added), CurText(carry, added);
      if |p| > MAX_CHARS then
        if Trim(cur) == "" then AllParts(t.out) == LineParts(p) && CurText(t.carry, t.added) == cur
        else AllParts(t.out) == [Trim(cur)] + LineParts(p) && CurText(t.carry, t.added) == ""
      else if |cur| + |p| > MAX_CHARS && |cur| > 0 then
        AllParts(t.out) == [Trim(cur)] && CurText(t.carry, t.added) == Tail(cur) + "\n\n" + p + "\n\n"
      else AllParts(t.out) == [] && CurText(t.carry, t.added) == cur + p + "\n\n"
  {
    var cur := CurText(carry, added);
    CurTextOfNothing();
    CurTextAppend(carry, added, p);
    CurTextAppend(Tail(cur) + "\n\n", [], p);
    CurTextOfCarry(Tail(cur) + "\n\n");
    assert [] + [p] == [p];
    hide Trim, CurText, Tail, LineParts, AllParts;
    AllPartsOne(Packed(carry, added));
    AllPartsOne(Lines(p));
    assert [Packed(carry, added), Lines(p)] == [Packed(carry, added)] + [Lines(p)];
    AllPartsConcat([Packed(carry, added)], [Lines(p)]);
    AllPartsNone();
  }

  lemma AllPartsNone()
    ensures AllParts([]) == []
  {
  }

  lemma AllPartsOne(piece: Piece)
    ensures AllParts([piece]) == PieceParts(piece) && AllParts([]) == []
  {
    hide PieceParts;
    assert [piece][1..] == [];
  }

  lemma {:induction false} AllPartsConcat(a: seq<Piece>, b: seq<Piece>)
    ensures AllParts(a + b) == AllParts(a) + AllParts(b)
  {
    hide PieceParts;
    if a == [] {
      assert a + b == b;
    } else {
      assert (a + b)[1..] == a[1..] + b;
      AllPartsConcat(a[1..], b);
      Assoc(PieceParts(a[0]), AllParts(a[1..]), AllParts(b));
    }
  }

  lemma CurTextOfNothing()
    ensures CurText("", []) == ""
  {
  }

  lemma CurTextOfCarry(carry: string)
    ensures CurText(carry, []) == carry
  {
  }

  /* ---- what packing keeps ---- */

  function NonBlank(ps: seq<string>): seq<string> {
    if ps == [] then [] else NonBlank(DropLast(ps)) + if Blank(Last(ps)) then [] else [Last(ps)]
  }

  /** The paragraphs each step brought in, overlaps left out. */
  function FreshOf(pieces: seq<Piece>): seq<string> {
    if pieces == [] then [] else OwnParagraphs(pieces[0]) + FreshOf(pieces[1..])
  }

  function OwnParagraphs(piece: Piece): seq<string> {
    match piece
    case Packed(_, added) => added
    case Lines(p) => [p]
  }

  lemma {:induction false} NonBlankConcat(a: seq<string>, b: seq<string>)
    ensures NonBlank(a + b) == NonBlank(a) + NonBlank(b)
  {
    if b == [] {
      assert a + b == a;
    } else {
      var last := if Blank(Last(b)) then [] else [Last(b)];
      NonBlankConcat(a, DropLast(b));
      assert DropLast(a + b) == a + DropLast(b) && Last(a + b) == Last(b);
      assert NonBlank(a + b) == NonBlank(a + DropLast(b)) + last && NonBlank(b) == NonBlank(DropLast(b)) + last;
      hide NonBlank;
      Assoc(NonBlank(a), NonBlank(DropLast(b)), last);
    }
  }

  lemma {:induction false} FreshConcat(a: seq<Piece>, b: seq<Piece>)
    ensures FreshOf(a + b) == FreshOf(a) + FreshOf(b)
  {
    hide OwnParagraphs;
    if a == [] {
      assert a + b == b;
    } else {
      assert (a + b)[1..] == a[1..] + b;
      FreshConcat(a[1..], b);
      Assoc(OwnParagraphs(a[0]), FreshOf(a[1..]), FreshOf(b));
    }
  }

  lemma FreshOne(piece: Piece)
    ensures FreshOf([piece]) == OwnParagraphs(piece) && FreshOf([]) == [] && NonBlank([]) == []
  {
    assert [piece][1..] == [];
  }

  lemma {:induction false} BlankText(carry: string, added: seq<string>)
    requires Blank(CurText(carry, added))
    ensures NonBlank(added) == [] && Blank(carry)
  {
    assert forall c | c in carry :: c in CurText(carry, added);
    if added != [] {
      CurTextAppend(carry, DropLast(added), Last(added));
      assert DropLast(added) + [Last(added)] == added;
      assert forall c | c in Last(added) :: c in CurText(carry, added);
      assert forall c | c in CurText(carry, DropLast(added)) :: c in CurText(carry, added);
      BlankText(carry, DropLast(added));
    }
  }

  /** A turn puts out or keeps collected what was collected before it and its own paragraph. */
  lemma TurnKeeps(p: string, carry: string, added: seq<string>)
    ensures var t := TurnOf(p, carry, added);
      NonBlank(FreshOf(t.out)) + NonBlank(t.added) == NonBlank(added) + NonBlank([p])
  {
    var cur := CurText(carry, added);
    TrimEmptyIffBlank(cur);
    if Trim(cur) == "" { BlankText(carry, added); }
    FreshOne(Packed(carry, added));
    FreshOne(Lines(p));
    hide CurText, Trim, NonBlank, FreshOf, Tail;
    NonBlankConcat(added, [p]);
    FreshTwo(carry, added, p);
    Nothing(NonBlank(added));
    Nothing(NonBlank([p]));
    Nothing(NonBlank(added + [p]));
  }

  lemma FreshTwo(carry: string, added: seq<string>, p: string)
    ensures FreshOf([Packed(carry, added), Lines(p)]) == added + [p]
  {
    assert [Packed(carry, added), Lines(p)] == [Packed(carry, added)] + [Lines(p)];
    FreshConcat([Packed(carry, added)], [Lines(p)]);
    FreshOne(Packed(carry, added));
    FreshOne(Lines(p));
  }

  lemma Nothing(xs: seq<string>)
    ensures xs + [] == xs == [] + xs
  {
  }

  /** No paragraph with anything in it is lost, repeated or moved: the paragraphs the steps
      brought in are those of the section, in order. */
  lemma {:induction false} PackingKeepsParagraphs(paras: seq<string>, carry: string, added: seq<string>)
    ensures NonBlank(FreshOf(Pieces(paras, carry, added))) == NonBlank(added) + NonBlank(paras)
    decreases |paras|
  {
    if paras == [] {
      ClosingKeeps(carry, added);
      hide *;
      assert NonBlank(added) + [] == NonBlank(added);
    } else {
      var t, rest := TurnOf(paras[0], carry, added), paras[1..];
      PackingKeepsParagraphs(rest, t.carry, t.added);
      TurnKeeps(paras[0], carry, added);
      FreshConcat(t.out, Pieces(rest, t.carry, t.added));
      NonBlankConcat(FreshOf(t.out), FreshOf(Pieces(rest, t.carry, t.added)));
      FirstOfRest(paras, 0);
      NonBlankConcat([paras[0]], rest);
      hide NonBlank, FreshOf, TurnOf;
      Assoc(NonBlank(FreshOf(t.out)), NonBlank(t.added), NonBlank(rest));
      Assoc(NonBlank(added), NonBlank([paras[0]]), NonBlank(rest));
    }
  }

  lemma ClosingKeeps(carry: string, added: seq<string>)
    ensures Pieces([], carry, added) == Closing(carry, added)
    ensures NonBlank(FreshOf(Closing(carry, added))) == NonBlank(added) && NonBlank([]) == []
  {
    TrimEmptyIffBlank(CurText(carry, added));
    if Trim(CurText(carry, added)) == "" { BlankText(carry, added); }
    FreshOne(Packed(carry, added));
  }

  /* ---- how long a part may get ---- */

  /** A part without an overlap in front of its paragraphs keeps to the limit. One with an overlap
      may exceed it by the overlap and the blank line after it, and by no more; and unless it is
      blank, the overlap is the tail of the part right before. */
  ghost predicate WellPacked(prev: Option<Piece>, pieces: seq<Piece>)
    decreases pieces
  {
    pieces != [] ==> FollowsOn(prev, pieces[0]) && WellPacked(Some(pieces[0]), pieces[1..])
  }

  ghost predicate FollowsOn(prev: Option<Piece>, piece: Piece) {
    piece.Packed? ==>
      && |Trim(CurText(piece.carry, piece.added))| <= (if piece.carry == "" then MAX_CHARS else MAX_CHARS + OVERLAP + 2)
      && CarriedFrom(prev, piece.carry)
  }

  ghost predicate CarriedFrom(prev: Option<Piece>, carry: string) {
    Blank(carry) || (prev.Some? && prev.value.Packed?
      && carry == LastBytes(CurText(prev.value.carry, prev.value.added)) + "\n\n")
  }

  /** What is at the end of a text, and no more than the overlap. */
  function LastBytes(s: string): string {
    s[if |s| > OVERLAP then |s| - OVERLAP else 0..]
  }

  /** What holds of the text being collected: it stays near the limit, and it ends in the blank
      line that trimming takes off again. */
  ghost predicate Collecting(carry: string, added: seq<string>) {
    && (added == [] ==> carry == "")
    && |CurText(carry, added)| <= 2 + if carry == "" then MAX_CHARS else MAX_CHARS + OVERLAP + 2
  }

  lemma TrimOfSpaced(s: string)
    ensures |Trim(s + "\n\n")| <= |s|
  {
    var t := s + "\n\n";
    var l, r := TrimSplits(t);
    var m := Trim(t);
    if m != "" {
      assert Last(m) == t[|l| + |m| - 1];
      assert t[|s|..] == "\n\n";
    }
  }

  lemma CollectedFits(carry: string, added: seq<string>)
    requires Collecting(carry, added) && added != []
    ensures |Trim(CurText(carry, added))| <= if carry == "" then MAX_CHARS else MAX_CHARS + OVERLAP + 2
  {
    assert added == DropLast(added) + [Last(added)];
    CurTextAppend(carry, DropLast(added), Last(added));
    TrimOfSpaced(CurText(carry, DropLast(added)) + Last(added));
  }

  lemma CollectMore(carry: string, added: seq<string>, p: string)
    requires Collecting(carry, added) && |p| <= MAX_CHARS
    requires |CurText(carry, added)| + |p| <= MAX_CHARS || |CurText(carry, added)| == 0
    ensures Collecting(carry, added + [p])
  {
    CurTextAppend(carry, added, p);
  }

  lemma CollectAnew(cur: string, p: string)
    requires |p| <= MAX_CHARS
    ensures Collecting(Tail(cur) + "\n\n", [p])
  {
    var carry := Tail(cur) + "\n\n";
    CurTextAppend(carry, [], p);
    CurTextOfCarry(carry);
    assert [] + [p] == [p];
  }

  /** The step right before what comes after `out`. */
  function PieceBefore(prev: Option<Piece>, out: seq<Piece>): Option<Piece> {
    if out == [] then prev else Some(Last(out))
  }

  lemma TurnIsWellPacked(prev: Option<Piece>, p: string, carry: string, added: seq<string>)
    requires Collecting(carry, added) && CarriedFrom(prev, carry)
    ensures var t := TurnOf(p, carry, added);
      WellPacked(prev, t.out) && Collecting(t.carry, t.added) && CarriedFrom(PieceBefore(prev, t.out), t.carry)
  {
    var cur, t := CurText(carry, added), TurnOf(p, carry, added);
    CurTextOfNothing();
    BlankNothing();
    if added != [] { CollectedFits(carry, added); }
    if |p| > MAX_CHARS && Trim(cur) == "" {
      TrimEmptyIffBlank(cur);
      BlankText(carry, added);
    } else if |p| > MAX_CHARS {
    } else if NoRoom(cur, p) {
      CollectAnew(cur, p);
    } else {
      CollectMore(carry, added, p);
    }
    hide CurText, Trim, Tail, Blank;
    var packed, lines := Packed(carry, added), Lines(p);
    if FollowsOn(prev, packed) {
      OneWellPacked(prev, packed);
      OneWellPacked(Some(packed), lines);
      WellPackedConcat(prev, [packed], [lines]);
      assert [packed] + [lines] == [packed, lines];
    }
    OneWellPacked(prev, lines);
  }

  lemma OneWellPacked(prev: Option<Piece>, piece: Piece)
    requires FollowsOn(prev, piece)
    ensures WellPacked(prev, [piece])
  {
    assert [piece][1..] == [];
  }

  lemma BlankNothing()
    ensures Trim("") == "" && Blank("")
  {
    TrimOfTrimmed("");
  }

  lemma {:induction false} WellPackedConcat(prev: Option<Piece>, a: seq<Piece>, b: seq<Piece>)
    requires WellPacked(prev, a) && WellPacked(PieceBefore(prev, a), b)
    ensures WellPacked(prev, a + b)
    decreases |a|
  {
    hide FollowsOn;
    if a == [] {
      assert a + b == b;
    } else {
      assert (a + b)[1..] == a[1..] + b;
      WellPackedConcat(Some(a[0]), a[1..], b);
    }
  }

  lemma {:induction false} PackingIsWellPacked(prev: Option<Piece>, paras: seq<string>, carry: string, added: seq<string>)
    requires Collecting(carry, added) && CarriedFrom(prev, carry)
    ensures WellPacked(prev, Pieces(paras, carry, added))
    decreases |paras|
  {
    hide CurText, Trim, Tail, Blank;
    if paras == [] {
      BlankNothing();
      CurTextOfNothing();
      if added != [] { CollectedFits(carry, added); }
    } else {
      var t := TurnOf(paras[0], carry, added);
      TurnIsWellPacked(prev, paras[0], carry, added);
      hide WellPacked, Collecting, CarriedFrom, TurnOf;
      PackingIsWellPacked(PieceBefore(prev, t.out), paras[1..], t.carry, t.added);
      WellPackedConcat(prev, t.out, Pieces(paras[1..], t.carry, t.added));
    }
  }

  /* ---- no part is closed too early ---- */

  /** Every paragraph of a part but its first was put in where there was room for it, and fits the limit by
      itself; only paragraphs that do not are broken on lines. */
  ghost predicate Snug(piece: Piece) {
    match piece
    case Lines(p) => |p| > MAX_CHARS
    case Packed(carry, added) =>
      && (forall k | 0 < k < |added| :: |carry + Join(added[..k], "\n\n") + "\n\n"| + |added[k]| <= MAX_CHARS)
      && (forall p | p in added :: |p| <= MAX_CHARS)
  }

  /** When another packed part follows, there was no room for its first paragraph, and it opens with the
      last bytes of the part before. */
  ghost predicate ClosedFor(a: Piece, b: Piece) {
    a.Packed? && b.Packed? ==>
      && b.added != []
      && |CurText(a.carry, a.added)| + |b.added[0]| > MAX_CHARS
      && b.carry == LastBytes(CurText(a.carry, a.added)) + "\n\n"
  }

  ghost predicate Greedy(pieces: seq<Piece>) {
    && (forall i | 0 <= i < |pieces| :: Snug(pieces[i]))
    && (forall i | 0 < i < |pieces| :: ClosedFor(pieces[i - 1], pieces[i]))
  }

  /** What a part is made of goes on from what has been collected. */
  ghost predicate GoesOn(pieces: seq<Piece>, carry: string, added: seq<string>) {
    pieces != [] && pieces[0].Packed? ==> pieces[0].carry == carry && added <= pieces[0].added
  }

  /** The text of a part: the overlap, and the paragraphs with a blank line after each. */
  lemma CurTextIs(carry: string, added: seq<string>)
    ensures CurText(carry, added) == carry + if added == [] then "" else Join(added, "\n\n") + "\n\n"
  {
    SpacedIs(added);
  }

  lemma {:induction false} SpacedIs(added: seq<string>)
    ensures Spaced(added) == if added == [] then "" else Join(added, "\n\n") + "\n\n"
  {
    if added != [] {
      var before, last := DropLast(added), Last(added);
      SpacedIs(before);
      assert Spaced(added) == Spaced(before) + last + "\n\n" && added == before + [last];
      hide Spaced, Join;
      if before == [] {
        assert "" + last == last && added == [last];
        JoinOne(last);
      } else {
        JoinAppend(before, last, "\n\n");
      }
    }
  }

  lemma JoinOne(s: string)
    ensures Join([s], "\n\n") == s
  {
  }

  lemma GreedyConcat(a: seq<Piece>, b: seq<Piece>)
    requires Greedy(a) && Greedy(b) && (a != [] && b != [] ==> ClosedFor(Last(a), b[0]))
    ensures Greedy(a + b)
  {
    hide Snug, ClosedFor;
    var c := a + b;
    forall i | 0 < i < |c| ensures ClosedFor(c[i - 1], c[i]) {
      if i < |a| { assert c[i] == a[i]; } else if i > |a| { assert c[i] == b[i - |a|]; }
    }
  }

  lemma SnugMore(carry: string, added: seq<string>, p: string)
    requires Snug(Packed(carry, added)) && |p| <= MAX_CHARS && !NoRoom(CurText(carry, added), p)
    ensures Snug(Packed(carry, added + [p]))
  {
    var grown := added + [p];
    CurTextIs(carry, added);
    forall k | 0 < k < |grown| ensures |carry + Join(grown[..k], "\n\n") + "\n\n"| + |grown[k]| <= MAX_CHARS {
      if k < |added| { assert grown[..k] == added[..k]; } else { assert grown[..k] == added; }
    }
  }

  lemma TurnIsGreedy(p: string, carry: string, added: seq<string>)
    requires Snug(Packed(carry, added))
    ensures var t := TurnOf(p, carry, added); Greedy(t.out) && Snug(Packed(t.carry, t.added))
    ensures var t := TurnOf(p, carry, added); t.out == [] ==> t.carry == carry && added <= t.added
    ensures var t := TurnOf(p, carry, added); t.out != [] ==> GoesOn(t.out, carry, added)
  {
    hide CurText, Trim, Join, Tail;
    if |p| <= MAX_CHARS && !NoRoom(CurText(carry, added), p) { SnugMore(carry, added, p); }
  }

  lemma TurnCloses(p: string, carry: string, added: seq<string>, rest: seq<Piece>)
    requires var t := TurnOf(p, carry, added); t.out != [] && rest != [] && GoesOn(rest, t.carry, t.added)
    ensures ClosedFor(Last(TurnOf(p, carry, added).out), rest[0])
  {
    hide CurText, Trim, Join;
  }

  /** Packing is greedy: a part ends only where the next paragraph has no room, is too long for any part,
      or does not come. */
  lemma {:induction false} PackingIsGreedy(paras: seq<string>, carry: string, added: seq<string>)
    requires Snug(Packed(carry, added))
    ensures Greedy(Pieces(paras, carry, added)) && GoesOn(Pieces(paras, carry, added), carry, added)
    decreases |paras|
  {
    hide CurText, Trim, Snug, ClosedFor, TurnOf;
    if paras != [] {
      var t := TurnOf(paras[0], carry, added);
      TurnIsGreedy(paras[0], carry, added);
      PackingIsGreedy(paras[1..], t.carry, t.added);
      var rest := Pieces(paras[1..], t.carry, t.added);
      if t.out != [] && rest != [] { TurnCloses(paras[0], carry, added, rest); }
      GreedyConcat(t.out, rest);
    }
  }

  /** The parts of a body, from its pieces. */
  lemma PartsAre(body: string)
    requires |body| > MAX_CHARS
    ensures Greedy(PiecesOf(body))
    ensures var ps := PiecesOf(body); PackedParts(body) == Concat(seq(|ps|, i requires 0 <= i < |ps| => PieceParts(ps[i])))
  {
    hide Pieces, Greedy, Split, PieceParts, Concat, AllParts, Join;
    NothingIsSnug();
    PackingIsGreedy(Split(body, BREAK), "", []);
    PartsInOrder(PiecesOf(body));
  }

  lemma NothingIsSnug()
    ensures Snug(Packed("", []))
  {
  }

  /** The parts of one: what is carried over and its paragraphs, trimmed, or the paragraph's lines. */
  lemma PiecePartsAre(carry: string, added: seq<string>, p: string)
    ensures PieceParts(Packed(carry, added)) == [Trim(carry + if added == [] then "" else Join(added, "\n\n") + "\n\n")]
    ensures PieceParts(Lines(p)) == LineParts(p)
  {
    CurTextIs(carry, added);
  }

  lemma {:induction false} PartsInOrder(pieces: seq<Piece>)
    ensures AllParts(pieces) == Concat(seq(|pieces|, i requires 0 <= i < |pieces| => PieceParts(pieces[i])))
  {
    hide PieceParts;
    var all := seq(|pieces|, i requires 0 <= i < |pieces| => PieceParts(pieces[i]));
    if pieces != [] {
      PartsInOrder(pieces[1..]);
      assert all[1..] == seq(|pieces| - 1, i requires 0 <= i < |pieces| - 1 => PieceParts(pieces[1..][i]));
    }
  }

  /** What packing does to a section over the limit. */
  lemma PackedSection(body: string)
    requires |body| > MAX_CHARS
    ensures Join(Split(body, BREAK), BREAK) == body
    ensures NonBlank(FreshOf(PiecesOf(body))) == NonBlank(Split(body, BREAK))
    ensures WellPacked(None, PiecesOf(body))
  {
    JoinSplit(body, BREAK);
    PackingKeepsParagraphs(Split(body, BREAK), "", []);
    CurTextOfNothing();
    BlankNothing();
    FreshOne(Lines(""));
    assert [] + NonBlank(Split(body, BREAK)) == NonBlank(Split(body, BREAK));
    hide Pieces, Split, NonBlank, FreshOf, WellPacked, Join;
    PackingIsWellPacked(None, Split(body, BREAK), "", []);
  }
}
