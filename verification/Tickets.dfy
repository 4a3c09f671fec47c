/** The ticket table (internal/db/tickets.go): one row per gap, its four states, the guarded
    updates between them, and the index that allows one pending ticket per question. */
module Tickets {
  import opened Text
  import opened Paths

  /* ---- the same question ---- */

  /** Runs of whitespace become one space. */
  function Collapse(s: string): string {
    if s == "" then ""
    else if !IsSpace(s[0]) then [s[0]] + Collapse(s[1..])
    else if |s| > 1 && IsSpace(s[1]) then Collapse(s[1..])
    else " " + Collapse(s[1..])
  }

  predicate IsEnding(c: char) {
    IsSpace(c) || c == '?' || c == '!' || c == '.' || c == '\U{2026}'
  }

  function StripEnd(s: string): (r: string)
    ensures r <= s && (r != "" ==> !IsEnding(Last(r)))
  {
    if s != "" && IsEnding(Last(s)) then StripEnd(DropLast(s)) else s
  }

  /** Case, spacing and the marks a question ends with do not count. */
  function Normalise(q: string): string {
    var n := Collapse(Lower(Trim(q)));
    if StripEnd(n) != "" then StripEnd(n) else n
  }

  predicate Collapsed(s: string) {
    && (forall i | 0 <= i < |s| :: IsSpace(s[i]) ==> s[i] == ' ')
    && (forall i | 0 <= i < |s| - 1 :: !(IsSpace(s[i]) && IsSpace(s[i + 1])))
  }

  predicate IsLower(s: string) { forall c | c in s :: LowerChar(c) == c }

  lemma {:induction false} CollapseCollapses(s: string)
    requires IsLower(s)
    ensures Collapsed(Collapse(s)) && IsLower(Collapse(s))
    ensures s != "" ==> Collapse(s) != "" && (IsSpace(Collapse(s)[0]) <==> IsSpace(s[0]))
    ensures s != "" ==> (IsSpace(Last(Collapse(s))) <==> IsSpace(Last(s)))
  {
    if s != "" {
      assert forall c | c in s[1..] :: c in s;
      assert s[0] in s;
      CollapseCollapses(s[1..]);
    }
  }

  lemma {:induction false} CollapsedStays(s: string)
    requires Collapsed(s)
    ensures Collapse(s) == s
  {
    if s != "" {
      assert forall i | 0 <= i < |s| - 1 :: s[1..][i] == s[i + 1];
      CollapsedStays(s[1..]);
      assert s == [s[0]] + s[1..];
    }
  }

  lemma LowerStays(s: string)
    requires IsLower(s)
    ensures Lower(s) == s
  {
    assert forall i | 0 <= i < |s| :: s[i] in s;
  }

  lemma LowerIsLower(s: string)
    ensures IsLower(Lower(s))
    ensures Trimmed(s) ==> Trimmed(Lower(s))
  {
    forall c | c in Lower(s) ensures LowerChar(c) == c {
      var i :| 0 <= i < |s| && Lower(s)[i] == c;
    }
  }

  /** A normalised question is the same question: normalising it again changes nothing. */
  lemma NormaliseIdempotent(q: string)
    ensures Normalise(Normalise(q)) == Normalise(q)
  {
    var n := Collapse(Lower(Trim(q)));
    LowerIsLower(Trim(q));
    CollapseCollapses(Lower(Trim(q)));
    var r := Normalise(q);
    assert r <= n && Trimmed(r) && Collapsed(r);
    assert forall c | c in r :: c in n;
    TrimOfTrimmed(r);
    LowerStays(r);
    CollapsedStays(r);
    if StripEnd(n) != "" {
      assert StripEnd(r) == r;
    }
  }

  /* ---- which questions are the same ---- */

  predicate AllEnding(s: string) { forall c | c in s :: IsEnding(c) }

  /** The stretches without blanks. */
  function Words(s: string): seq<string> {
    if s == "" then []
    else if IsSpace(s[0]) then Words(s[1..])
    else if |s| == 1 || IsSpace(s[1]) then [[s[0]]] + Words(s[1..])
    else Before(s[0], Words(s[1..]))
  }

  lemma {:induction false} WordsThere(s: string)
    requires s != "" && !IsSpace(s[0])
    ensures Words(s) != []
  {
    if |s| > 1 && !IsSpace(s[1]) { WordsThere(s[1..]); }
  }

  lemma {:induction false} WordsAfterBlanks(l: string, s: string)
    requires Blank(l)
    ensures Words(l + s) == Words(s)
  {
    if l == "" {
      assert l + s == s;
    } else {
      assert l[0] in l && (l + s)[1..] == l[1..] + s;
      WordsAfterBlanks(l[1..], s);
    }
  }

  lemma {:induction false} WordsBeforeBlanks(s: string, r: string)
    requires Blank(r)
    ensures Words(s + r) == Words(s)
  {
    if s == "" {
      assert s + r == r && r + "" == r;
      WordsAfterBlanks(r, "");
    } else {
      assert (s + r)[1..] == s[1..] + r;
      WordsBeforeBlanks(s[1..], r);
      if |s| == 1 && r != "" { assert (s + r)[1] == r[0] && r[0] in r; }
    }
  }

  /** Collapsing blanks leaves the words, with one blank between them. */
  lemma {:induction false} CollapseWords(s: string)
    requires Trimmed(s)
    ensures Collapse(s) == Join(Words(s), " ")
    decreases |s|
  {
    if |s| > 1 {
      if IsSpace(s[1]) {
        var t := s[1..];
        var u := CollapseBlanks(t);
        CollapseWords(u);
        WordsThere(u);
        hide Collapse;
        assert [s[0]] + (" " + Join(Words(u), " ")) == [s[0]] + " " + Join(Words(u), " ");
        JoinCons([s[0]], Words(u), " ");
      } else {
        assert Last(s) == Last(s[1..]);
        CollapseWords(s[1..]);
        WordsThere(s[1..]);
        JoinGrowsHead(s[0], Words(s[1..]), " ");
      }
    } else if |s| == 1 {
      assert s[1..] == "" && [s[0]] + "" == s;
    }
  }

  /** A stretch of blanks in front of more becomes one. */
  lemma {:induction false} CollapseBlanks(t: string) returns (u: string)
    requires t != "" && IsSpace(t[0]) && !IsSpace(Last(t))
    ensures u != "" && Trimmed(u) && |u| < |t| && Collapse(t) == " " + Collapse(u) && Words(t) == Words(u)
    decreases |t|
  {
    assert Last(t) == Last(t[1..]);
    if IsSpace(t[1]) { u := CollapseBlanks(t[1..]); } else { u := t[1..]; }
  }

  lemma LowerKeepsBlanks(c: char)
    ensures IsSpace(LowerChar(c)) <==> IsSpace(c)
  {
  }

  /** What is left of a question is its words in lower case with one blank between them, without the marks
      at its end: unless there is nothing else. */
  lemma NormaliseIs(q: string) returns (marks: string)
    ensures Join(Words(Lower(q)), " ") == Normalise(q) + marks
    ensures forall c | c in marks :: c == '?' || c == '!' || c == '.' || c == '\U{2026}' || IsSpace(c)
    ensures Normalise(q) != "" && IsEnding(Last(Normalise(q))) ==> marks == "" && AllEnding(Normalise(q))
  {
    var n := Collapse(Lower(Trim(q)));
    WordsOfTrimmed(q);
    LowerIsLower(Trim(q));
    CollapseWords(Lower(Trim(q)));
    hide Collapse, Lower, Trim, Words, Join;
    StripEndSplits(n);
    marks := if StripEnd(n) != "" then n[|StripEnd(n)|..] else "";
    assert StripEnd(n) == "" ==> n + "" == n;
  }

  lemma {:induction false} StripEndSplits(n: string)
    ensures n == StripEnd(n) + n[|StripEnd(n)|..] && forall c | c in n[|StripEnd(n)|..] :: IsEnding(c)
  {
    if n != "" && IsEnding(Last(n)) {
      StripEndSplits(DropLast(n));
      assert n[|StripEnd(n)|..] == DropLast(n)[|StripEnd(n)|..] + [Last(n)];
    }
  }

  lemma WordsOfTrimmed(q: string)
    ensures Words(Lower(q)) == Words(Lower(Trim(q)))
  {
    var l, r := TrimSplits(q);
    var t := Trim(q);
    hide Trim;
    forall c | c in Lower(l) ensures IsSpace(c) { var i :| 0 <= i < |l| && Lower(l)[i] == c; assert l[i] in l; LowerKeepsBlanks(l[i]); }
    forall c | c in Lower(r) ensures IsSpace(c) { var i :| 0 <= i < |r| && Lower(r)[i] == c; assert r[i] in r; LowerKeepsBlanks(r[i]); }
    assert Lower(q) == Lower(l) + (Lower(t) + Lower(r));
    WordsAfterBlanks(Lower(l), Lower(t) + Lower(r));
    WordsBeforeBlanks(Lower(t), Lower(r));
  }

  /** Another character at the end is another word, or the last one is longer. */
  lemma {:induction false} WordsAppend(s: string, c: char)
    requires !IsSpace(c)
    ensures if s == "" || IsSpace(Last(s)) then Words(s + [c]) == Words(s) + [[c]]
            else Words(s) != [] && Words(s + [c]) == DropLast(Words(s)) + [Last(Words(s)) + [c]]
  {
    var t := s + [c];
    if s == "" {
      assert t == [c];
    } else {
      var u := s[1..];
      assert t[1..] == u + [c] && t[0] == s[0] && (u != "" ==> t[1] == u[0] && Last(u) == Last(s));
      WordsAppend(u, c);
      if !IsSpace(s[0]) {
        if u == "" {
          assert u + [c] == [c];
        } else if IsSpace(u[0]) {
          WordsCons(s[0], Words(u), Words(u + [c]), c);
        } else {
          WordsThere(u);
          WordsBefore(s[0], Words(u), Words(u + [c]), c);
        }
      }
    }
  }

  lemma WordsCons(first: char, ws: seq<string>, more: seq<string>, c: char)
    ensures more == ws + [[c]] ==> [[first]] + more == [[first]] + ws + [[c]]
    ensures ws != [] && more == DropLast(ws) + [Last(ws) + [c]] ==>
      [[first]] + more == DropLast([[first]] + ws) + [Last([[first]] + ws) + [c]]
  {
  }

  lemma WordsBefore(first: char, ws: seq<string>, more: seq<string>, c: char)
    requires ws != []
    ensures more == ws + [[c]] ==> Before(first, more) == Before(first, ws) + [[c]]
    ensures more == DropLast(ws) + [Last(ws) + [c]] ==>
      Before(first, more) == DropLast(Before(first, ws)) + [Last(Before(first, ws)) + [c]]
  {
    if |ws| == 1 { assert [first] + (ws[0] + [c]) == [first] + ws[0] + [c]; }
  }

  lemma JoinLonger(ws: seq<string>, c: char)
    requires ws != []
    ensures Join(DropLast(ws) + [Last(ws) + [c]], " ") == Join(ws, " ") + [c]
  {
    var before := DropLast(ws);
    assert ws == before + [Last(ws)];
    if before != [] {
      JoinAppend(before, Last(ws) + [c], " ");
      JoinAppend(before, Last(ws), " ");
    }
  }

  lemma MoreText(s: string, c: char) returns (m: string)
    requires IsEnding(c)
    ensures Join(Words(s + [c]), " ") == Join(Words(s), " ") + m && AllEnding(m)
  {
    var ws := Words(s);
    if IsSpace(c) {
      WordsBeforeBlanks(s, [c]);
      m := "";
      assert Join(ws, " ") + "" == Join(ws, " ");
    } else {
      WordsAppend(s, c);
      hide Words, Join;
      if s == "" || IsSpace(Last(s)) {
        m := if ws == [] then [c] else " " + [c];
        if ws == [] { OneWord(c); } else { JoinAppend(ws, [c], " "); assert Join(ws, " ") + " " + [c] == Join(ws, " ") + (" " + [c]); }
      } else {
        JoinLonger(ws, c);
        m := [c];
      }
    }
  }

  lemma OneWord(c: char)
    ensures Join([] + [[c]], " ") == [c] && Join([], " ") + [c] == [c]
  {
    assert [] + [[c]] == [[c]] && "" + [c] == [c];
  }

  lemma {:induction false} MoreMarks(s: string, e: string) returns (m: string)
    requires AllEnding(e)
    ensures Join(Words(s + e), " ") == Join(Words(s), " ") + m && AllEnding(m)
    decreases |e|
  {
    if e == "" {
      m := "";
      assert s + e == s && Join(Words(s), " ") + "" == Join(Words(s), " ");
    } else {
      assert e == DropLast(e) + [Last(e)] && Last(e) in e && s + e == s + DropLast(e) + [Last(e)];
      assert AllEnding(DropLast(e)) by { forall c | c in DropLast(e) ensures IsEnding(c) { assert c in e; } }
      var m1 := MoreMarks(s, DropLast(e));
      var m2 := MoreText(s + DropLast(e), Last(e));
      m := m1 + m2;
      hide Words, Join;
      Assoc(Join(Words(s), " "), m1, m2);
    }
  }

  lemma {:induction false} StripMore(n: string, m: string)
    requires AllEnding(m)
    ensures StripEnd(n + m) == StripEnd(n)
    decreases |m|
  {
    if m == "" {
      assert n + m == n;
    } else {
      assert DropLast(n + m) == n + DropLast(m) && Last(n + m) == Last(m) && Last(m) in m;
      assert AllEnding(DropLast(m)) by { forall c | c in DropLast(m) ensures IsEnding(c) { assert c in m; } }
      StripMore(n, DropLast(m));
    }
  }

  /** The marks a question ends with do not count, when there is something before them. */
  lemma EndMarksDoNotCount(q: string, e: string)
    requires AllEnding(e) && !AllEnding(Normalise(q))
    ensures Normalise(q + e) == Normalise(q)
  {
    WordsForm(q);
    WordsForm(q + e);
    LowerOfMarks(q, e);
    var m := MoreMarks(Lower(q), e);
    hide Words, Join, Lower, Normalise;
    StripMore(Join(Words(Lower(q)), " "), m);
    if StripEnd(Join(Words(Lower(q)), " ")) == "" { StripEndSplits(Join(Words(Lower(q)), " ")); }
  }

  lemma WordsForm(q: string)
    ensures var n := Join(Words(Lower(q)), " "); Normalise(q) == if StripEnd(n) != "" then StripEnd(n) else n
  {
    WordsOfTrimmed(q);
    LowerIsLower(Trim(q));
    CollapseWords(Lower(Trim(q)));
  }

  lemma LowerOfMarks(q: string, e: string)
    requires AllEnding(e)
    ensures Lower(q + e) == Lower(q) + e
  {
    forall i | 0 <= i < |e| ensures LowerChar(e[i]) == e[i] { assert e[i] in e; }
  }

  /** So two questions with the same words, case aside, are the same question. */
  lemma SameWordsSameQuestion(q: string, q': string)
    requires Words(Lower(q)) == Words(Lower(q'))
    ensures Normalise(q) == Normalise(q')
  {
    LowerIsLower(Trim(q));
    LowerIsLower(Trim(q'));
    hide Words, Lower, Trim, Collapse, StripEnd;
    WordsOfTrimmed(q);
    WordsOfTrimmed(q');
    CollapseWords(Lower(Trim(q)));
    CollapseWords(Lower(Trim(q')));
  }

  /* ---- tickets ---- */

  datatype Status = Open | Answered | Confirmed | Rejected

  datatype Ticket = Ticket(question: string, norm: string, miss: string, status: Status, answer: string,
                           note: string, docPath: string)

  datatype Desk = Desk(tickets: map<nat, Ticket>, next: nat)

  predicate Pending(t: Ticket) { t.status == Open || t.status == Answered }

  /** The partial unique index: no two pending tickets ask the same question. */
  ghost predicate OnePerQuestion(d: Desk) {
    forall i, j | i in d.tickets && j in d.tickets && Pending(d.tickets[i]) && Pending(d.tickets[j])
      && d.tickets[i].norm == d.tickets[j].norm :: i == j
  }

  predicate Asked(d: Desk, norm: string) {
    exists i | i in d.tickets :: Pending(d.tickets[i]) && d.tickets[i].norm == norm
  }

  predicate In(d: Desk, id: nat, allowed: set<Status>) {
    id in d.tickets && d.tickets[id].status in allowed
  }

  function With(d: Desk, id: nat, t: Ticket): Desk {
    d.(tickets := d.tickets[id := t])
  }

  function Opened(d: Desk, question: string, miss: string): Desk {
    var q := Trim(question);
    if q == "" || Asked(d, Normalise(q)) then d
    else With(d, d.next, Ticket(q, Normalise(q), Trim(miss), Open, "", "", "")).(next := d.next + 1)
  }

  function Drafted(d: Desk, id: nat, answer: string): Desk {
    if !In(d, id, {Open, Answered}) then d
    else With(d, id, d.tickets[id].(answer := answer, status := Answered))
  }

  function ConfirmedAt(d: Desk, id: nat, answer: string, docPath: string): Desk {
    if !In(d, id, {Open, Answered, Confirmed}) then d
    else With(d, id, d.tickets[id].(answer := answer, docPath := docPath, status := Confirmed, note := ""))
  }

  /** Going back to a draft puts the ticket under the index again, which refuses it while another
      pending ticket asks the same. */
  predicate MayRetract(d: Desk, id: nat) {
    In(d, id, {Confirmed}) && !Asked(d, d.tickets[id].norm)
  }

  function Retracted(d: Desk, id: nat): Desk {
    if !MayRetract(d, id) then d
    else With(d, id, d.tickets[id].(docPath := "", status := Answered))
  }

  function RejectedWith(d: Desk, id: nat, note: string): Desk {
    if !In(d, id, {Open, Answered, Confirmed}) then d
    else With(d, id, d.tickets[id].(note := Trim(note), docPath := "", status := Rejected))
  }

  function Deleted(d: Desk, id: nat): Desk {
    d.(tickets := d.tickets - {id})
  }

  /** A confirmed ticket has the answer and the path, and no note any more. */
  lemma ConfirmedTickets(d: Desk, id: nat, answer: string, docPath: string)
    ensures ConfirmedAt(d, id, answer, docPath).tickets ==
      if id !in d.tickets || d.tickets[id].status == Rejected then d.tickets
      else d.tickets[id := d.tickets[id].(answer := answer, docPath := docPath, status := Confirmed, note := "")]
  {
  }

  class TicketTable {
    var tickets: map<nat, Ticket>
    var next: nat

    function State(): Desk
      reads this
    {
      Desk(tickets, next)
    }

    constructor ()
      ensures State() == Desk(map[], 0)
    {
      tickets, next := map[], 0;
    }

    /** The ticket that already covers the question, or a new one; None for an empty question. */
    method OpenTicket(question: string, miss: string) returns (id: Option<nat>)
      modifies this
      ensures State() == Opened(old(State()), question, miss)
      ensures tickets == (if Trim(question) == "" || Asked(old(State()), Normalise(Trim(question))) then old(tickets)
                          else old(tickets)[old(next) := Ticket(Trim(question), Normalise(Trim(question)), Trim(miss), Open, "", "", "")])
      ensures id.Some? <==> Trim(question) != ""
      ensures id.Some? ==> id.value in tickets && tickets[id.value].norm == Normalise(Trim(question))
                           && Pending(tickets[id.value])
    {
      var q := Trim(question);
      if q == "" {
        return None;
      }
      var norm := Normalise(q);
      if i :| i in tickets && Pending(tickets[i]) && tickets[i].norm == norm {
        return Some(i);
      }
      tickets := tickets[next := Ticket(q, norm, Trim(miss), Open, "", "", "")];
      id, next := Some(next), next + 1;
    }

    method Draft(id: nat, answer: string) returns (ok: bool)
      modifies this
      ensures State() == Drafted(old(State()), id, answer) && ok == In(old(State()), id, {Open, Answered})
      ensures ok == (id in old(tickets) && old(tickets)[id].status in {Open, Answered})
      ensures tickets == if ok then old(tickets)[id := old(tickets)[id].(answer := answer, status := Answered)] else old(tickets)
    {
      ok := id in tickets && tickets[id].status in {Open, Answered};
      if ok {
        tickets := tickets[id := tickets[id].(answer := answer, status := Answered)];
      }
    }

    method Confirm(id: nat, answer: string, docPath: string) returns (ok: bool)
      modifies this
      ensures State() == ConfirmedAt(old(State()), id, answer, docPath)
      ensures ok == (id in old(tickets) && old(tickets)[id].status != Rejected)
    {
      ok := id in tickets && tickets[id].status in {Open, Answered, Confirmed};
      if ok {
        tickets := tickets[id := tickets[id].(answer := answer, docPath := docPath, status := Confirmed, note := "")];
      }
    }

    method Retract(id: nat) returns (ok: bool)
      modifies this
      ensures State() == Retracted(old(State()), id) && ok == MayRetract(old(State()), id)
      ensures ok == (id in old(tickets) && old(tickets)[id].status == Confirmed
                     && forall i | i in old(tickets) && old(tickets)[i].norm == old(tickets)[id].norm :: !Pending(old(tickets)[i]))
      ensures tickets == if ok then old(tickets)[id := old(tickets)[id].(docPath := "", status := Answered)] else old(tickets)
    {
      ok := id in tickets && tickets[id].status == Confirmed
        && !exists i | i in tickets :: Pending(tickets[i]) && tickets[i].norm == tickets[id].norm;
      if ok {
        tickets := tickets[id := tickets[id].(docPath := "", status := Answered)];
      }
    }

    method Reject(id: nat, note: string) returns (ok: bool)
      modifies this
      ensures State() == RejectedWith(old(State()), id, note)
      ensures ok == (id in old(tickets) && old(tickets)[id].status != Rejected)
      ensures tickets == if !ok then old(tickets)
        else old(tickets)[id := old(tickets)[id].(note := Trim(note), docPath := "", status := Rejected)]
    {
      ok := id in tickets && tickets[id].status in {Open, Answered, Confirmed};
      if ok {
        tickets := tickets[id := tickets[id].(note := Trim(note), docPath := "", status := Rejected)];
      }
    }

    method DeleteTicket(id: nat) returns (ok: bool)
      modifies this
      ensures State() == Deleted(old(State()), id) && ok == (id in old(tickets)) && tickets == old(tickets) - {id}
    {
      ok := id in tickets;
      tickets := tickets - {id};
    }
  }

  /** Every edge of the lifecycle keeps the index's promise. */
  lemma OnePerQuestionKept(d: Desk, id: nat, question: string, text: string)
    requires OnePerQuestion(d) && forall i | i in d.tickets :: i < d.next
    ensures OnePerQuestion(Opened(d, question, text))
    ensures OnePerQuestion(Drafted(d, id, text))
    ensures OnePerQuestion(ConfirmedAt(d, id, text, question))
    ensures OnePerQuestion(Retracted(d, id))
    ensures OnePerQuestion(RejectedWith(d, id, text))
    ensures OnePerQuestion(Deleted(d, id))
  {
    hide Normalise, Trim, OnePerQuestion, Opened;
    OneOpened(d, question, text);
    if id in d.tickets {
      var t := d.tickets[id];
      OneMore(d, id, t.(answer := text, status := Answered));
      OneMore(d, id, t.(answer := text, docPath := question, status := Confirmed, note := ""));
      OneMore(d, id, t.(docPath := "", status := Answered));
      OneMore(d, id, t.(note := Trim(text), docPath := "", status := Rejected));
    }
    hide Asked, With, Deleted;
    OneLess(d, id);
  }

  lemma OneOpened(d: Desk, question: string, text: string)
    requires OnePerQuestion(d)
    ensures OnePerQuestion(Opened(d, question, text))
  {
    var q := Trim(question);
    var added := Ticket(q, Normalise(q), Trim(text), Open, "", "", "");
    hide Normalise, Trim, OnePerQuestion, Asked;
    if !Asked(d, Normalise(q)) { OneMore(d, d.next, added); }
    SameTickets(With(d, d.next, added), d.next + 1);
  }

  /** A ticket may be put in when no other pending one asks the same, or it was pending before. */
  lemma OneMore(d: Desk, id: nat, t: Ticket)
    requires OnePerQuestion(d)
    ensures !Pending(t) || !Asked(d, t.norm) || (id in d.tickets && Pending(d.tickets[id]) && d.tickets[id].norm == t.norm)
      ==> OnePerQuestion(With(d, id, t))
  {
  }

  lemma OneLess(d: Desk, id: nat)
    requires OnePerQuestion(d)
    ensures OnePerQuestion(Deleted(d, id))
  {
  }

  lemma SameTickets(d: Desk, next: nat)
    ensures OnePerQuestion(d) ==> OnePerQuestion(d.(next := next))
  {
  }
}
