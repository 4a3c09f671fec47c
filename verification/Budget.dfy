/** What fits in front of a model: the part of a thread that is replayed (internal/rag/memory.go)
    and the part of the ranked sections that is read (internal/rag/retrieve.go). Lengths are in
    bytes; shares are reals. */
module Budget {
  import opened Text
  import opened Ranking
  import opened Hits

  const PER_TOKEN: nat := 4
  const MAX_TURN_CHARS: nat := 0x10_0000
  const DEFAULT_THREAD_SHARE: real := 0.35
  const DEFAULT_CONTEXT_SHARE: real := 0.5

  datatype Turn = Turn(q: string, a: string)
  datatype Msg = User(content: string) | Assistant(content: string)

  /** How many bytes a share of a window is: the tokens rounded down, times the estimate. */
  function Allowance(window: nat, share: real): (b: nat)
    requires share > 0.0
    ensures b as real <= PER_TOKEN as real * (window as real * share) < (b + 4) as real && b % 4 == 0
  {
    var tokens := window as real * share;
    assert tokens >= 0.0;
    tokens.Floor * PER_TOKEN
  }

  /* ---- the thread ---- */

  predicate Answered(t: Turn) { Trim(t.q) != "" && Trim(t.a) != "" }

  /** The turns that are whole: a question and an answer. */
  function Whole(history: seq<Turn>): (r: seq<Turn>)
    ensures forall t | t in r :: Answered(t)
  {
    if history == [] then []
    else Whole(DropLast(history)) + if Answered(Last(history)) then [Last(history)] else []
  }

  function Cost(ts: seq<Turn>): nat {
    if ts == [] then 0 else |ts[0].q| + |ts[0].a| + Cost(ts[1..])
  }

  function Newest(ts: seq<Turn>, n: nat): seq<Turn>
    requires n <= |ts|
  {
    ts[|ts| - n..]
  }

  function Messages(ts: seq<Turn>): seq<Msg> {
    if ts == [] then []
    else Messages(DropLast(ts)) + [User(Trim(Last(ts).q)), Assistant(Trim(Last(ts).a))]
  }

  function ShareOr(share: real, default_: real): (s: real)
    requires default_ > 0.0
    ensures s > 0.0
  {
    if share <= 0.0 then default_ else share
  }

  function ThreadBudget(whole: seq<Turn>, window: int, share: real): nat {
    if window > 0 then Allowance(window, ShareOr(share, DEFAULT_THREAD_SHARE)) else |whole| * MAX_TURN_CHARS
  }

  /** The last `kept` whole turns are affordable, and no more of them. */
  ghost predicate IsReplayed(history: seq<Turn>, window: int, share: real, kept: nat) {
    && kept <= |Whole(history)|
    && forall n | 0 <= n <= |Whole(history)| ::
         Cost(Newest(Whole(history), n)) <= ThreadBudget(Whole(history), window, share) <==> n <= kept
  }

  method WholeTurns(history: seq<Turn>) returns (whole: seq<Turn>)
    ensures whole == Whole(history)
  {
    whole := [];
    for i := 0 to |history|
      invariant whole == Whole(history[..i])
    {
      assert DropLast(history[..i + 1]) == history[..i];
      if Trim(history[i].q) == "" || Trim(history[i].a) == "" {
        continue;
      }
      whole := whole + [history[i]];
    }
    assert history[..|history|] == history;
  }

  /** From the newest turn back: where the affordable tail of the thread starts. */
  method Afford(whole: seq<Turn>, budget: nat) returns (first: nat)
    ensures first <= |whole|
    ensures forall i | 0 <= i <= |whole| :: Cost(whole[i..]) <= budget <==> first <= i
  {
    var left: int := budget;
    first := |whole|;
    for i := |whole| downto 0
      invariant first == i
      invariant left == budget - Cost(whole[i..]) >= 0
    {
      var cost := |whole[i].q| + |whole[i].a|;
      assert whole[i..][1..] == whole[i + 1..];
      if left - cost < 0 {
        break;
      }
      left := left - cost;
      first := i;
    }
    forall i | 0 <= i <= |whole| ensures Cost(whole[i..]) <= budget <==> first <= i {
      if first <= i {
        CostGrows(whole, i, first);
      } else {
        CostGrows(whole, first - 1, i);
        assert whole[first - 1..][1..] == whole[first..];
      }
    }
  }

  method ToMessages(ts: seq<Turn>) returns (msgs: seq<Msg>)
    ensures msgs == Messages(ts)
  {
    msgs := [];
    for i := 0 to |ts|
      invariant msgs == Messages(ts[..i])
    {
      assert DropLast(ts[..i + 1]) == ts[..i];
      msgs := msgs + [User(Trim(ts[i].q)), Assistant(Trim(ts[i].a))];
    }
    assert ts[..|ts|] == ts;
  }

  /** The newest turns are kept, whole and in order, and as many as the budget affords: a longer
      tail of the thread would not fit, and every shorter one would. */
  method Replay(history: seq<Turn>, window: int, share: real) returns (msgs: seq<Msg>, kept: nat, offered: nat)
    ensures offered == |Whole(history)| && IsReplayed(history, window, share, kept)
    ensures msgs == Messages(Newest(Whole(history), kept))
    ensures |msgs| == 2 * kept && forall i | 0 <= i < kept ::
              var t := Whole(history)[|Whole(history)| - kept + i];
              msgs[2 * i] == User(Trim(t.q)) && msgs[2 * i + 1] == Assistant(Trim(t.a))
  {
    hide Whole, Cost, Messages, Allowance, Trim;
    var share' := if share <= 0.0 then DEFAULT_THREAD_SHARE else share;
    var whole := WholeTurns(history);
    offered := |whole|;
    var budget := |whole| * MAX_TURN_CHARS;
    if window > 0 {
      budget := Allowance(window, share');
    }
    var first := Afford(whole, budget);
    kept := |whole| - first;
    msgs := ToMessages(whole[first..]);
    MessagesAt(whole[first..]);
  }

  lemma {:induction false} CostGrows(ts: seq<Turn>, j: nat, i: nat)
    requires i <= j <= |ts|
    ensures Cost(ts[i..]) >= Cost(ts[j..])
    decreases j - i
  {
    if i < j {
      CostGrows(ts, j, i + 1);
      assert ts[i..][1..] == ts[i + 1..];
    }
  }

  /** Without a window every whole turn is replayed, as long as none is longer than a whole request
      may be. */
  lemma NoWindowKeepsAll(history: seq<Turn>, window: int, share: real, kept: nat)
    requires window <= 0 && IsReplayed(history, window, share, kept)
    requires forall t | t in Whole(history) :: |t.q| + |t.a| <= MAX_TURN_CHARS
    ensures kept == |Whole(history)| && Newest(Whole(history), kept) == Whole(history)
  {
    var whole := Whole(history);
    CostOfTurns(whole);
    hide Whole, Cost;
    assert Newest(whole, |whole|) == whole;
    assert |whole| <= kept;
  }

  lemma {:induction false} CostOfTurns(ts: seq<Turn>)
    requires forall t | t in ts :: |t.q| + |t.a| <= MAX_TURN_CHARS
    ensures Cost(ts) <= |ts| * MAX_TURN_CHARS
  {
    if ts != [] {
      assert ts[0] in ts;
      assert forall t | t in ts[1..] :: t in ts;
      CostOfTurns(ts[1..]);
    }
  }

  /** Whether a question continues a thread: its newest whole turn fits the share. */
  predicate Continues(history: seq<Turn>, window: int, share: real) {
    var whole := Whole(history);
    whole != [] && |Last(whole).q| + |Last(whole).a| <= ThreadBudget(whole, window, share)
  }

  /** It does exactly when something is replayed. */
  lemma ContinuesIff(history: seq<Turn>, window: int, share: real, kept: nat)
    requires IsReplayed(history, window, share, kept)
    ensures Continues(history, window, share) <==> kept > 0
  {
    var whole := Whole(history);
    if whole != [] {
      assert Newest(whole, 1) == [Last(whole)] && [Last(whole)][1..] == [];
      assert Cost(Newest(whole, 1)) == |Last(whole).q| + |Last(whole).a|;
    }
  }

  /* ---- the turns and the messages, one by one ---- */

  /** A turn counts when it has both a question and an answer, and then it stands where it stood. */
  lemma {:induction false} WholeIs(before: seq<Turn>, t: Turn, after: seq<Turn>)
    ensures Whole(before + [t] + after) ==
      Whole(before) + (if Trim(t.q) != "" && Trim(t.a) != "" then [t] else []) + Whole(after)
  {
    var own := if Trim(t.q) != "" && Trim(t.a) != "" then [t] else [];
    hide Trim;
    if after == [] {
      assert before + [t] + [] == before + [t] && DropLast(before + [t]) == before;
      assert Whole(before) + own + [] == Whole(before) + own;
    } else {
      var rest, last := DropLast(after), if Answered(Last(after)) then [Last(after)] else [];
      WholeIs(before, t, rest);
      assert DropLast(before + [t] + after) == before + [t] + rest && Last(before + [t] + after) == Last(after);
      assert Whole(before + [t] + after) == Whole(before + [t] + rest) + last && Whole(after) == Whole(rest) + last;
      Assoc(Whole(before) + own, Whole(rest), last);
    }
  }

  /** Who says what: the reader asks, the model answers, turn by turn. */
  lemma {:induction false} MessagesAt(ts: seq<Turn>)
    ensures |Messages(ts)| == 2 * |ts|
    ensures forall i | 0 <= i < |ts| :: Messages(ts)[2 * i] == User(Trim(ts[i].q)) && Messages(ts)[2 * i + 1] == Assistant(Trim(ts[i].a))
  {
    hide Trim;
    if ts != [] {
      MessagesAt(DropLast(ts));
      assert forall i | 0 <= i < |ts| - 1 :: DropLast(ts)[i] == ts[i];
    }
  }

  function Sum(ns: seq<nat>): nat { if ns == [] then 0 else Sum(DropLast(ns)) + Last(ns) }

  /** What a thread costs, and what sections and messages take up, is the sum of their lengths. */
  lemma {:induction false} CostIs(ts: seq<Turn>)
    ensures Cost(ts) == Sum(seq(|ts|, i requires 0 <= i < |ts| => |ts[i].q| + |ts[i].a|))
  {
    if ts != [] {
      CostIs(DropLast(ts));
      CostSplit(ts);
      var ns := seq(|ts|, i requires 0 <= i < |ts| => |ts[i].q| + |ts[i].a|);
      assert DropLast(ns) == seq(|ts| - 1, i requires 0 <= i < |ts| - 1 => |DropLast(ts)[i].q| + |DropLast(ts)[i].a|);
    }
  }

  lemma {:induction false} SpentIs(hits: seq<Hit>)
    ensures Spent(hits) == Sum(seq(|hits|, i requires 0 <= i < |hits| => |hits[i].content|))
  {
    if hits != [] {
      SpentIs(DropLast(hits));
      var ns := seq(|hits|, i requires 0 <= i < |hits| => |hits[i].content|);
      assert DropLast(ns) == seq(|hits| - 1, i requires 0 <= i < |hits| - 1 => |DropLast(hits)[i].content|);
    }
  }

  lemma {:induction false} LengthIs(msgs: seq<Msg>)
    ensures Length(msgs) == Sum(seq(|msgs|, i requires 0 <= i < |msgs| => |msgs[i].content|))
  {
    if msgs != [] {
      LengthIs(DropLast(msgs));
      var ns := seq(|msgs|, i requires 0 <= i < |msgs| => |msgs[i].content|);
      assert DropLast(ns) == seq(|msgs| - 1, i requires 0 <= i < |msgs| - 1 => |DropLast(msgs)[i].content|);
    }
  }

  /* ---- the sections ---- */

  function ContextBudget(window: int, share: real): nat {
    if window <= 0 then 0
    else Allowance(window, ShareOr(share, DEFAULT_CONTEXT_SHARE))
  }

  /** The longest prefix within the budget, and the first hit whatever its size. */
  ghost predicate IsTrimmed(hits: seq<Hit>, budget: nat, kept: seq<Hit>) {
    && kept <= hits && (hits != [] ==> kept != [])
    && forall n | 1 <= n <= |hits| :: (n == 1 || Spent(hits[..n]) <= budget) <==> n <= |kept|
  }

  function Spent(hits: seq<Hit>): nat {
    if hits == [] then 0 else Spent(DropLast(hits)) + |Last(hits).content|
  }

  /** The best-ranked hits that fit, and the first one whatever its size: the longest non-empty
      prefix within the budget. */
  method TrimToBudget(hits: seq<Hit>, budget: nat) returns (kept: seq<Hit>)
    ensures IsTrimmed(hits, budget, kept)
  {
    var spent := 0;
    for i := 0 to |hits|
      invariant spent == Spent(hits[..i])
      invariant i > 1 ==> spent <= budget
    {
      assert DropLast(hits[..i + 1]) == hits[..i];
      spent := spent + |hits[i].content|;
      if i > 0 && spent > budget {
        forall n | 1 <= n <= |hits| ensures (n == 1 || Spent(hits[..n]) <= budget) <==> n <= i {
          if n <= i { SpentGrows(hits, n, i); } else { SpentGrows(hits, i + 1, n); }
        }
        return hits[..i];
      }
    }
    forall n | 1 <= n <= |hits| ensures n == 1 || Spent(hits[..n]) <= budget {
      SpentGrows(hits, n, |hits|);
    }
    return hits;
  }

  /** What is read of what a search found: with a budget what fits it, and without one everything. */
  ghost predicate IsRead(found: seq<Hit>, window: int, share: real, read: seq<Hit>) {
    var budget := ContextBudget(window, share);
    if budget > 0 then IsTrimmed(found, budget, read) else read == found
  }

  /** The search is asked for the whole pool, neighbours and all, when a budget decides what fits, and
      for the top k when there is none. */
  method Retrieve(search: (nat, bool) -> seq<Hit>, topK: nat, window: int, share: real) returns (read: seq<Hit>, offered: nat)
    ensures var found := if ContextBudget(window, share) > 0 then search(CANDIDATE_POOL, true) else search(topK, false);
      IsRead(found, window, share, read) && offered == |found|
  {
    hide IsTrimmed;
    var budget := ContextBudget(window, share);
    var k := topK;
    if budget > 0 {
      k := CANDIDATE_POOL;
    }
    read := search(k, budget > 0);
    offered := |read|;
    if budget > 0 {
      read := TrimToBudget(read, budget);
    }
  }

  lemma {:induction false} SpentGrows(hits: seq<Hit>, n: nat, m: nat)
    requires n <= m <= |hits|
    ensures Spent(hits[..n]) <= Spent(hits[..m])
    decreases m - n
  {
    if n < m {
      SpentGrows(hits, n, m - 1);
      assert DropLast(hits[..m]) == hits[..m - 1];
    }
  }

  /* ---- together ---- */

  function Length(msgs: seq<Msg>): nat {
    if msgs == [] then 0 else Length(DropLast(msgs)) + |Last(msgs).content|
  }

  lemma {:induction false} MessagesAreNoLonger(ts: seq<Turn>)
    ensures Length(Messages(ts)) <= Cost(ts)
  {
    if ts != [] {
      MessagesAreNoLonger(DropLast(ts));
      var before, t := Messages(DropLast(ts)), Last(ts);
      var one := before + [User(Trim(t.q))];
      assert Messages(ts) == one + [Assistant(Trim(t.a))];
      assert DropLast(one) == before && DropLast(Messages(ts)) == one;
      CostSplit(ts);
    }
  }

  lemma {:induction false} CostSplit(ts: seq<Turn>)
    requires ts != []
    ensures Cost(ts) == Cost(DropLast(ts)) + |Last(ts).q| + |Last(ts).a|
  {
    if |ts| > 1 {
      CostSplit(ts[1..]);
      assert DropLast(ts)[1..] == DropLast(ts[1..]);
    }
  }

  /** What is replayed and what is read take no more of the window than their two shares. */
  ghost predicate WithinShares(history: seq<Turn>, kept: nat, read: seq<Hit>, window: int, threadShare: real, contextShare: real)
    requires kept <= |Whole(history)|
  {
    (Length(Messages(Newest(Whole(history), kept))) + Spent(read)) as real
      <= PER_TOKEN as real * window as real
         * (ShareOr(threadShare, DEFAULT_THREAD_SHARE) + ShareOr(contextShare, DEFAULT_CONTEXT_SHARE))
  }

  ghost predicate FirstFits(found: seq<Hit>, budget: nat) { found != [] ==> |found[0].content| <= budget }

  /** They do, whenever the window's share for the sections is a token at least and the first section
      fits it. */
  lemma SharesBoundThePrompt(history: seq<Turn>, kept: nat, window: int, threadShare: real, contextShare: real,
                             found: seq<Hit>, read: seq<Hit>)
    requires ContextBudget(window, contextShare) > 0 && IsReplayed(history, window, threadShare, kept)
    requires IsRead(found, window, contextShare, read) && FirstFits(found, ContextBudget(window, contextShare))
    ensures WithinShares(history, kept, read, window, threadShare, contextShare)
  {
    var ts, cs := ShareOr(threadShare, DEFAULT_THREAD_SHARE), ShareOr(contextShare, DEFAULT_CONTEXT_SHARE);
    MessagesAreNoLonger(Newest(Whole(history), kept));
    ReadFits(found, ContextBudget(window, contextShare), read);
    assert Length(Messages(Newest(Whole(history), kept))) <= Allowance(window, ts);
    assert Spent(read) <= Allowance(window, cs);
    hide *;
    TwoAllowances(window, ts, cs);
  }

  /** No thread and no search goes over the two shares of this window. */
  ghost predicate NeverOver(window: int, threadShare: real, contextShare: real) {
    forall history: seq<Turn>, kept: nat, found: seq<Hit>, read: seq<Hit> |
      IsReplayed(history, window, threadShare, kept) && IsRead(found, window, contextShare, read)
      && FirstFits(found, ContextBudget(window, contextShare)) ::
      WithinShares(history, kept, read, window, threadShare, contextShare)
  }

  /** In a window so small that its share comes to no token the sections are not trimmed at all: the
      bound holds exactly when it comes to one. */
  lemma SharesBoundIff(window: int, threadShare: real, contextShare: real)
    requires window > 0
    ensures NeverOver(window, threadShare, contextShare) <==> ContextBudget(window, contextShare) > 0
  {
    if ContextBudget(window, contextShare) > 0 {
      forall history: seq<Turn>, kept: nat, found: seq<Hit>, read: seq<Hit> |
        IsReplayed(history, window, threadShare, kept) && IsRead(found, window, contextShare, read)
        && FirstFits(found, ContextBudget(window, contextShare))
        ensures WithinShares(history, kept, read, window, threadShare, contextShare)
      {
        SharesBoundThePrompt(history, kept, window, threadShare, contextShare, found, read);
      }
    } else {
      var found := ReadWhole(window, threadShare, contextShare);
    }
  }

  lemma ReadWhole(window: int, threadShare: real, contextShare: real) returns (found: seq<Hit>)
    requires window > 0 && ContextBudget(window, contextShare) == 0
    ensures IsReplayed([], window, threadShare, 0) && IsRead(found, window, contextShare, found)
    ensures FirstFits(found, 0) && !WithinShares([], 0, found, window, threadShare, contextShare)
  {
    var shares := ShareOr(threadShare, DEFAULT_THREAD_SHARE) + ShareOr(contextShare, DEFAULT_CONTEXT_SHARE);
    var n := Over(PER_TOKEN as real * window as real * shares);
    found := LongSecond(n);
    NothingReplayed(window, threadShare);
  }

  lemma Over(bound: real) returns (n: nat)
    ensures n as real > bound
  {
    n := if bound < 0.0 then 0 else bound.Floor + 1;
  }

  lemma LongSecond(n: nat) returns (found: seq<Hit>)
    ensures FirstFits(found, 0) && Spent(found) == n
  {
    var first, second := Hit(0, 0, 0, "", "", "", "", 0.0), Hit(0, 0, 0, "", "", seq(n, i => 'x'), "", 0.0);
    found := [first, second];
    assert DropLast(found) == [first] && DropLast([first]) == [];
    assert |Last(found).content| == n && |Last([first]).content| == 0;
    assert Spent([first]) == 0;
  }

  lemma NothingReplayed(window: int, share: real)
    ensures IsReplayed([], window, share, 0) && Length(Messages(Newest(Whole([]), 0))) == 0
  {
  }

  lemma ReadFits(hits: seq<Hit>, budget: nat, read: seq<Hit>)
    requires IsTrimmed(hits, budget, read) && (hits != [] ==> |hits[0].content| <= budget)
    ensures Spent(read) <= budget
  {
    if hits != [] {
      assert hits[..1] == [hits[0]] && DropLast([hits[0]]) == [];
      assert Spent(hits[..1]) == |hits[0].content|;
      assert read == hits[..|read|];
    }
  }

  lemma TwoAllowances(window: nat, a: real, b: real)
    requires a > 0.0 && b > 0.0
    ensures (Allowance(window, a) + Allowance(window, b)) as real <= PER_TOKEN as real * window as real * (a + b)
  {
    Distribute(PER_TOKEN as real, window as real, a, b);
  }

  lemma Distribute(p: real, w: real, a: real, b: real)
    ensures p * (w * a) + p * (w * b) == p * w * (a + b)
  {
  }
}
