/** The answer cache over whole runs (internal/rag/rag.go): any number of questions being answered
    at once, each reading the signature, looking up, retrieving and storing in steps of its own,
    while the corpus is written to between any two of them. */
module Coherence {
  import opened Text
  import opened Paths
  import opened Chunking
  import opened Corpus
  import opened Tickets
  import opened QaLoop
  import opened Agreement
  import opened Signatures
  import opened AnswerCache
  import Budget

  /** A question with the thread before it, and what its model can hold of that. */
  datatype Ask = Ask(question: string, scope: string, model: string, web: bool, again: bool,
                     history: seq<Budget.Turn>, window: int, share: real)

  /** It continues a thread when some of that is replayed (`Budget.ContinuesIff`). */
  predicate InThread(a: Ask) { Budget.Continues(a.history, a.window, a.share) }

  function Key(a: Ask): string { CacheKey(a.model, Scope(a.scope), a.web, Trim(a.question)) }

  const NO_ANSWER := "Kh\U{F4}ng t\U{EC}m th\U{1EA5}y th\U{F4}ng tin n\U{E0}y trong t\U{E0}i li\U{1EC7}u."

  /** A number in brackets. */
  predicate IsMarker(s: string, i: int, j: int) {
    0 <= i < j < |s| && s[i] == '[' && s[j] == ']' && j > i + 1 && forall k | i < k < j :: '0' <= s[k] <= '9'
  }

  predicate HasMarker(s: string) { exists i, j | 0 <= i < j < |s| :: IsMarker(s, i, j) }

  /** The answer ends in saying that there is none, and cites nothing. */
  predicate IsMiss(s: string) {
    var t := Trim(s);
    |t| >= |NO_ANSWER| && t[|t| - |NO_ANSWER|..] == NO_ANSWER && !HasMarker(t)
  }

  /** A reply that is the sentence, with nothing cited before it, is a miss ... */
  lemma UncitedMiss(lead: string)
    requires '[' !in lead
    ensures !Worth(lead + NO_ANSWER)
  {
    hide Trim;
    SentenceEnds(lead);
    NoBracket(lead);
  }

  lemma NoBracket(lead: string)
    requires '[' !in lead
    ensures !HasMarker(Trim(lead + NO_ANSWER))
  {
    hide Trim;
    var s := lead + NO_ANSWER;
    assert '[' !in NO_ANSWER;
    TrimIsWithin(s);
    assert forall c | c in s :: c in lead || c in NO_ANSWER;
    assert '[' !in Trim(s);
  }

  /** ... and one that cites a document somewhere is not. */
  lemma CitedIsWorth(a: string, n: string, b: string)
    requires n != "" && forall i | 0 <= i < |n| :: '0' <= n[i] <= '9'
    ensures Worth(a + "[" + n + "]" + b)
  {
    hide Trim;
    var s := a + "[" + n + "]" + b;
    var l, r := TrimSplits(s);
    MarkerAt(a, n, b);
    MarkerStays(l, Trim(s), r, |a|, |a| + 1 + |n|);
  }

  lemma MarkerAt(a: string, n: string, b: string)
    requires n != "" && forall i | 0 <= i < |n| :: '0' <= n[i] <= '9'
    ensures IsMarker(a + "[" + n + "]" + b, |a|, |a| + 1 + |n|)
  {
    var s := a + "[" + n + "]" + b;
    assert forall k | |a| < k < |a| + 1 + |n| :: s[k] == n[k - |a| - 1];
  }

  lemma MarkerStays(l: string, t: string, r: string, i: nat, j: nat)
    requires Blank(l) && Blank(r) && IsMarker(l + t + r, i, j)
    ensures HasMarker(t)
  {
    OutsideBlank(l, t, r, i);
    OutsideBlank(l, t, r, j);
    hide Blank;
    var s, i', j' := l + t + r, i - |l|, j - |l|;
    assert forall k | 0 <= k < |t| :: t[k] == s[|l| + k];
    assert forall k | i' < k < j' :: t[k] == s[|l| + k] && '0' <= s[|l| + k] <= '9';
    assert IsMarker(t, i', j');
  }

  /** What is no blank is not trimmed off. */
  lemma OutsideBlank(l: string, t: string, r: string, i: nat)
    requires Blank(l) && Blank(r) && i < |l + t + r| && !IsSpace((l + t + r)[i])
    ensures |l| <= i < |l| + |t| && (l + t + r)[i] == t[i - |l|]
  {
    var s := l + t + r;
    forall k | 0 <= k < |l| ensures IsSpace(s[k]) { assert s[k] == l[k]; }
    forall k | |l| + |t| <= k < |s| ensures IsSpace(s[k]) { assert s[k] == r[k - |l| - |t|]; }
  }

  /** Trimming a text that ends in the sentence leaves it ending in the sentence. */
  lemma SentenceEnds(lead: string)
    ensures var t := Trim(lead + NO_ANSWER); |t| >= |NO_ANSWER| && t[|t| - |NO_ANSWER|..] == NO_ANSWER
  {
    var s := lead + NO_ANSWER;
    var n, m := |lead|, |NO_ANSWER|;
    assert NO_ANSWER[0] == 'K' && NO_ANSWER[m - 1] == '.';
    assert s[n] == NO_ANSWER[0] && s[n + m - 1] == NO_ANSWER[m - 1] && s[n..] == NO_ANSWER;
    var l, r := TrimSplits(s);
    var t := Trim(s);
    OutsideBlank(l, t, r, n);
    OutsideBlank(l, t, r, n + m - 1);
    hide Trim;
    assert |r| == 0;
    assert t == s[|l|..];
  }

  /* ---- the state ---- */

  /** How far a question has come. `sig` is None when nothing may be read or stored for it; the
      indices are places in the log: the corpus the signature was read from, the corpus that the
      sources came from. */
  datatype Phase =
    | Begun
    | Signed(sig: Option<Signature>, readAt: nat)
    | Unserved(sig: Option<Signature>, readAt: nat)
    | Retrieved(sig: Option<Signature>, readAt: nat, gotAt: nat)

  datatype Running = Running(ask: Ask, phase: Phase)

  /** Where a stored answer came from. */
  datatype Origin = Origin(ask: Ask, answer: string, config: Config, readAt: nat, gotAt: nat)

  /** The log holds every corpus there has been, the last being the one of now. */
  datatype State = State(world: World, log: seq<Tables>, config: Config, rows: Rows<Signature>,
                         origins: map<string, Origin>, asks: map<nat, Running>)

  function Start(config: Config): (s: State)
    ensures s.log != []
  {
    State(START, [START.tables], config, map[], map[], map[])
  }

  datatype Event =
    | Write(op: Op)
    | Begin(id: nat, ask: Ask)
    | ReadSignature(id: nat, readable: bool)
    | LookUp(id: nat, at: nat)
    | Retrieve(id: nat)
    | Store(id: nat, answer: string, citations: string, at: nat)
    | Drop(keys: set<string>)
    | End(id: nat)
    | Restart(config: Config)

  /** The stored answer that a question would be served at its look-up. */
  function Served(s: State, id: nat): Option<Row<Signature>> {
    if id in s.asks && s.asks[id].phase.Signed? && s.asks[id].phase.sig.Some? && !s.asks[id].ask.again
    then Found(s.rows, s.asks[id].phase.sig.value, Key(s.asks[id].ask))
    else None
  }

  function Moved(s: State, id: nat, phase: Phase): State
    requires id in s.asks
  {
    s.(asks := s.asks[id := s.asks[id].(phase := phase)])
  }

  predicate Worth(answer: string) { answer != "" && !IsMiss(answer) }

  /** A step that a question has not come to yet changes nothing. */
  ghost function After(s: State, r: Rules, e: Event): (s': State)
    requires s.log != []
    ensures s'.log != []
  {
    var now := |s.log| - 1;
    match e
    case Write(op) =>
      var w := Next(s.world, r, op);
      s.(world := w, log := s.log + [w.tables])
    case Begin(id, ask) =>
      if id in s.asks then s else s.(asks := s.asks[id := Running(ask, Begun)])
    case ReadSignature(id, readable) =>
      if id in s.asks && s.asks[id].phase.Begun? then
        var sig := if InThread(s.asks[id].ask) || !readable then None else Some(SignatureOf(s.world.tables, s.config));
        Moved(s, id, Signed(sig, now))
      else s
    case LookUp(id, at) =>
      if id in s.asks && s.asks[id].phase.Signed? then
        if Served(s, id).Some? then s.(rows := Touched(s.rows, Key(s.asks[id].ask), at), asks := s.asks - {id})
        else Moved(s, id, Unserved(s.asks[id].phase.sig, s.asks[id].phase.readAt))
      else s
    case Retrieve(id) =>
      if id in s.asks && s.asks[id].phase.Unserved?
      then Moved(s, id, Retrieved(s.asks[id].phase.sig, s.asks[id].phase.readAt, now))
      else s
    case Store(id, answer, citations, at) =>
      if id in s.asks && s.asks[id].phase.Retrieved? then
        var Running(ask, p) := s.asks[id];
        if p.sig.Some? && Worth(answer) then
          s.(rows := Put(s.rows, Key(ask), Trim(ask.question), answer, citations, p.sig.value, at),
             origins := s.origins[Key(ask) := Origin(ask, answer, s.config, p.readAt, p.gotAt)],
             asks := s.asks - {id})
        else s.(asks := s.asks - {id})
      else s
    case Drop(keys) => s.(rows := s.rows - keys)
    case End(id) => s.(asks := s.asks - {id})
    case Restart(config) => s.(config := config, asks := map[])
  }

  ghost function RunAll(s: State, r: Rules, es: seq<Event>): (s': State)
    requires s.log != []
    ensures s'.log != []
    decreases |es|
  {
    if es == [] then s else RunAll(After(s, r, es[0]), r, es[1..])
  }

  /** No write is one that the signature misses. */
  ghost predicate Seen(s: State, r: Rules, es: seq<Event>)
    requires s.log != []
    decreases |es|
  {
    es != [] ==>
      && (es[0].Write? ==> !Overlooked(s.world, r, es[0].op))
      && Seen(After(s, r, es[0]), r, es[1..])
  }

  /* ---- which answers are kept, and for whom ---- */

  /** A reply that says there is no answer, and cites nothing, is not kept. */
  lemma NoAnswerIsNotKept(s: State, r: Rules, id: nat, lead: string, citations: string, at: nat)
    requires s.log != [] && ('[' !in lead || !CitesSomething(lead + NO_ANSWER))
    ensures After(s, r, Store(id, lead + NO_ANSWER, citations, at)).rows == s.rows
    ensures After(s, r, Store(id, "", citations, at)).rows == s.rows
  {
    hide Worth, Key, Put;
    if '[' in lead { NothingCitedMiss(lead); } else { UncitedMiss(lead); }
    assert !Worth("") by { NothingIsNotWorth(); }
  }

  lemma NothingIsNotWorth()
    ensures !Worth("")
  {
  }

  /** One that cites a document is, whatever it ends in, and so is one that does not end in saying so:
      of a question that has come that far and may be kept, with what it was answered from. */
  lemma AnswerIsKept(s: State, r: Rules, id: nat, answer: string, citations: string, at: nat)
    requires s.log != [] && id in s.asks && s.asks[id].phase.Retrieved? && s.asks[id].phase.sig.Some?
    requires CitesSomething(answer) || (answer != "" && EndsOtherwise(answer))
    ensures var a, u := s.asks[id].ask, After(s, r, Store(id, answer, citations, at));
      && Key(a) in u.rows && u.rows[Key(a)].answer == answer && u.rows[Key(a)].sig == s.asks[id].phase.sig.value
      && u.rows[Key(a)].citations == (if citations == "" then "[]" else citations) && u.rows[Key(a)].usedAt == at
      && u.rows[Key(a)].question == (if Key(a) in s.rows then s.rows[Key(a)].question else Trim(a.question))
      && (forall k | k in s.rows && k != Key(a) :: k in u.rows && u.rows[k] == s.rows[k])
  {
    hide Worth, Key, Trim, Put, After, CitesSomething, EndsOtherwise;
    KeptIsWorth(answer);
    var a := s.asks[id].ask;
    StoreRows(s, r, id, answer, citations, at);
    PutAt(s.rows, Key(a), Trim(a.question), answer, citations, s.asks[id].phase.sig.value, at);
    PutThere(s.rows, Key(a), Trim(a.question), answer, citations, s.asks[id].phase.sig.value, at);
  }

  lemma StoreRows(s: State, r: Rules, id: nat, answer: string, citations: string, at: nat)
    requires s.log != [] && id in s.asks && s.asks[id].phase.Retrieved? && s.asks[id].phase.sig.Some? && Worth(answer)
    ensures var a := s.asks[id].ask;
      After(s, r, Store(id, answer, citations, at)).rows == Put(s.rows, Key(a), Trim(a.question), answer, citations, s.asks[id].phase.sig.value, at)
  {
    hide Worth, Key, Trim, Put;
  }

  lemma PutThere(rows: Rows<Signature>, key: string, question: string, answer: string, citations: string, sig: Signature, at: nat)
    ensures key in Put(rows, key, question, answer, citations, sig, at)
  {
  }

  ghost predicate CitesSomething(answer: string) {
    exists a: string, n: string, b: string :: answer == a + "[" + n + "]" + b && n != "" && forall i | 0 <= i < |n| :: '0' <= n[i] <= '9'
  }

  lemma NothingCitedMiss(lead: string)
    requires !CitesSomething(lead + NO_ANSWER)
    ensures !Worth(lead + NO_ANSWER)
  {
    var s := lead + NO_ANSWER;
    SentenceEnds(lead);
    if HasMarker(Trim(s)) { MarkedCites(s); }
  }

  lemma MarkedCites(s: string)
    requires HasMarker(Trim(s))
    ensures CitesSomething(s)
  {
    var l, r := TrimSplits(s);
    var t := Trim(s);
    hide Trim, CitesSomething;
    var i, j :| 0 <= i < j < |t| && IsMarker(t, i, j);
    var a, n, b := l + t[..i], t[i + 1..j], t[j + 1..] + r;
    assert t == t[..i] + "[" + n + "]" + t[j + 1..];
    assert s == a + "[" + n + "]" + b;
    CitesIs(s, a, n, b);
  }

  lemma CitesIs(s: string, a: string, n: string, b: string)
    requires s == a + "[" + n + "]" + b && n != "" && forall i | 0 <= i < |n| :: '0' <= n[i] <= '9'
    ensures CitesSomething(s)
  {
  }

  predicate EndsOtherwise(answer: string) {
    |Trim(answer)| < |NO_ANSWER| || Trim(answer)[|Trim(answer)| - |NO_ANSWER|..] != NO_ANSWER
  }

  lemma KeptIsWorth(answer: string)
    requires CitesSomething(answer) || (answer != "" && EndsOtherwise(answer))
    ensures Worth(answer)
  {
    if CitesSomething(answer) {
      var a: string, n: string, b: string :|
        answer == a + "[" + n + "]" + b && n != "" && forall i | 0 <= i < |n| :: '0' <= n[i] <= '9';
      CitedIsWorth(a, n, b);
    }
  }

  /** The next who asks the same, under the same signature, is served it: case, spacing and final marks
      of the question do not count, nor does how the scope is spelled. */
  lemma SameQuestionIsServed(s: State, r: Rules, id: nat, answer: string, citations: string, at: nat, next: nat)
    requires s.log != [] && id in s.asks && s.asks[id].phase.Retrieved? && s.asks[id].phase.sig.Some? && Worth(answer)
    requires next in s.asks && s.asks[next].phase.Signed? && s.asks[next].phase.sig == s.asks[id].phase.sig && !s.asks[next].ask.again
    requires var a, b := s.asks[id].ask, s.asks[next].ask;
      && a.model == b.model && Scope(a.scope) == Scope(b.scope) && a.web == b.web
      && Normalise(Trim(a.question)) == Normalise(Trim(b.question))
    ensures var u := After(s, r, Store(id, answer, citations, at)); Served(u, next).Some? && Served(u, next).value.answer == answer
  {
    hide Worth, Scope, Normalise, Trim;
  }

  /* ---- what always holds ---- */

  ghost predicate FromLog(log: seq<Tables>, sig: Signature, config: Config, i: nat) {
    i < |log| && sig == SignatureOf(log[i], config)
  }

  /** What a question knows was read from the log, outside any thread and in this configuration. */
  ghost predicate AskHolds(log: seq<Tables>, config: Config, a: Running) {
    match a.phase
    case Begun => true
    case Retrieved(sig, readAt, gotAt) =>
      readAt <= gotAt < |log| && (sig.Some? ==> !InThread(a.ask) && FromLog(log, sig.value, config, readAt))
    case _ =>
      a.phase.readAt < |log| && (a.phase.sig.Some? ==> !InThread(a.ask) && FromLog(log, a.phase.sig.value, config, a.phase.readAt))
  }

  ghost predicate RowHolds(log: seq<Tables>, key: string, row: Row<Signature>, o: Origin) {
    && key == Key(o.ask) && !InThread(o.ask) && row.answer == o.answer && Worth(o.answer)
    && o.readAt <= o.gotAt < |log| && FromLog(log, row.sig, o.config, o.readAt)
  }

  ghost predicate LogHolds(w: World, log: seq<Tables>, r: Rules) {
    Indexed(w, r) && Dated(w) && log != [] && Last(log) == w.tables && Rising(Aside(log))
  }

  ghost predicate AsksHold(log: seq<Tables>, config: Config, asks: map<nat, Running>) {
    forall id | id in asks :: AskHolds(log, config, asks[id])
  }

  ghost predicate RowsHold(log: seq<Tables>, rows: Rows<Signature>, origins: map<string, Origin>) {
    forall k | k in rows :: k in origins && RowHolds(log, k, rows[k], origins[k])
  }

  ghost predicate Holds(s: State, r: Rules) {
    LogHolds(s.world, s.log, r) && AsksHold(s.log, s.config, s.asks) && RowsHold(s.log, s.rows, s.origins)
  }

  lemma StartHolds(r: Rules, config: Config)
    ensures Holds(Start(config), r)
  {
    hide Derived, Newest, IsNewest, Rising, Bare, Aside;
    StartAgrees(r);
    OneRises(Bare(START.tables));
    assert Aside([START.tables]) == [Bare(START.tables)];
  }

  /* ---- parts of a step ---- */

  lemma LogGrows(log: seq<Tables>, t: Tables, config: Config, s: State)
    requires AsksHold(log, config, s.asks) && RowsHold(log, s.rows, s.origins)
    ensures AsksHold(log + [t], config, s.asks) && RowsHold(log + [t], s.rows, s.origins)
  {
    hide SignatureOf, Worth, Key;
    assert forall i | 0 <= i < |log| :: (log + [t])[i] == log[i];
  }

  lemma WriteRises(s: State, r: Rules, op: Op)
    requires LogHolds(s.world, s.log, r)
    ensures var w := Next(s.world, r, op);
      && LogHolds(w, s.log + [w.tables], r)
      && (Rising(s.log) && !Overlooked(s.world, r, op) ==> Rising(s.log + [w.tables]))
  {
    hide Next, Overlooked, Indexed, Dated, Rising, AtMost, Bare, Aside, Unseen;
    NextIsIndexed(s.world, r, op);
    NextAdvances(s.world, r, op);
    NextAdvancesAside(s.world, r, op);
    RisesOnAside(s.log, Next(s.world, r, op).tables);
    if Rising(s.log) && !Overlooked(s.world, r, op) { RisesOn(s.log, Next(s.world, r, op).tables); }
  }

  lemma AskPut(log: seq<Tables>, config: Config, asks: map<nat, Running>, id: nat, a: Running)
    requires AsksHold(log, config, asks) && AskHolds(log, config, a)
    ensures AsksHold(log, config, asks[id := a])
  {
    hide AskHolds;
  }

  lemma AskGone(log: seq<Tables>, config: Config, asks: map<nat, Running>, id: nat)
    requires AsksHold(log, config, asks)
    ensures AsksHold(log, config, asks - {id})
    ensures id in asks ==> AskHolds(log, config, asks[id])
  {
    hide AskHolds;
  }

  lemma RowPut(log: seq<Tables>, rows: Rows<Signature>, origins: map<string, Origin>, key: string, row: Row<Signature>, o: Origin)
    requires RowsHold(log, rows, origins) && RowHolds(log, key, row, o)
    ensures RowsHold(log, rows[key := row], origins[key := o])
  {
    hide RowHolds;
  }

  lemma RowsTouched(log: seq<Tables>, rows: Rows<Signature>, origins: map<string, Origin>, key: string, at: nat)
    requires RowsHold(log, rows, origins)
    ensures RowsHold(log, Touched(rows, key, at), origins)
  {
    hide FromLog, Key, Worth;
  }

  lemma RowsDropped(log: seq<Tables>, rows: Rows<Signature>, origins: map<string, Origin>, keys: set<string>)
    requires RowsHold(log, rows, origins)
    ensures RowsHold(log, rows - keys, origins)
  {
    hide RowHolds;
  }

  /** A stored answer is one worth keeping, from the log. */
  lemma StoredHolds(log: seq<Tables>, config: Config, a: Running, question: string, rows: Rows<Signature>, answer: string, citations: string, at: nat)
    requires a.phase.Retrieved? && a.phase.sig.Some? && AskHolds(log, config, a) && Worth(answer)
    ensures var put := Put(rows, Key(a.ask), question, answer, citations, a.phase.sig.value, at);
      && put == rows[Key(a.ask) := put[Key(a.ask)]]
      && RowHolds(log, Key(a.ask), put[Key(a.ask)], Origin(a.ask, answer, config, a.phase.readAt, a.phase.gotAt))
  {
    hide FromLog, Key, Worth;
  }

  /* ---- every step ---- */

  lemma AfterHolds(s: State, r: Rules, e: Event)
    requires Holds(s, r)
    ensures Holds(After(s, r, e), r)
    ensures Rising(s.log) && (e.Write? ==> !Overlooked(s.world, r, e.op)) ==> Rising(After(s, r, e).log)
  {
    hide Holds, After, Rising, Overlooked;
    HoldsLog(s, r);
    OnlyWritesLog(s, r, e);
    match e {
      case Write(op) => WriteHolds(s, r, op);
      case Begin(id, ask) => BeginHolds(s, r, id, ask);
      case ReadSignature(id, readable) => ReadHolds(s, r, id, readable);
      case LookUp(id, at) => LookUpHolds(s, r, id, at);
      case Retrieve(id) => RetrieveHolds(s, r, id);
      case Store(id, answer, citations, at) => StoreHolds(s, r, id, answer, citations, at);
      case Drop(keys) => DropHolds(s, r, keys);
      case End(id) => EndHolds(s, r, id);
      case Restart(config) => RestartHolds(s, r, config);
    }
  }

  lemma OnlyWritesLog(s: State, r: Rules, e: Event)
    requires s.log != []
    ensures var u := After(s, r, e);
      if e.Write? then u == s.(world := Next(s.world, r, e.op), log := s.log + [Next(s.world, r, e.op).tables])
      else u.log == s.log && u.world == s.world
  {
    hide Next, Key, SignatureOf, Put, Touched, Worth, Served;
  }

  lemma WriteHolds(s: State, r: Rules, op: Op)
    requires Holds(s, r)
    ensures Holds(After(s, r, Write(op)), r)
    ensures Rising(s.log) && !Overlooked(s.world, r, op) ==> Rising(After(s, r, Write(op)).log)
  {
    hide Next, Overlooked, LogHolds, AsksHold, RowsHold, Rising;
    WriteRises(s, r, op);
    LogGrows(s.log, Next(s.world, r, op).tables, s.config, s);
  }

  lemma BeginHolds(s: State, r: Rules, id: nat, ask: Ask)
    requires Holds(s, r)
    ensures Holds(After(s, r, Begin(id, ask)), r)
  {
    hide LogHolds, AsksHold, RowsHold;
    AskPut(s.log, s.config, s.asks, id, Running(ask, Begun));
  }

  lemma ReadHolds(s: State, r: Rules, id: nat, readable: bool)
    requires Holds(s, r)
    ensures Holds(After(s, r, ReadSignature(id, readable)), r)
  {
    hide AsksHold, RowsHold, Indexed, Dated, Rising, Aside, SignatureOf, InThread;
    if id in s.asks {
      var sig := if InThread(s.asks[id].ask) || !readable then None else Some(SignatureOf(s.world.tables, s.config));
      AskPut(s.log, s.config, s.asks, id, s.asks[id].(phase := Signed(sig, |s.log| - 1)));
    }
  }

  lemma LookUpHolds(s: State, r: Rules, id: nat, at: nat)
    requires Holds(s, r)
    ensures Holds(After(s, r, LookUp(id, at)), r)
  {
    hide AsksHold, RowsHold, LogHolds, FromLog, Key, Touched, Found;
    AskGone(s.log, s.config, s.asks, id);
    if id in s.asks && s.asks[id].phase.Signed? {
      var p := s.asks[id].phase;
      RowsTouched(s.log, s.rows, s.origins, Key(s.asks[id].ask), at);
      AskPut(s.log, s.config, s.asks, id, s.asks[id].(phase := Unserved(p.sig, p.readAt)));
    }
  }

  lemma RetrieveHolds(s: State, r: Rules, id: nat)
    requires Holds(s, r)
    ensures Holds(After(s, r, Retrieve(id)), r)
  {
    hide AsksHold, RowsHold, LogHolds, FromLog;
    AskGone(s.log, s.config, s.asks, id);
    if id in s.asks && s.asks[id].phase.Unserved? {
      var p := s.asks[id].phase;
      AskPut(s.log, s.config, s.asks, id, s.asks[id].(phase := Retrieved(p.sig, p.readAt, |s.log| - 1)));
    }
  }

  lemma StoreHolds(s: State, r: Rules, id: nat, answer: string, citations: string, at: nat)
    requires Holds(s, r)
    ensures Holds(After(s, r, Store(id, answer, citations, at)), r)
  {
    hide AsksHold, RowsHold, LogHolds, AskHolds, RowHolds, Key, Worth, Put;
    AskGone(s.log, s.config, s.asks, id);
    if id in s.asks && s.asks[id].phase.Retrieved? && s.asks[id].phase.sig.Some? && Worth(answer) {
      var Running(ask, p) := s.asks[id];
      var o := Origin(ask, answer, s.config, p.readAt, p.gotAt);
      var put := Put(s.rows, Key(ask), Trim(ask.question), answer, citations, p.sig.value, at);
      StoredHolds(s.log, s.config, s.asks[id], Trim(ask.question), s.rows, answer, citations, at);
      RowPut(s.log, s.rows, s.origins, Key(ask), put[Key(ask)], o);
    }
  }

  lemma DropHolds(s: State, r: Rules, keys: set<string>)
    requires Holds(s, r)
    ensures Holds(After(s, r, Drop(keys)), r)
  {
    hide AsksHold, RowsHold, LogHolds;
    RowsDropped(s.log, s.rows, s.origins, keys);
  }

  lemma EndHolds(s: State, r: Rules, id: nat)
    requires Holds(s, r)
    ensures Holds(After(s, r, End(id)), r)
  {
    hide AsksHold, RowsHold, LogHolds;
    AskGone(s.log, s.config, s.asks, id);
  }

  lemma RestartHolds(s: State, r: Rules, config: Config)
    requires Holds(s, r)
    ensures Holds(After(s, r, Restart(config)), r)
  {
    hide RowsHold, LogHolds;
  }

  /** What holds at the start holds throughout, whatever happens and in whatever order; and the log
      rises, approvals and all, as long as no write is overlooked. */
  lemma {:induction false} RunHolds(s: State, r: Rules, es: seq<Event>)
    requires Holds(s, r)
    ensures Holds(RunAll(s, r, es), r)
    ensures Rising(s.log) && Seen(s, r, es) ==> Rising(RunAll(s, r, es).log)
    decreases |es|
  {
    if es != [] {
      hide After, Holds, Rising, Overlooked;
      AfterHolds(s, r, es[0]);
      RunHolds(After(s, r, es[0]), r, es[1..]);
    }
  }

  /* ---- what a hit is ---- */

  function OriginOf(s: State, id: nat): Origin
    requires id in s.asks && Key(s.asks[id].ask) in s.origins
  {
    s.origins[Key(s.asks[id].ask)]
  }

  lemma ServedHasOrigin(s: State, r: Rules, id: nat)
    requires Holds(s, r) && Served(s, id).Some?
    ensures id in s.asks && s.asks[id].phase.Signed? && s.asks[id].phase.sig.Some? && !s.asks[id].ask.again
    ensures AskHolds(s.log, s.config, s.asks[id]) && Served(s, id).value.sig == s.asks[id].phase.sig.value
    ensures Key(s.asks[id].ask) in s.origins && RowHolds(s.log, Key(s.asks[id].ask), Served(s, id).value, OriginOf(s, id))
  {
    hide LogHolds, AskHolds, RowHolds, Key;
  }

  /** The row's origin and the question agree on the configuration and on the signature. */
  lemma ServedUnder(s: State, r: Rules, id: nat)
    requires Holds(s, r) && Served(s, id).Some?
    ensures id in s.asks && s.asks[id].phase.Signed? && s.asks[id].phase.sig.Some? && Key(s.asks[id].ask) in s.origins
    ensures var o, a, sig := OriginOf(s, id), s.asks[id], s.asks[id].phase.sig.value;
      && o.config == s.config && !InThread(a.ask) && !a.ask.again && !InThread(o.ask) && Key(o.ask) == Key(a.ask)
      && Served(s, id).value.answer == o.answer && Worth(o.answer)
      && o.readAt <= o.gotAt < |s.log| && a.phase.readAt < |s.log|
      && sig == SignatureOf(s.log[o.readAt], s.config) == SignatureOf(s.log[a.phase.readAt], s.config)
  {
    ServedHasOrigin(s, r, id);
    hide Holds, Served, Key, Worth, OriginOf, Newest, IsNewest;
  }

  /** A hit is an answer worth keeping, given outside any thread to a question outside any thread,
      under the same configuration; and for the same model, scope and choice of web sources and a
      question that is the same but for case, spacing and final marks, as long as the field
      separator is in no model's name and no scope. */
  lemma HitAnswersTheSame(s: State, r: Rules, id: nat)
    requires Holds(s, r) && Served(s, id).Some?
    ensures id in s.asks && Key(s.asks[id].ask) in s.origins
    ensures var row, a, o := Served(s, id).value, s.asks[id].ask, OriginOf(s, id);
      && row.answer == o.answer && Worth(row.answer)
      && !InThread(a) && !a.again && !InThread(o.ask) && o.config == s.config
      && (Plain(a.model, Scope(a.scope)) && Plain(o.ask.model, Scope(o.ask.scope)) ==>
            && o.ask.model == a.model && Scope(o.ask.scope) == Scope(a.scope) && o.ask.web == a.web
            && Normalise(Trim(o.ask.question)) == Normalise(Trim(a.question)))
  {
    hide *;
    ServedUnder(s, r, id);
    var a, o := s.asks[id].ask, OriginOf(s, id);
    if Plain(a.model, Scope(a.scope)) && Plain(o.ask.model, Scope(o.ask.scope)) { KeysAgree(a, o.ask); }
  }

  lemma KeysAgree(a: Ask, b: Ask)
    requires Key(a) == Key(b) && Plain(a.model, Scope(a.scope)) && Plain(b.model, Scope(b.scope))
    ensures b.model == a.model && Scope(b.scope) == Scope(a.scope) && b.web == a.web
    ensures Normalise(Trim(b.question)) == Normalise(Trim(a.question))
  {
    hide CacheKey, Plain, Scope, Normalise, Trim;
    SameKeyIff(a.model, Scope(a.scope), a.web, Trim(a.question), b.model, Scope(b.scope), b.web, Trim(b.question));
  }

  /** The same corpus; or, if not `exactly`, the same approvals aside. */
  ghost predicate Alike(t: Tables, u: Tables, exactly: bool) {
    if exactly then t == u else Bare(t) == Bare(u)
  }

  /** A hit's sources were the corpus of some moment between the asker's reading the signature and
      now: the answer is one that could have been generated afresh for this very question. Approvals
      are part of that as long as no write has been overlooked. */
  lemma HitIsFromWithin(s: State, r: Rules, id: nat, exactly: bool)
    requires Holds(s, r) && Served(s, id).Some? && (exactly ==> Rising(s.log))
    ensures id in s.asks && Key(s.asks[id].ask) in s.origins && OriginOf(s, id).gotAt < |s.log|
    ensures exists at :: s.asks[id].phase.readAt <= at < |s.log| && Alike(s.log[at], s.log[OriginOf(s, id).gotAt], exactly)
  {
    hide *;
    ServedUnder(s, r, id);
    HoldsLog(s, r);
    var o, readAt := OriginOf(s, id), s.asks[id].phase.readAt;
    var at := if o.gotAt < readAt then readAt else o.gotAt;
    if o.gotAt < readAt {
      AlikeBetween(s.log, o.readAt, o.gotAt, readAt, s.config, exactly);
    } else {
      SelfIsAlike(s.log[at], exactly);
    }
    assert Alike(s.log[at], s.log[o.gotAt], exactly);
  }

  lemma SelfIsAlike(t: Tables, exactly: bool)
    ensures Alike(t, t, exactly)
  {
  }

  lemma HoldsLog(s: State, r: Rules)
    requires Holds(s, r)
    ensures s.log != [] && s.log[|s.log| - 1] == Last(s.log) == s.world.tables && Rising(Aside(s.log))
  {
    hide AsksHold, RowsHold, Indexed, Dated, Rising, Aside;
  }

  /** Between two moments with one signature nothing changes. */
  lemma AlikeBetween(log: seq<Tables>, i: nat, k: nat, j: nat, c: Config, exactly: bool)
    requires Rising(Aside(log)) && (exactly ==> Rising(log)) && i <= k <= j < |log|
    requires SignatureOf(log[i], c) == SignatureOf(log[j], c)
    ensures Alike(log[j], log[k], exactly)
  {
    hide Rising, Aside, SignatureOf, Bare;
    NeverRecursAside(log, i, j, c);
    if exactly { NeverRecurs(log, i, j, c); }
  }

  lemma AlikeSigns(t: Tables, u: Tables, c: Config, exactly: bool)
    requires Alike(t, u, exactly)
    ensures SignatureOf(t, c) == SignatureOf(u, c)
  {
    hide Bare, SignatureOf;
    SameBareSameSignature(t, u, c);
  }

  /** The sources of a hit are the corpus of now. */
  ghost predicate FromCurrent(s: State, id: nat, exactly: bool)
    requires id in s.asks && s.log != []
  {
    Key(s.asks[id].ask) in s.origins && OriginOf(s, id).gotAt < |s.log|
    && Alike(Last(s.log), s.log[OriginOf(s, id).gotAt], exactly)
  }

  /** As long as the signature that was read is still the corpus's at the look-up, a hit was
      generated from a corpus identical to the current one: it has not outlived its sources. */
  lemma CurrentSignatureCurrentSources(s: State, r: Rules, id: nat, exactly: bool)
    requires Holds(s, r) && Served(s, id).Some? && (exactly ==> Rising(s.log))
    requires s.asks[id].phase.sig.value == SignatureOf(s.world.tables, s.config)
    ensures s.log != [] && Last(s.log) == s.world.tables && FromCurrent(s, id, exactly)
  {
    hide Holds, Served, Key, Rising, Aside, Alike, SignatureOf, InThread, OriginOf, Worth;
    ServedUnder(s, r, id);
    HoldsLog(s, r);
    AlikeBetween(s.log, OriginOf(s, id).readAt, OriginOf(s, id).gotAt, |s.log| - 1, s.config, exactly);
  }

  /** In general a hit's sources are the current corpus exactly when they have its signature. */
  lemma HitIsCurrentIff(s: State, r: Rules, id: nat, exactly: bool)
    requires Holds(s, r) && Served(s, id).Some? && (exactly ==> Rising(s.log))
    ensures id in s.asks && s.log != [] && Last(s.log) == s.world.tables
    ensures Key(s.asks[id].ask) in s.origins && OriginOf(s, id).gotAt < |s.log|
    ensures FromCurrent(s, id, exactly)
       <==> SignatureOf(s.log[OriginOf(s, id).gotAt], s.config) == SignatureOf(s.world.tables, s.config)
  {
    hide Holds, Served, Key, Rising, Aside, Alike, SignatureOf, InThread, OriginOf, Worth;
    ServedUnder(s, r, id);
    HoldsLog(s, r);
    var got := OriginOf(s, id).gotAt;
    if SignatureOf(s.log[got], s.config) == SignatureOf(s.world.tables, s.config) {
      AlikeBetween(s.log, got, got, |s.log| - 1, s.config, exactly);
    }
    if Alike(Last(s.log), s.log[got], exactly) { AlikeSigns(Last(s.log), s.log[got], s.config, exactly); }
  }

  /* ---- what a question knows before its look-up ---- */

  /** In `u` the same writes have been made, under the same configuration, and the question has come as
      far: the cache and the other questions may be anything. */
  ghost predicate SameMoment(u: State, s: State, id: nat) {
    && u.world == s.world && u.log == s.log && u.config == s.config
    && id in s.asks && id in u.asks && u.asks[id] == s.asks[id]
  }

  ghost predicate EveryHitIsCurrent(s: State, r: Rules, id: nat, exactly: bool)
    requires s.log != []
  {
    forall u: State | SameMoment(u, s, id) && Holds(u, r) && Served(u, id).Some? :: FromCurrent(u, id, exactly)
  }

  ghost predicate EveryRunIsCurrent(s: State, r: Rules, id: nat, exactly: bool)
    requires s.log != []
  {
    forall c: Config, es: seq<Event> | SameMoment(RunAll(Start(c), r, es), s, id) && Served(RunAll(Start(c), r, es), id).Some? ::
      FromCurrent(RunAll(Start(c), r, es), id, exactly)
  }

  ghost predicate IsAsking(s: State, id: nat) {
    id in s.asks && s.asks[id].phase.Signed? && s.asks[id].phase.sig.Some? && !s.asks[id].ask.again
  }

  /** What a question knows before its look-up decides it: whatever is in the cache, a hit is from the
      current corpus exactly when the signature that was read is the corpus's still. When it is not,
      there is a run with the same writes whose cache does serve it something else. */
  lemma LookUpIsCurrentIff(config: Config, r: Rules, es: seq<Event>, id: nat, exactly: bool)
    requires IsAsking(RunAll(Start(config), r, es), id) && (exactly ==> Seen(Start(config), r, es))
    ensures var s := RunAll(Start(config), r, es); var current := s.asks[id].phase.sig.value == SignatureOf(s.world.tables, s.config);
      (current <==> EveryHitIsCurrent(s, r, id, exactly)) && (current <==> EveryRunIsCurrent(s, r, id, exactly))
  {
    hide RunAll, Holds, SignatureOf, Served, FromCurrent, Rising, Seen, Start, Key;
    var s := RunAll(Start(config), r, es);
    RunRises(config, r, es);
    if s.asks[id].phase.sig.value == SignatureOf(s.world.tables, s.config) {
      forall u: State | SameMoment(u, s, id) && Holds(u, r) && Served(u, id).Some? ensures FromCurrent(u, id, exactly) {
        CurrentSignatureCurrentSources(u, r, id, exactly);
      }
      forall c: Config, es': seq<Event> | SameMoment(RunAll(Start(c), r, es'), s, id) && Served(RunAll(Start(c), r, es'), id).Some?
        ensures FromCurrent(RunAll(Start(c), r, es'), id, exactly)
      {
        RunRises(c, r, es');
      }
    } else {
      var es' := OldAnswerRun(config, r, es, id);
      RunRises(s.config, r, es');
      StaleIsNotCurrent(RunAll(Start(s.config), r, es'), id, exactly);
    }
  }

  lemma RunRises(c: Config, r: Rules, es: seq<Event>)
    ensures Holds(RunAll(Start(c), r, es), r)
    ensures Seen(Start(c), r, es) ==> Rising(RunAll(Start(c), r, es).log)
  {
    hide RunAll, Holds, Rising, Seen;
    OneRises(START.tables);
    StartHolds(r, c);
    RunHolds(Start(c), r, es);
  }

  lemma StaleIsNotCurrent(u: State, id: nat, exactly: bool)
    requires id in u.asks && u.log != [] && Key(u.asks[id].ask) in u.origins && OriginOf(u, id).gotAt < |u.log|
    requires SignatureOf(u.log[OriginOf(u, id).gotAt], u.config) != SignatureOf(Last(u.log), u.config)
    ensures !FromCurrent(u, id, exactly)
  {
    hide SignatureOf, Key, Alike;
    var got := u.log[OriginOf(u, id).gotAt];
    if Alike(Last(u.log), got, exactly) { AlikeSigns(Last(u.log), got, u.config, exactly); assert false; }
  }

  /* ---- a run with the same writes ---- */

  function OpsOf(es: seq<Event>): seq<Op> {
    if es == [] then [] else (if es[0].Write? then [es[0].op] else []) + OpsOf(es[1..])
  }

  function WritesOf(ops: seq<Op>): (es: seq<Event>)
    ensures |es| == |ops|
  {
    if ops == [] then [] else [Write(ops[0])] + WritesOf(ops[1..])
  }

  lemma {:induction false} OpsOfWrites(ops: seq<Op>)
    ensures OpsOf(WritesOf(ops)) == ops
  {
    if ops != [] {
      OpsOfWrites(ops[1..]);
      assert WritesOf(ops)[1..] == WritesOf(ops[1..]);
    }
  }

  lemma {:induction false} OpsOfConcat(a: seq<Event>, b: seq<Event>)
    ensures OpsOf(a + b) == OpsOf(a) + OpsOf(b)
  {
    if a == [] {
      assert a + b == b;
    } else {
      assert (a + b)[0] == a[0] && (a + b)[1..] == a[1..] + b;
      OpsOfConcat(a[1..], b);
    }
  }

  lemma {:induction false} RunConcat(s: State, r: Rules, a: seq<Event>, b: seq<Event>)
    requires s.log != []
    ensures RunAll(s, r, a + b) == RunAll(RunAll(s, r, a), r, b)
    decreases |a|
  {
    hide After;
    if a == [] {
      assert a + b == b;
    } else {
      assert (a + b)[0] == a[0] && (a + b)[1..] == a[1..] + b;
      RunConcat(After(s, r, a[0]), r, a[1..], b);
    }
  }

  /** The log of a run is the corpora its writes lead through. */
  lemma {:induction false} LogOfRun(s: State, r: Rules, es: seq<Event>)
    requires s.log != []
    ensures var u := RunAll(s, r, es);
      u.world == Run(s.world, r, OpsOf(es)) && u.log == s.log + Corpora(s.world, r, OpsOf(es))[1..]
    decreases |es|
  {
    hide After, Next, Run, Corpora, OpsOf;
    if es == [] {
      NoOps(s.world, r);
    } else {
      var s' := After(s, r, es[0]);
      OnlyWritesLog(s, r, es[0]);
      LogOfRun(s', r, es[1..]);
      FirstOp(es);
      if es[0].Write? { OneOp(s.world, r, es[0].op, OpsOf(es[1..]), s.log); }
    }
  }

  lemma FirstOp(es: seq<Event>)
    requires es != []
    ensures OpsOf(es) == if es[0].Write? then [es[0].op] + OpsOf(es[1..]) else OpsOf(es[1..])
  {
    assert [] + OpsOf(es[1..]) == OpsOf(es[1..]);
  }

  lemma NoOps(w: World, r: Rules)
    ensures OpsOf([]) == [] && Run(w, r, []) == w && Corpora(w, r, [])[1..] == []
  {
  }

  lemma OneOp(w: World, r: Rules, op: Op, ops: seq<Op>, log: seq<Tables>)
    ensures Run(w, r, [op] + ops) == Run(Next(w, r, op), r, ops)
    ensures log + Corpora(w, r, [op] + ops)[1..] == log + [Next(w, r, op).tables] + Corpora(Next(w, r, op), r, ops)[1..]
  {
    hide Next;
    assert ([op] + ops)[1..] == ops;
    var rest := Corpora(Next(w, r, op), r, ops);
    assert Corpora(w, r, [op] + ops)[1..] == rest && rest == [rest[0]] + rest[1..];
    hide Corpora;
    Assoc(log, [rest[0]], rest[1..]);
  }

  /** Writes alone leave the cache and the questions as they are. */
  lemma {:induction false} WritesKeepTheRest(s: State, r: Rules, ops: seq<Op>)
    requires s.log != []
    ensures var u := RunAll(s, r, WritesOf(ops)); u == s.(world := u.world, log := u.log) && s.log <= u.log
    decreases |ops|
  {
    hide After, Next;
    if ops != [] {
      var es := WritesOf(ops);
      assert es[0] == Write(ops[0]) && es[1..] == WritesOf(ops[1..]);
      OnlyWritesLog(s, r, es[0]);
      WritesKeepTheRest(After(s, r, es[0]), r, ops[1..]);
    }
  }

  /** The same writes, and where the signature was read another question first, with the same key: what
      it stores is what a look-up at the end is served. */
  lemma OldAnswerRun(config: Config, r: Rules, es: seq<Event>, id: nat) returns (es': seq<Event>)
    requires IsAsking(RunAll(Start(config), r, es), id)
    ensures var s, u := RunAll(Start(config), r, es), RunAll(Start(RunAll(Start(config), r, es).config), r, es');
      && SameMoment(u, s, id) && Served(u, id).Some? && Key(u.asks[id].ask) in u.origins
      && OriginOf(u, id).gotAt < |u.log| && Last(u.log) == u.world.tables
      && SignatureOf(u.log[OriginOf(u, id).gotAt], u.config) == s.asks[id].phase.sig.value
  {
    hide *;
    var s := RunAll(Start(config), r, es);
    RunRises(config, r, es);
    AskReadTheLog(s, r, id);
    HoldsLog(s, r);
    var a, k, ops := s.asks[id].ask, s.asks[id].phase.readAt, OpsOf(es);
    LogOfStart(config, r, es);
    var before, steps, after := WritesOf(ops[..k]), Steps(id + 1, id, a, "a"), WritesOf(ops[k..]);
    es' := before + steps + after;
    var s1 := RunAll(Start(s.config), r, before);
    RunRises(s.config, r, before);
    HoldsLog(s1, r);
    WrittenFirst(s.config, r, ops[..k]);
    ShortIsWorth();
    var s3 := AskedTwice(r, s1, id + 1, id, a, "a");
    var u := RunAll(s3, r, after);
    WritesKeepTheRest(s3, r, ops[k..]);
    RunConcat(Start(s.config), r, before + steps, after);
    RunConcat(Start(s.config), r, before, steps);
    SameWrites(ops, k, id, a);
    LogOfStart(s.config, r, es');
    assert s3.log[k] == s.log[k];
    assert s.asks[id] == Running(a, Signed(Some(SignatureOf(s.log[k], s.config)), k));
    MomentIs(u, s, id);
    StoredIsServed(u, id, a);
  }

  lemma AskReadTheLog(s: State, r: Rules, id: nat)
    requires Holds(s, r) && IsAsking(s, id)
    ensures id in s.asks
    ensures var Running(ask, phase) := s.asks[id];
      && phase.readAt < |s.log| && phase == Signed(Some(SignatureOf(s.log[phase.readAt], s.config)), phase.readAt)
      && !InThread(ask) && !ask.again
  {
    hide LogHolds, RowsHold, InThread, SignatureOf;
    assert AskHolds(s.log, s.config, s.asks[id]);
  }

  lemma LogOfStart(c: Config, r: Rules, es: seq<Event>)
    ensures var u := RunAll(Start(c), r, es); u.world == Run(START, r, OpsOf(es)) && u.log == Corpora(START, r, OpsOf(es))
  {
    hide RunAll, Run, OpsOf, Corpora;
    LogOfRun(Start(c), r, es);
    var log := Corpora(START, r, OpsOf(es));
    assert log == [START.tables] + log[1..];
  }

  lemma WrittenFirst(c: Config, r: Rules, ops: seq<Op>)
    ensures var s := RunAll(Start(c), r, WritesOf(ops));
      s.rows == map[] && s.origins == map[] && s.asks == map[] && s.config == c && |s.log| == |ops| + 1
  {
    hide RunAll, Corpora;
    WritesKeepTheRest(Start(c), r, ops);
    LogOfStart(c, r, WritesOf(ops));
    OpsOfWrites(ops);
  }

  /** Question `first` gets as far as storing its answer, and then `second` comes. */
  function Steps(first: nat, second: nat, a: Ask, answer: string): seq<Event> {
    [Begin(first, a), ReadSignature(first, true), LookUp(first, 0), Retrieve(first), Store(first, answer, "", 0),
     Begin(second, a), ReadSignature(second, true)]
  }

  lemma SameWrites(ops: seq<Op>, k: nat, id: nat, a: Ask)
    requires k <= |ops|
    ensures OpsOf(WritesOf(ops[..k]) + Steps(id + 1, id, a, "a") + WritesOf(ops[k..])) == ops
  {
    hide *;
    var steps := Steps(id + 1, id, a, "a");
    StepsWriteNothing(id, a);
    OpsOfConcat(WritesOf(ops[..k]) + steps, WritesOf(ops[k..]));
    OpsOfConcat(WritesOf(ops[..k]), steps);
    OpsOfWrites(ops[..k]);
    OpsOfWrites(ops[k..]);
    assert ops[..k] + [] == ops[..k] && ops[..k] + ops[k..] == ops;
  }

  lemma StepsWriteNothing(id: nat, a: Ask)
    ensures OpsOf(Steps(id + 1, id, a, "a")) == []
  {
    NoWrites(Steps(id + 1, id, a, "a"));
  }

  lemma {:induction false} NoWrites(es: seq<Event>)
    requires forall e | e in es :: !e.Write?
    ensures OpsOf(es) == []
  {
    if es != [] { NoWrites(es[1..]); }
  }

  lemma AskedTwice(r: Rules, s: State, first: nat, id: nat, a: Ask, answer: string) returns (u: State)
    requires s.log != [] && s.rows == map[] && s.asks == map[] && !a.again && !InThread(a) && Worth(answer)
    ensures u == RunAll(s, r, Steps(first, id, a, answer)) && u.world == s.world && u.log == s.log && u.config == s.config
    ensures u.asks == map[id := Running(a, Signed(Some(SignatureOf(s.world.tables, s.config)), |s.log| - 1))]
    ensures Key(a) in u.rows && u.rows[Key(a)].sig == SignatureOf(s.world.tables, s.config)
    ensures Key(a) in u.origins && u.origins[Key(a)].gotAt == |s.log| - 1
  {
    hide *;
    var steps := Steps(first, id, a, answer);
    StepsAre(first, id, a, answer);
    var s2 := AskComes(r, s, first, a, steps, 0);
    assert s2.asks.Keys == {first};
    var s5 := AskStores(r, s2, first, a, answer, steps);
    u := AskComes(r, s5, id, a, steps, 5);
    NoMore(u, r);
  }

  lemma StepsAre(first: nat, id: nat, a: Ask, answer: string)
    ensures var es := Steps(first, id, a, answer);
      && |es| == 7 && es[0] == Begin(first, a) && es[1] == ReadSignature(first, true) && es[2] == LookUp(first, 0)
      && es[3] == Retrieve(first) && es[4] == Store(first, answer, "", 0)
      && es[5] == Begin(id, a) && es[6] == ReadSignature(id, true) && es[0..] == es && es[7..] == []
  {
  }

  lemma NoMore(s: State, r: Rules)
    requires s.log != []
    ensures RunAll(s, r, []) == s
  {
  }

  lemma MomentIs(u: State, s: State, id: nat)
    requires u.world == s.world && u.log == s.log && u.config == s.config
    requires id in s.asks && id in u.asks && u.asks[id] == s.asks[id]
    ensures SameMoment(u, s, id)
  {
  }

  lemma StoredIsServed(u: State, id: nat, a: Ask)
    requires id in u.asks && u.asks[id].ask == a && u.asks[id].phase.Signed? && u.asks[id].phase.sig.Some? && !a.again
    requires Key(a) in u.rows && u.rows[Key(a)].sig == u.asks[id].phase.sig.value && Key(a) in u.origins
    ensures Served(u, id).Some? && OriginOf(u, id) == u.origins[Key(a)]
  {
    hide Key;
  }

  lemma ShortIsWorth()
    ensures Worth("a")
  {
  }

  /** The cache over every run: however the questions' steps and the corpus's writes interleave,
      every hit is sound. What is said of corpora is approvals aside when some write of the run is
      one that the signature misses, and exact otherwise. */
  lemma NoHitOutlivesItsSources(r: Rules, config: Config, es: seq<Event>, id: nat)
    requires Served(RunAll(Start(config), r, es), id).Some?
    ensures var s, exactly := RunAll(Start(config), r, es), Seen(Start(config), r, es);
      && id in s.asks && Key(s.asks[id].ask) in s.origins
      && var a, o := s.asks[id].ask, OriginOf(s, id);
      && Worth(Served(s, id).value.answer) && Served(s, id).value.answer == o.answer
      && !InThread(a) && !InThread(o.ask) && o.config == s.config
      && (Plain(a.model, Scope(a.scope)) && Plain(o.ask.model, Scope(o.ask.scope)) ==>
            && o.ask.model == a.model && Scope(o.ask.scope) == Scope(a.scope) && o.ask.web == a.web
            && Normalise(Trim(o.ask.question)) == Normalise(Trim(a.question)))
      && o.gotAt < |s.log| && Last(s.log) == s.world.tables
      && (exists at :: s.asks[id].phase.readAt <= at < |s.log| && Alike(s.log[at], s.log[o.gotAt], exactly))
      && (s.asks[id].phase.sig.value == SignatureOf(s.world.tables, s.config) ==> Alike(s.world.tables, s.log[o.gotAt], exactly))
  {
    hide RunAll, Holds, Seen, Worth, Key, Plain, Scope, Normalise, Trim, Rising, Alike, InThread, Start;
    var s, exactly := RunAll(Start(config), r, es), Seen(Start(config), r, es);
    RunRises(config, r, es);
    HitAnswersTheSame(s, r, id);
    HitIsFromWithin(s, r, id, exactly);
    HoldsLog(s, r);
    if s.asks[id].phase.sig.value == SignatureOf(s.world.tables, s.config) {
      CurrentSignatureCurrentSources(s, r, id, exactly);
    }
  }

  /** Over every run, two moments with one signature are moments of one corpus, unchanged between. */
  lemma SignaturesNeverRecur(r: Rules, config: Config, es: seq<Event>, i: nat, j: nat, c: Config)
    requires var log := RunAll(Start(config), r, es).log; i <= j < |log| && SignatureOf(log[i], c) == SignatureOf(log[j], c)
    ensures var log := RunAll(Start(config), r, es).log;
      forall k | i <= k <= j :: Alike(log[j], log[k], Seen(Start(config), r, es))
  {
    hide *;
    var log := RunAll(Start(config), r, es).log;
    RunRises(config, r, es);
    HoldsLog(RunAll(Start(config), r, es), r);
    forall k | i <= k <= j ensures Alike(log[j], log[k], Seen(Start(config), r, es)) {
      AlikeBetween(log, i, k, j, c, Seen(Start(config), r, es));
    }
  }

  /** But between a question's reading the signature and its look-up the corpus may move on, and the
      look-up goes by what was read: then the hit's sources are not the current corpus. */
  lemma HitCanBeBehind(r: Rules, config: Config, a: Ask, answer: string, d: Doc)
    requires !a.again && !InThread(a) && Worth(answer) && Trim(d.body) != "" && r.split(d.body) != []
    ensures var s := RunAll(Start(config), r, [Begin(0, a), ReadSignature(0, true), LookUp(0, 0), Retrieve(0), Store(0, answer, "", 0),
                                             Begin(1, a), ReadSignature(1, true), Write(Save(d, false))]);
      && Served(s, 1).Some? && 1 in s.asks && Key(s.asks[1].ask) in s.origins && OriginOf(s, 1).gotAt < |s.log|
      && Last(s.log) == s.world.tables && !FromCurrent(s, 1, false)
  {
    hide Key, Worth, SignatureOf, Trim, After, Served, OriginOf, Start, InThread, FromCurrent;
    var steps, last := Steps(0, 1, a, answer), Write(Save(d, false));
    assert steps + [last] == [Begin(0, a), ReadSignature(0, true), LookUp(0, 0), Retrieve(0), Store(0, answer, "", 0),
                              Begin(1, a), ReadSignature(1, true), last];
    StartIs(config);
    RunConcat(Start(config), r, steps, [last]);
    var s7 := AskedTwice(r, Start(config), 0, 1, a, answer);
    assert [last][1..] == [];
    assert RunAll(s7, r, [last]) == After(s7, r, last);
    BehindAfterSave(s7, r, a, d);
  }

  lemma StartIs(config: Config)
    ensures Start(config) == State(START, [EMPTY], config, map[], map[], map[])
  {
  }

  lemma BehindAfterSave(s: State, r: Rules, a: Ask, d: Doc)
    requires s.world == START && s.log == [EMPTY] && !a.again && Trim(d.body) != "" && r.split(d.body) != []
    requires s.asks == map[1 := Running(a, Signed(Some(SignatureOf(EMPTY, s.config)), 0))]
    requires Key(a) in s.rows && Key(a) in s.origins && s.rows[Key(a)].sig == SignatureOf(EMPTY, s.config) && s.origins[Key(a)].gotAt == 0
    ensures var u := After(s, r, Write(Save(d, false)));
      && Served(u, 1).Some? && 1 in u.asks && Key(u.asks[1].ask) in u.origins && OriginOf(u, 1).gotAt < |u.log|
      && Last(u.log) == u.world.tables && !FromCurrent(u, 1, false)
  {
    hide Key, SignatureOf, Next, Trim, FromCurrent;
    SaveShows(r, d, s.config);
    StaleIsNotCurrent(After(s, r, Write(Save(d, false))), 1, false);
  }

  lemma AskComes(r: Rules, s: State, id: nat, a: Ask, es: seq<Event>, i: nat) returns (u: State)
    requires s.log != [] && !InThread(a) && s.asks == map[]
    requires i + 2 <= |es| && es[i] == Begin(id, a) && es[i + 1] == ReadSignature(id, true)
    ensures u == s.(asks := map[id := Running(a, Signed(Some(SignatureOf(s.world.tables, s.config)), |s.log| - 1))])
    ensures RunAll(s, r, es[i..]) == RunAll(u, r, es[i + 2..])
  {
    hide SignatureOf, RunAll, After, InThread;
    OneStep(s, r, es, i);
    BeginStep(s, r, id, a);
    var s1 := After(s, r, es[i]);
    OneStep(s1, r, es, i + 1);
    ReadStep(s1, r, id);
    u := After(s1, r, es[i + 1]);
  }

  lemma AskStores(r: Rules, s: State, id: nat, a: Ask, answer: string, es: seq<Event>) returns (u: State)
    requires s.log != [] && s.rows == map[] && Worth(answer)
    requires s.asks.Keys == {id} && s.asks[id].ask == a && s.asks[id].phase.Signed? && s.asks[id].phase.sig.Some?
    requires |es| >= 5 && es[2] == LookUp(id, 0) && es[3] == Retrieve(id) && es[4] == Store(id, answer, "", 0)
    ensures u == s.(rows := u.rows, origins := u.origins, asks := map[]) && Key(a) in u.rows && Key(a) in u.origins
    ensures u.rows[Key(a)].sig == s.asks[id].phase.sig.value && u.origins[Key(a)].gotAt == |s.log| - 1
    ensures RunAll(s, r, es[2..]) == RunAll(u, r, es[5..])
  {
    hide Key, Worth, RunAll, After, Served;
    OneStep(s, r, es, 2);
    MissStep(s, r, id);
    var s3 := After(s, r, es[2]);
    OneStep(s3, r, es, 3);
    RetrieveStep(s3, r, id);
    var s4 := After(s3, r, es[3]);
    OneStep(s4, r, es, 4);
    StoreStep(s4, r, id, answer);
    u := After(s4, r, es[4]);
  }

  lemma BeginStep(s: State, r: Rules, id: nat, a: Ask)
    requires s.log != [] && id !in s.asks
    ensures After(s, r, Begin(id, a)) == s.(asks := s.asks[id := Running(a, Begun)])
  {
  }

  lemma ReadStep(s: State, r: Rules, id: nat)
    requires s.log != [] && id in s.asks && s.asks[id].phase == Begun && !InThread(s.asks[id].ask)
    ensures After(s, r, ReadSignature(id, true)) == Moved(s, id, Signed(Some(SignatureOf(s.world.tables, s.config)), |s.log| - 1))
  {
    hide SignatureOf;
  }

  lemma MissStep(s: State, r: Rules, id: nat)
    requires s.log != [] && id in s.asks && s.asks[id].phase.Signed? && s.rows == map[]
    ensures After(s, r, LookUp(id, 0)) == Moved(s, id, Unserved(s.asks[id].phase.sig, s.asks[id].phase.readAt))
  {
    hide Key;
  }

  lemma RetrieveStep(s: State, r: Rules, id: nat)
    requires s.log != [] && id in s.asks && s.asks[id].phase.Unserved?
    ensures After(s, r, Retrieve(id)) == Moved(s, id, Retrieved(s.asks[id].phase.sig, s.asks[id].phase.readAt, |s.log| - 1))
  {
  }

  lemma StoreStep(s: State, r: Rules, id: nat, answer: string)
    requires s.log != [] && id in s.asks && s.asks[id].phase.Retrieved? && s.asks[id].phase.sig.Some? && Worth(answer)
    ensures var u, a, p := After(s, r, Store(id, answer, "", 0)), s.asks[id].ask, s.asks[id].phase;
      && u == s.(rows := u.rows, origins := s.origins[Key(a) := Origin(a, answer, s.config, p.readAt, p.gotAt)], asks := s.asks - {id})
      && Key(a) in u.rows && u.rows[Key(a)].sig == p.sig.value
  {
    hide Key, Worth;
  }

  lemma SaveShows(r: Rules, d: Doc, c: Config)
    requires Trim(d.body) != "" && r.split(d.body) != []
    ensures SignatureOf(EMPTY, c) != SignatureOf(Next(START, r, Save(d, false)).tables, c)
  {
    hide Derived, Newest, IsNewest, Ingested, Trim;
    StartAgrees(r);
    IngestAdvances(START, r, d, false);
    BelowIsStrict(EMPTY, Next(START, r, Save(d, false)).tables, c);
  }

  lemma OneStep(s: State, r: Rules, es: seq<Event>, i: nat)
    requires s.log != [] && i < |es|
    ensures RunAll(s, r, es[i..]) == RunAll(After(s, r, es[i]), r, es[i + 1..])
  {
    hide After;
    assert es[i..][1..] == es[i + 1..];
  }
}
