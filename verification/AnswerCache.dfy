/** The answers table (internal/db/cache.go): its keys, look-up, storing and pruning. The clock
    moves with every use, so no two rows were used at the same time. */
module AnswerCache {
  import opened Text
  import opened Paths
  import opened Tickets

  /* ---- keys ---- */

  const SEP: char := '\U{1F}'

  function Flag(web: bool): string { if web then "w" else "" }

  function CacheKey(model: string, scope: string, web: bool, question: string): string {
    model + [SEP] + (scope + [SEP] + (Flag(web) + [SEP] + Normalise(question)))
  }

  datatype Parts = Parts(model: string, scope: string, web: bool)

  function KeyParts(key: string): Parts {
    var f := Split(key, [SEP]);
    if |f| < 4 then Parts("", "", false) else Parts(f[0], f[1], f[2] == "w")
  }

  predicate Plain(model: string, scope: string) { SEP !in model && SEP !in scope }

  lemma SplitKey(model: string, scope: string, web: bool, question: string)
    requires Plain(model, scope)
    ensures Split(CacheKey(model, scope, web, question), [SEP])
         == [model, scope, Flag(web)] + Split(Normalise(question), [SEP])
  {
    hide Split, Normalise;
    var n := Normalise(question);
    SplitPiece(model, SEP, scope + [SEP] + (Flag(web) + [SEP] + n));
    SplitPiece(scope, SEP, Flag(web) + [SEP] + n);
    SplitPiece(Flag(web), SEP, n);
  }

  /** What a row was answered for can be read back out of its key ... */
  lemma KeyPartsOfKey(model: string, scope: string, web: bool, question: string)
    requires Plain(model, scope)
    ensures KeyParts(CacheKey(model, scope, web, question)) == Parts(model, scope, web)
  {
    SplitKey(model, scope, web, question);
  }

  /** ... and two questions share a row exactly when model, scope and flag are the same and the
      questions differ in case, spacing and final marks at most. */
  lemma SameKeyIff(model: string, scope: string, web: bool, q: string, model': string, scope': string, web': bool, q': string)
    requires Plain(model, scope) && Plain(model', scope')
    ensures CacheKey(model, scope, web, q) == CacheKey(model', scope', web', q')
       <==> model == model' && scope == scope' && web == web' && Normalise(q) == Normalise(q')
  {
    if CacheKey(model, scope, web, q) == CacheKey(model', scope', web', q') {
      KeyPartsOfKey(model, scope, web, q);
      KeyPartsOfKey(model', scope', web', q');
      var (n, n') := (Normalise(q), Normalise(q'));
      hide Normalise, Split;
      Cancel(model + [SEP], scope + [SEP] + (Flag(web) + [SEP] + n), scope + [SEP] + (Flag(web) + [SEP] + n'));
      Cancel(scope + [SEP], Flag(web) + [SEP] + n, Flag(web) + [SEP] + n');
      Cancel(Flag(web) + [SEP], n, n');
    }
  }

  /** No question of another model, scope, flag or normal form has the same key. */
  ghost predicate OwnKey(model: string, scope: string, web: bool, q: string) {
    forall m: string, s: string, w: bool, p: string | CacheKey(m, s, w, p) == CacheKey(model, scope, web, q) ::
      m == model && s == scope && w == web && Normalise(p) == Normalise(q)
  }

  /** So a key belongs to its question alone exactly when the separator is in neither model nor scope,
      as long as it is not in the question. */
  lemma KeyIsOwnIff(model: string, scope: string, web: bool, q: string)
    requires SEP !in Normalise(q)
    ensures OwnKey(model, scope, web, q) <==> Plain(model, scope)
  {
    hide Normalise;
    if Plain(model, scope) {
      forall m: string, s: string, w: bool, p: string | CacheKey(m, s, w, p) == CacheKey(model, scope, web, q)
        ensures m == model && s == scope && w == web && Normalise(p) == Normalise(q)
      {
        KeySeps(model, scope, web, q);
        KeySeps(m, s, w, p);
        SameKeyIff(m, s, w, p, model, scope, web, q);
      }
    } else if SEP in model {
      var i :| 0 <= i < |model| && model[i] == SEP;
      var a, b := model[..i], model[i + 1..];
      assert model == a + [SEP] + b;
      KeyMoves(a, b, scope, web, q);
      assert a != model;
    } else {
      var i :| 0 <= i < |scope| && scope[i] == SEP;
      var a, b := scope[..i], scope[i + 1..];
      assert scope == a + [SEP] + b;
      KeyMoves(model, a, b, web, q);
      assert model + [SEP] + a != model;
    }
  }

  lemma KeyMoves(a: string, b: string, c: string, web: bool, q: string)
    ensures CacheKey(a + [SEP] + b, c, web, q) == CacheKey(a, b + [SEP] + c, web, q)
  {
    hide Normalise;
    var rest := Flag(web) + [SEP] + Normalise(q);
    assert a + [SEP] + b + [SEP] + (c + [SEP] + rest) == a + [SEP] + (b + [SEP] + c + [SEP] + rest);
  }

  /** How many separators a key has. */
  lemma KeySeps(model: string, scope: string, web: bool, q: string)
    ensures Seps(CacheKey(model, scope, web, q)) == Seps(model) + Seps(scope) + Seps(Normalise(q)) + 3
    ensures Seps(model) == 0 <==> SEP !in model
    ensures Seps(scope) == 0 <==> SEP !in scope
    ensures Seps(Normalise(q)) == 0 <==> SEP !in Normalise(q)
  {
    var n := Normalise(q);
    hide Normalise;
    SepsAppend(model + [SEP], scope + [SEP] + (Flag(web) + [SEP] + n));
    SepsAppend(model, [SEP]);
    SepsAppend(scope + [SEP], Flag(web) + [SEP] + n);
    SepsAppend(scope, [SEP]);
    SepsAppend(Flag(web) + [SEP], n);
    SepsAppend(Flag(web), [SEP]);
    SepsNone(model);
    SepsNone(scope);
    SepsNone(n);
  }

  function Seps(s: string): nat {
    if s == "" then 0 else (if s[0] == SEP then 1 else 0) + Seps(s[1..])
  }

  lemma {:induction false} SepsAppend(a: string, b: string)
    ensures Seps(a + b) == Seps(a) + Seps(b)
  {
    if a == "" {
      assert a + b == b;
    } else {
      assert (a + b)[1..] == a[1..] + b;
      SepsAppend(a[1..], b);
    }
  }

  lemma {:induction false} SepsNone(s: string)
    ensures Seps(s) == 0 <==> SEP !in s
  {
    if s != "" {
      SepsNone(s[1..]);
      assert SEP in s <==> s[0] == SEP || SEP in s[1..];
    }
  }

  /** Nothing keeps the separator out of a scope, and with one there two different questions do
      share a row. */
  lemma SeparatorInScopeCollides(model: string, scope: string)
    ensures CacheKey(model, scope + [SEP], true, "q") == CacheKey(model, scope, false, "w" + [SEP] + "q")
  {
    assert Normalise("q") == "q" by { PlainWordStays("q"); }
    assert Normalise("w" + [SEP] + "q") == "w" + [SEP] + "q" by { PlainWordStays("w" + [SEP] + "q"); }
    hide Normalise;
    TwoSeps(scope, "w" + [SEP] + "q");
  }

  lemma TwoSeps(a: string, rest: string)
    ensures a + [SEP] + [SEP] + rest == a + [SEP] + ("" + [SEP] + rest)
  {
  }

  lemma PlainWordStays(w: string)
    requires w != "" && forall i | 0 <= i < |w| :: !IsEnding(w[i]) && LowerChar(w[i]) == w[i]
    ensures Normalise(w) == w
  {
    assert Trimmed(w);
    TrimOfTrimmed(w);
    LowerStays(w);
    CollapsedStays(w);
  }

  lemma Cancel(a: string, x: string, y: string)
    requires a + x == a + y
    ensures x == y
  {
    assert x == (a + x)[|a|..] && y == (a + y)[|a|..];
  }

  /* ---- rows ---- */

  datatype Row<S> = Row(question: string, answer: string, citations: string, sig: S, hits: nat, usedAt: nat)

  type Rows<S> = map<string, Row<S>>

  function Found<S(==)>(rows: Rows<S>, sig: S, key: string): Option<Row<S>> {
    if key in rows && rows[key].sig == sig then Some(rows[key]) else None
  }

  function Touched<S>(rows: Rows<S>, key: string, now: nat): Rows<S> {
    if key in rows then rows[key := rows[key].(hits := rows[key].hits + 1, usedAt := now)] else rows
  }

  /** The upsert: a row that is there keeps the wording it was first asked in, and its hits. */
  function Put<S>(rows: Rows<S>, key: string, question: string, answer: string, citations: string, sig: S, now: nat): Rows<S> {
    var cites := if citations == "" then "[]" else citations;
    rows[key := if key in rows then rows[key].(answer := answer, citations := cites, sig := sig, usedAt := now)
                else Row(question, answer, cites, sig, 0, now)]
  }

  /** How many rows were used more recently: the place of a row in `ORDER BY used_at DESC`. */
  function Place<S>(rows: Rows<S>, key: string): nat
    requires key in rows
  {
    |set k | k in rows && rows[k].usedAt > rows[key].usedAt|
  }

  /** The DELETE: what stays has the signature and is among the `keep` most recently used of all
      rows, outdated ones included. */
  ghost predicate IsPruned<S>(after: Rows<S>, rows: Rows<S>, sig: S, keep: nat) {
    && (forall k :: k in after <==> k in rows && rows[k].sig == sig && Place(rows, k) < keep)
    && (forall k | k in after :: after[k] == rows[k])
  }

  function Pruned<S(==)>(rows: Rows<S>, sig: S, keep: nat): (r: Rows<S>)
    ensures IsPruned(r, rows, sig, keep)
  {
    map k | k in rows && rows[k].sig == sig && Place(rows, k) < keep :: rows[k]
  }

  /* ---- most recently used first ---- */

  predicate Newer<S>(rows: Rows<S>, a: string, b: string) {
    a in rows && b in rows && rows[a].usedAt > rows[b].usedAt
  }

  ghost predicate Descending<S>(order: seq<string>, rows: Rows<S>) {
    forall i, j | 0 <= i < j < |order| :: Newer(rows, order[i], order[j])
  }

  /** `order` lists the rows, the most recently used first. */
  ghost predicate Orders<S>(order: seq<string>, rows: Rows<S>) {
    Descending(order, rows) && forall k :: k in rows <==> k in order
  }

  function Minus(order: seq<string>, key: string): (r: seq<string>)
    ensures forall k :: k in r <==> k in order && k != key
  {
    if order == [] then [] else Minus(DropLast(order), key) + if Last(order) == key then [] else [Last(order)]
  }

  function ToFront(order: seq<string>, key: string): seq<string> { [key] + Minus(order, key) }

  function First(order: seq<string>, n: nat): seq<string> {
    if |order| > n then order[..n] else order
  }

  lemma {:induction false} MinusDescends<S>(order: seq<string>, rows: Rows<S>, key: string)
    requires Descending(order, rows)
    ensures Descending(Minus(order, key), rows)
  {
    hide Newer;
    if order != [] {
      var before, last := DropLast(order), Last(order);
      MinusDescends(before, rows, key);
      var m := Minus(before, key);
      forall i | 0 <= i < |m| ensures Newer(rows, m[i], last) {
        assert m[i] in m && m[i] in before;
        var x :| 0 <= x < |before| && before[x] == m[i];
        assert Newer(rows, order[x], order[|order| - 1]);
      }
    }
  }

  lemma NewerIsEarlier<S>(order: seq<string>, rows: Rows<S>, i: nat, j: nat)
    requires Descending(order, rows) && i < |order| && j < |order|
    ensures Newer(rows, order[j], order[i]) <==> j < i
  {
    if i < j { assert Newer(rows, order[i], order[j]); }
  }

  /** A row's place in the list is its place in the table. */
  lemma PlaceIsIndex<S>(order: seq<string>, rows: Rows<S>, i: nat)
    requires Orders(order, rows) && i < |order|
    ensures order[i] in rows && Place(rows, order[i]) == i
  {
    assert order[i] in order;
    var newer := set k | k in rows && rows[k].usedAt > rows[order[i]].usedAt;
    hide Descending;
    forall k ensures k in newer <==> k in order[..i] {
      assert k in newer <==> Newer(rows, k, order[i]);
      if k in order {
        var j := IndexIn(order, k);
        NewerIsEarlier(order, rows, i, j);
        if j < i { assert order[..i][j] == k; }
      }
      if k in order[..i] {
        var j := IndexIn(order[..i], k);
        NewerIsEarlier(order, rows, i, j);
      }
    }
    DescendingIsDistinct(order, rows);
    CountDistinct(order[..i], newer);
  }

  lemma DescendingIsDistinct<S>(order: seq<string>, rows: Rows<S>)
    requires Descending(order, rows)
    ensures forall i, j | 0 <= i < j < |order| :: order[i] != order[j]
  {
    forall i, j | 0 <= i < j < |order| ensures order[i] != order[j] {
      assert Newer(rows, order[i], order[j]);
    }
  }

  lemma {:induction false} CountDistinct(xs: seq<string>, s: set<string>)
    requires forall k :: k in s <==> k in xs
    requires forall i, j | 0 <= i < j < |xs| :: xs[i] != xs[j]
    ensures |s| == |xs|
  {
    if xs == [] {
      assert s == {};
    } else {
      var x, rest := Last(xs), DropLast(xs);
      assert xs == rest + [x];
      assert x in xs && x !in rest;
      CountDistinct(rest, s - {x});
    }
  }

  /** Rows listed by recency stay listed when one of them, or a new one, is used now. */
  lemma UsedOrders<S>(order: seq<string>, rows: Rows<S>, key: string, rows': Rows<S>, now: nat)
    requires Orders(order, rows) && forall k | k in rows :: rows[k].usedAt < now
    requires rows'.Keys == rows.Keys + {key} && rows'[key].usedAt == now
    requires forall k | k in rows && k != key :: rows'[k] == rows[k]
    ensures Orders(ToFront(order, key), rows')
  {
    var m := Minus(order, key);
    MinusDescends(order, rows, key);
    forall i, j | 0 <= i < j < |m| ensures Newer(rows', m[i], m[j]) {
      assert Newer(rows, m[i], m[j]) && m[i] in m && m[j] in m;
    }
    forall j | 0 <= j < |m| ensures Newer(rows', key, m[j]) {
      assert m[j] in m && m[j] in rows;
    }
    FrontDescends(key, m, rows');
    forall k ensures k in rows' <==> k in ToFront(order, key) {
      assert k in [key] + m <==> k == key || k in m;
    }
  }

  lemma FrontDescends<S>(key: string, m: seq<string>, rows: Rows<S>)
    requires Descending(m, rows) && forall j | 0 <= j < |m| :: Newer(rows, key, m[j])
    ensures Descending([key] + m, rows)
  {
    hide Newer;
  }

  ghost predicate AllUnder<S>(rows: Rows<S>, sig: S) { forall k | k in rows :: rows[k].sig == sig }

  /** When all rows share the signature, the prune keeps the most recently used ones ... */
  lemma PruneKeepsRecent<S>(order: seq<string>, rows: Rows<S>, after: Rows<S>, sig: S, keep: nat)
    requires Orders(order, rows) && IsPruned(after, rows, sig, keep) && AllUnder(rows, sig)
    ensures Orders(First(order, keep), after)
  {
    hide Newer, Place;
    var left := First(order, keep);
    forall k ensures k in after <==> k in left {
      if k in rows {
        var i := IndexIn(order, k);
        PlaceIsIndex(order, rows, i);
        if i < keep { assert left[i] == k; }
      }
      if k in left {
        var x :| 0 <= x < |left| && left[x] == k;
        assert order[x] == k && k in order;
        PlaceIsIndex(order, rows, x);
      }
    }
    StillDescends(order, left, rows, after);
  }

  /** ... and otherwise the row just used is the only one under the new signature, and it stays. */
  lemma PruneKeepsNew<S>(order: seq<string>, rows: Rows<S>, after: Rows<S>, sig: S, keep: nat)
    requires Orders(order, rows) && IsPruned(after, rows, sig, keep) && keep > 0 && order != []
    requires forall k | k in rows :: rows[k].sig == sig <==> k == order[0]
    ensures Orders([order[0]], after)
  {
    hide Newer, Place;
    PlaceIsIndex(order, rows, 0);
    assert order[0] in order;
  }

  lemma IndexIn(order: seq<string>, k: string) returns (i: nat)
    requires k in order
    ensures i < |order| && order[i] == k
  {
    i :| 0 <= i < |order| && order[i] == k;
  }

  lemma StillDescends<S>(order: seq<string>, left: seq<string>, rows: Rows<S>, after: Rows<S>)
    requires Descending(order, rows) && left <= order
    requires forall k | k in left :: k in after && k in rows && after[k] == rows[k]
    ensures Descending(left, after)
  {
    forall i, j | 0 <= i < j < |left| ensures Newer(after, left[i], left[j]) {
      assert Newer(rows, order[i], order[j]) && left[i] == order[i] && left[j] == order[j];
      assert left[i] in left && left[j] in left;
    }
  }

  lemma SameSize<S>(a: seq<string>, b: seq<string>, rows: Rows<S>, rows': Rows<S>)
    requires Orders(a, rows) && Orders(b, rows') && rows.Keys == rows'.Keys
    ensures |a| == |b|
  {
    DescendingIsDistinct(a, rows);
    DescendingIsDistinct(b, rows');
    CountDistinct(a, rows.Keys);
    CountDistinct(b, rows'.Keys);
  }

  /* ---- what storing and hitting keep ---- */

  ghost predicate AllUnderOne<S>(rows: Rows<S>) { forall k | k in rows :: AllUnder(rows, rows[k].sig) }

  lemma UnderIsUnderOne<S>(rows: Rows<S>, sig: S)
    requires AllUnder(rows, sig)
    ensures AllUnderOne(rows)
  {
  }

  lemma PruneLeaves<S>(after: Rows<S>, put: Rows<S>, rows: Rows<S>, key: string, sig: S, now: nat, cap: nat)
    requires IsPruned(after, put, sig, cap)
    requires forall k | k in put && k != key :: k in rows && put[k] == rows[k]
    requires forall k | k in put :: put[k].usedAt <= now
    ensures AllUnder(after, sig) && forall k | k in after :: after[k].usedAt < now + 1
    ensures key in after ==> after[key] == put[key]
    ensures forall k | k in after && k != key :: k in rows && after[k] == rows[k]
  {
    hide Place;
  }

  /** The table is a list of at most `cap` keys, the most recently used first, all under one signature. */
  ghost predicate IsLru<S>(rows: Rows<S>, order: seq<string>, now: nat, cap: nat) {
    && Orders(order, rows) && |order| <= cap
    && (forall k | k in rows :: rows[k].usedAt < now)
    && AllUnderOne(rows)
  }

  lemma HitKeepsLru<S>(rows: Rows<S>, order: seq<string>, now: nat, cap: nat, key: string)
    requires IsLru(rows, order, now, cap) && key in rows
    ensures IsLru(Touched(rows, key, now), ToFront(order, key), now + 1, cap)
  {
    var touched := Touched(rows, key, now);
    hide Orders, ToFront, AllUnder;
    UsedOrders(order, rows, key, touched, now);
    SameSize(order, ToFront(order, key), rows, touched);
    assert AllUnder(rows, rows[key].sig);
    hide AllUnderOne;
    TouchedUnder(rows, key, now);
    UnderIsUnderOne(touched, rows[key].sig);
  }

  lemma TouchedUnder<S>(rows: Rows<S>, key: string, now: nat)
    requires key in rows && AllUnder(rows, rows[key].sig)
    ensures AllUnder(Touched(rows, key, now), rows[key].sig)
  {
  }

  /** The order after a store: a table under the same signature loses its least recently used key
      when it is full, one under another signature loses everything. */
  ghost function OrderAfterStore<S(!new)>(rows: Rows<S>, order: seq<string>, key: string, sig: S, cap: nat): seq<string> {
    if forall k | k in rows && k != key :: rows[k].sig == sig then First(ToFront(order, key), cap) else [key]
  }

  lemma FrontStays<S>(order: seq<string>, rows: Rows<S>, cap: nat)
    requires order != [] && cap > 0
    ensures First(order, cap) != [] && First(order, cap)[0] == order[0] && |First(order, cap)| <= cap
    ensures Orders(First(order, cap), rows) ==> order[0] in rows
  {
    assert First(order, cap)[0] in First(order, cap);
  }

  lemma StoreOrders<S(!new)>(rows: Rows<S>, order: seq<string>, key: string, put: Rows<S>, after: Rows<S>, sig: S, now: nat, cap: nat)
    requires IsLru(rows, order, now, cap) && cap > 0 && IsPruned(after, put, sig, cap)
    requires put.Keys == rows.Keys + {key} && put[key].usedAt == now && put[key].sig == sig
    requires forall k | k in rows && k != key :: put[k] == rows[k]
    ensures var left := OrderAfterStore(rows, order, key, sig, cap);
      Orders(left, after) && |left| <= cap && key in after
  {
    hide *;
    LruHas(rows, order, now, cap);
    UsedOrders(order, rows, key, put, now);
    if forall k | k in rows && k != key :: rows[k].sig == sig {
      StoreRecent(rows, order, key, put, after, sig, cap);
    } else {
      StoreNew(rows, order, key, put, after, sig, cap);
    }
  }

  lemma LruHas<S>(rows: Rows<S>, order: seq<string>, now: nat, cap: nat)
    requires IsLru(rows, order, now, cap)
    ensures Orders(order, rows) && AllUnderOne(rows) && forall k | k in rows :: rows[k].usedAt < now
  {
  }

  lemma StoreRecent<S(!new)>(rows: Rows<S>, order: seq<string>, key: string, put: Rows<S>, after: Rows<S>, sig: S, cap: nat)
    requires Orders(ToFront(order, key), put) && cap > 0 && IsPruned(after, put, sig, cap)
    requires put.Keys == rows.Keys + {key} && put[key].sig == sig
    requires forall k | k in rows && k != key :: put[k] == rows[k]
    requires forall k | k in rows && k != key :: rows[k].sig == sig
    ensures var left := OrderAfterStore(rows, order, key, sig, cap);
      Orders(left, after) && |left| <= cap && key in after
  {
    var ranked := ToFront(order, key);
    assert ranked[0] == key;
    hide Orders, IsPruned, First, AllUnder, ToFront;
    NothingElse(put, sig);
    PruneKeepsRecent(ranked, put, after, sig, cap);
    FrontStays(ranked, after, cap);
  }

  lemma StoreNew<S(!new)>(rows: Rows<S>, order: seq<string>, key: string, put: Rows<S>, after: Rows<S>, sig: S, cap: nat)
    requires Orders(ToFront(order, key), put) && cap > 0 && IsPruned(after, put, sig, cap)
    requires AllUnderOne(rows) && !forall k | k in rows && k != key :: rows[k].sig == sig
    requires put.Keys == rows.Keys + {key} && put[key].sig == sig
    requires forall k | k in rows && k != key :: put[k] == rows[k]
    ensures var left := OrderAfterStore(rows, order, key, sig, cap);
      Orders(left, after) && |left| <= cap && key in after
  {
    var ranked := ToFront(order, key);
    assert ranked[0] == key;
    OnlyNew(rows, put, key, sig);
    hide Orders, IsPruned, AllUnderOne, ToFront, First;
    PruneKeepsNew(ranked, put, after, sig, cap);
    FirstIsIn(key, after);
  }

  lemma FirstIsIn<S>(key: string, rows: Rows<S>)
    requires Orders([key], rows)
    ensures key in rows
  {
    assert key in [key];
  }

  lemma NothingElse<S>(rows: Rows<S>, sig: S)
    requires forall k | k in rows :: rows[k].sig == sig
    ensures AllUnder(rows, sig)
  {
  }

  lemma OnlyNew<S(!new)>(rows: Rows<S>, put: Rows<S>, key: string, sig: S)
    requires AllUnderOne(rows) && !forall k | k in rows && k != key :: rows[k].sig == sig
    requires put.Keys == rows.Keys + {key} && put[key].sig == sig
    requires forall k | k in rows && k != key :: put[k] == rows[k]
    ensures forall k | k in put :: put[k].sig == sig <==> k == key
  {
    var x :| x in rows && x != key && rows[x].sig != sig;
    assert AllUnder(rows, rows[x].sig);
  }

  lemma StoreKeepsLru<S(!new)>(rows: Rows<S>, order: seq<string>, key: string, question: string, answer: string, citations: string,
                         sig: S, now: nat, cap: nat)
    requires IsLru(rows, order, now, cap) && cap > 0
    ensures var put := Put(rows, key, question, answer, citations, sig, now);
      var after := Pruned(put, sig, cap);
      && IsLru(after, OrderAfterStore(rows, order, key, sig, cap), now + 1, cap) && AllUnder(after, sig)
      && key in after && after[key] == put[key]
      && forall k | k in after && k != key :: k in rows && after[k] == rows[k]
  {
    var put := Put(rows, key, question, answer, citations, sig, now);
    StoreOrders(rows, order, key, put, Pruned(put, sig, cap), sig, now, cap);
    PruneLeaves(Pruned(put, sig, cap), put, rows, key, sig, now, cap);
    hide *;
    UnderIsUnderOne(Pruned(put, sig, cap), sig);
    assert IsLru(Pruned(put, sig, cap), OrderAfterStore(rows, order, key, sig, cap), now + 1, cap) by {
      LruOf(Pruned(put, sig, cap), OrderAfterStore(rows, order, key, sig, cap), now + 1, cap);
    }
  }

  lemma LruOf<S>(rows: Rows<S>, order: seq<string>, now: nat, cap: nat)
    requires Orders(order, rows) && |order| <= cap && AllUnderOne(rows)
    requires forall k | k in rows :: rows[k].usedAt < now
    ensures IsLru(rows, order, now, cap)
  {
  }

  /* ---- over any number of uses ---- */

  /** One use of the table: looking a row up, or storing one. */
  datatype Use<S> =
    | Look(sig: S, key: string)
    | Keep(sig: S, key: string, question: string, answer: string, citations: string)

  function AfterUse<S(==)>(rows: Rows<S>, u: Use<S>, now: nat, cap: nat): Rows<S> {
    match u
    case Look(sig, key) => if Found(rows, sig, key).Some? then Touched(rows, key, now) else rows
    case Keep(sig, key, question, answer, citations) => Pruned(Put(rows, key, question, answer, citations, sig, now), sig, cap)
  }

  /** The rows after these uses of an empty table, one at each tick of the clock. */
  function AfterUses<S(==)>(us: seq<Use<S>>, cap: nat): Rows<S> {
    if us == [] then map[] else AfterUse(AfterUses(DropLast(us), cap), Last(us), |us| - 1, cap)
  }

  /** The keys used, each once, the last used first. */
  function Recent(keys: seq<string>): seq<string> {
    if keys == [] then [] else ToFront(Recent(DropLast(keys)), Last(keys))
  }

  /** The signature of the last store, and the keys stored or hit since it last changed. */
  datatype History<S> = History(sig: Option<S>, keys: seq<string>)

  function Remembered<S(==)>(us: seq<Use<S>>, cap: nat): History<S> {
    if us == [] then History(None, [])
    else
      var h := Remembered(DropLast(us), cap);
      match Last(us)
      case Look(sig, key) =>
        if h.sig == Some(sig) && key in First(Recent(h.keys), cap) then h.(keys := h.keys + [key]) else h
      case Keep(sig, key, _, _, _) =>
        if h.sig == Some(sig) then h.(keys := h.keys + [key]) else History(Some(sig), [key])
  }

  /** The keys that should be there. */
  function Held<S(==)>(us: seq<Use<S>>, cap: nat): seq<string> {
    First(Recent(Remembered(us, cap).keys), cap)
  }

  ghost predicate HoldsUnder<S>(rows: Rows<S>, sig: Option<S>) {
    if sig.Some? then rows != map[] && AllUnder(rows, sig.value) else rows == map[]
  }

  /** However it is used, the table holds exactly the last `cap` distinct keys stored or hit since the
      signature last changed, all of them under that signature, and their rows are in that order of
      use. */
  lemma {:induction false} TableIsLru<S(!new)>(us: seq<Use<S>>, cap: nat)
    requires cap > 0
    ensures IsLru(AfterUses(us, cap), Held(us, cap), |us|, cap)
    ensures HoldsUnder(AfterUses(us, cap), Remembered(us, cap).sig)
  {
    hide IsLru, ToFront, Recent, First, HoldsUnder;
    if us == [] {
      NothingHeld<S>(cap);
    } else {
      var before, u, now := DropLast(us), Last(us), |us| - 1;
      TableIsLru(before, cap);
      var rows, h := AfterUses(before, cap), Remembered(before, cap);
      match u {
        case Look(sig, key) => LookIsLru(rows, h, sig, key, now, cap);
        case Keep(sig, key, question, answer, citations) => KeepIsLru(rows, h, sig, key, question, answer, citations, now, cap);
      }
    }
  }

  lemma NothingHeld<S(!new)>(cap: nat)
    ensures Recent([]) == [] && First([], cap) == []
    ensures var none: Rows<S> := map[]; IsLru(none, [], 0, cap) && HoldsUnder(none, None)
  {
  }

  lemma LookIsLru<S(!new)>(rows: Rows<S>, h: History<S>, sig: S, key: string, now: nat, cap: nat)
    requires cap > 0 && IsLru(rows, First(Recent(h.keys), cap), now, cap) && HoldsUnder(rows, h.sig)
    ensures var order := First(Recent(h.keys), cap);
      var hit := h.sig == Some(sig) && key in order;
      var rows' := if Found(rows, sig, key).Some? then Touched(rows, key, now) else rows;
      && (Found(rows, sig, key).Some? <==> hit) && HoldsUnder(rows', h.sig)
      && (hit ==> First(Recent(h.keys + [key]), cap) == ToFront(order, key) && IsLru(rows', ToFront(order, key), now + 1, cap))
      && (!hit ==> IsLru(rows', order, now + 1, cap))
  {
    hide IsLru, Recent, First, ToFront;
    var order := First(Recent(h.keys), cap);
    LruHas(rows, order, now, cap);
    LruDistinct(rows, order, now, cap);
    assert Found(rows, sig, key).Some? <==> h.sig == Some(sig) && key in order;
    if Found(rows, sig, key).Some? {
      HitKeepsLru(rows, order, now, cap, key);
      TouchedUnder(rows, key, now);
      RecentMore(h.keys, key);
      FirstToFront(Recent(h.keys), key, cap);
    } else {
      LruLater(rows, order, now, cap);
    }
  }

  lemma KeepIsLru<S(!new)>(rows: Rows<S>, h: History<S>, sig: S, key: string, question: string, answer: string, citations: string,
                           now: nat, cap: nat)
    requires cap > 0 && IsLru(rows, First(Recent(h.keys), cap), now, cap) && HoldsUnder(rows, h.sig)
    ensures var h' := if h.sig == Some(sig) then h.(keys := h.keys + [key]) else History(Some(sig), [key]);
      var rows' := Pruned(Put(rows, key, question, answer, citations, sig, now), sig, cap);
      && IsLru(rows', First(Recent(h'.keys), cap), now + 1, cap) && HoldsUnder(rows', h'.sig)
      && First(Recent(h'.keys), cap) == OrderAfterStore(rows, First(Recent(h.keys), cap), key, sig, cap)
  {
    hide IsLru, Recent, First, Pruned, Put, OrderAfterStore, AllUnder;
    var order := First(Recent(h.keys), cap);
    LruHas(rows, order, now, cap);
    LruDistinct(rows, order, now, cap);
    StoreKeepsLru(rows, order, key, question, answer, citations, sig, now, cap);
    StoreOrder(rows, h, key, sig, cap);
  }

  lemma StoreOrder<S(!new)>(rows: Rows<S>, h: History<S>, key: string, sig: S, cap: nat)
    requires cap > 0 && Orders(First(Recent(h.keys), cap), rows) && HoldsUnder(rows, h.sig)
    ensures var h' := if h.sig == Some(sig) then h.(keys := h.keys + [key]) else History(Some(sig), [key]);
      First(Recent(h'.keys), cap) == OrderAfterStore(rows, First(Recent(h.keys), cap), key, sig, cap)
  {
    hide Recent, ToFront, First, Descending;
    var order := First(Recent(h.keys), cap);
    if h.sig == Some(sig) {
      OrdersDistinct(rows, order);
      RecentMore(h.keys, key);
      FirstToFront(Recent(h.keys), key, cap);
    } else {
      RecentOne(key);
      FirstOne(key, cap);
      if forall k | k in rows && k != key :: rows[k].sig == sig {
        assert forall k | k in order :: k in rows && k == key;
        OnlyItself(order, key);
      }
    }
  }

  lemma {:induction false} OnlyItself(order: seq<string>, key: string)
    requires forall k | k in order :: k == key
    ensures ToFront(order, key) == [key] && Minus(order, key) == []
  {
    if order != [] {
      assert Last(order) in order;
      assert forall k | k in DropLast(order) :: k in order;
      OnlyItself(DropLast(order), key);
    }
  }

  lemma FirstOne(key: string, cap: nat)
    requires cap > 0
    ensures First([key], cap) == [key]
  {
  }

  lemma RecentMore(keys: seq<string>, key: string)
    ensures Recent(keys + [key]) == ToFront(Recent(keys), key)
  {
    assert DropLast(keys + [key]) == keys;
  }

  lemma RecentOne(key: string)
    ensures Recent([key]) == [key]
  {
    RecentMore([], key);
    assert [] + [key] == [key] && Minus([], key) == [];
  }

  lemma LruLater<S>(rows: Rows<S>, order: seq<string>, now: nat, cap: nat)
    requires IsLru(rows, order, now, cap)
    ensures IsLru(rows, order, now + 1, cap)
  {
    hide Orders, AllUnderOne;
  }

  predicate Distinct(order: seq<string>) { forall i, j | 0 <= i < j < |order| :: order[i] != order[j] }

  lemma OrdersDistinct<S>(rows: Rows<S>, order: seq<string>)
    requires Orders(order, rows)
    ensures Distinct(order)
  {
    DescendingIsDistinct(order, rows);
  }

  lemma LruDistinct<S>(rows: Rows<S>, order: seq<string>, now: nat, cap: nat)
    requires IsLru(rows, order, now, cap)
    ensures Distinct(order)
  {
    OrdersDistinct(rows, order);
  }

  /** What falls off the end does not matter to what is at the front. */
  lemma FirstToFront(order: seq<string>, key: string, cap: nat)
    requires cap > 0 && Distinct(First(order, cap))
    ensures First(ToFront(First(order, cap), key), cap) == First(ToFront(order, key), cap)
    ensures key in First(order, cap) ==> ToFront(First(order, cap), key) == First(ToFront(order, key), cap)
  {
    hide Minus, Distinct;
    var front := First(order, cap);
    MinusLength(front, key);
    if |order| > cap {
      assert order == front + order[cap..];
      MinusAppend(front, order[cap..], key);
      FirstOfMore(key, Minus(front, key), Minus(order[cap..], key), cap);
    }
  }

  lemma FirstOfMore(key: string, m: seq<string>, rest: seq<string>, cap: nat)
    requires 0 < cap <= |m| + 1
    ensures First([key] + m, cap) == First([key] + (m + rest), cap)
    ensures |m| + 1 == cap ==> [key] + m == First([key] + (m + rest), cap)
  {
  }

  lemma {:induction false} MinusAppend(a: seq<string>, b: seq<string>, key: string)
    ensures Minus(a + b, key) == Minus(a, key) + Minus(b, key)
  {
    if b == [] {
      assert a + b == a;
    } else {
      assert DropLast(a + b) == a + DropLast(b) && Last(a + b) == Last(b);
      MinusAppend(a, DropLast(b), key);
    }
  }

  lemma {:induction false} MinusLength(order: seq<string>, key: string)
    requires Distinct(order)
    ensures |Minus(order, key)| == |order| - if key in order then 1 else 0
  {
    if order != [] {
      var before := DropLast(order);
      assert order == before + [Last(order)];
      MinusLength(before, key);
      if Last(order) == key { assert key !in before; }
    }
  }

  /** Each key with the place of its last use. */
  function LastUses(keys: seq<string>): (rows: Rows<()>)
    ensures forall k :: k in rows <==> k in keys
  {
    if keys == [] then map[]
    else
      assert keys == DropLast(keys) + [Last(keys)];
      LastUses(DropLast(keys))[Last(keys) := Row("", "", "", (), 0, |keys| - 1)]
  }

  lemma {:induction false} LastUsesAre(keys: seq<string>)
    ensures forall k | k in LastUses(keys) :: var at := LastUses(keys)[k].usedAt;
      at < |keys| && keys[at] == k && forall j | at < j < |keys| :: keys[j] != k
  {
    if keys != [] { LastUsesAre(DropLast(keys)); }
  }

  /** `Recent` is the keys used, in the order of their last uses. */
  lemma {:induction false} RecentByLastUse(keys: seq<string>)
    ensures Orders(Recent(keys), LastUses(keys))
  {
    hide Orders, ToFront;
    if keys == [] {
      NoneOrdered();
    } else {
      var before := DropLast(keys);
      RecentByLastUse(before);
      LastUsesAre(before);
      UsedOrders(Recent(before), LastUses(before), Last(keys), LastUses(keys), |keys| - 1);
    }
  }

  lemma NoneOrdered()
    ensures var none: Rows<()> := map[]; Orders([], none)
  {
  }

  /** A row that is stored again keeps the wording it was first asked in, and its hits. */
  lemma PutAt<S>(rows: Rows<S>, key: string, question: string, answer: string, citations: string, sig: S, now: nat)
    ensures var put, cites := Put(rows, key, question, answer, citations, sig, now), if citations == "" then "[]" else citations;
      && put[key].answer == answer && put[key].citations == cites && put[key].sig == sig && put[key].usedAt == now
      && (key in rows ==> put[key].question == rows[key].question && put[key].hits == rows[key].hits)
      && (key !in rows ==> put[key].question == question && put[key].hits == 0)
      && forall k | k in rows && k != key :: k in put && put[k] == rows[k]
  {
  }

  /* ---- the table ---- */

  const DEFAULT_KEEP: nat := 200

  class AnswerTable {
    const keep: nat
    var rows: Rows<string>
    var clock: nat
    ghost var uses: seq<Use<string>>  // every look-up and every store so far

    function Cap(): (n: nat) ensures n > 0 { if keep > 0 then keep else DEFAULT_KEEP }

    ghost predicate Valid()
      reads this
    {
      rows == AfterUses(uses, Cap()) && clock == |uses|
    }

    /** The keys, most recently used first. */
    ghost function Order(): seq<string>
      reads this
    {
      Held(uses, Cap())
    }

    constructor (keep: nat)
      ensures Valid() && uses == [] && this.keep == keep
    {
      this.keep, rows, clock, uses := keep, map[], 0, [];
    }

    /** A hit is counted and makes its row the most recently used; a miss changes nothing. */
    method Cached(sig: string, key: string) returns (r: Option<Row<string>>)
      requires Valid()
      modifies this
      ensures Valid() && uses == old(uses) + [Look(sig, key)]
      ensures var found := Found(old(rows), sig, key);
        && r == (if found.None? then None else Some(found.value.(hits := found.value.hits + 1)))
        && rows == (if found.None? then old(rows) else Touched(old(rows), key, old(clock)))
        && Order() == (if found.None? then old(Order()) else ToFront(old(Order()), key))
      ensures r.Some? <==> key in old(rows) && old(rows)[key].sig == sig
      ensures rows == if r.None? then old(rows)
                      else old(rows)[key := old(rows)[key].(hits := old(rows)[key].hits + 1, usedAt := old(clock))]
    {
      hide AfterUses, Held, ToFront;
      UsedOnce(uses, Look(sig, key), Cap());
      uses := uses + [Look(sig, key)];
      clock := clock + 1;
      if key !in rows || rows[key].sig != sig {
        return None;
      }
      var c := rows[key];
      rows := rows[key := c.(hits := c.hits + 1, usedAt := clock - 1)];
      return Some(c.(hits := c.hits + 1));
    }

    /** Storing is using: the row goes to the front, everything under another signature goes out,
        and of the rest the least recently used goes when there is no room. */
    method Cache(sig: string, key: string, question: string, answer: string, citations: string)
      requires Valid()
      modifies this
      ensures Valid() && uses == old(uses) + [Keep(sig, key, question, answer, citations)] && AllUnder(rows, sig)
      ensures rows == Pruned(Put(old(rows), key, question, answer, citations, sig, old(clock)), sig, Cap())
      ensures key in rows && rows[key] == Put(old(rows), key, question, answer, citations, sig, old(clock))[key]
      ensures var cites := if citations == "" then "[]" else citations;
        rows[key] == if key in old(rows) then old(rows)[key].(answer := answer, citations := cites, sig := sig, usedAt := old(clock))
                     else Row(question, answer, cites, sig, 0, old(clock))
      ensures forall k | k in rows && k != key :: k in old(rows) && rows[k] == old(rows)[k]
      ensures Order() == OrderAfterStore(old(rows), old(Order()), key, sig, Cap())
    {
      hide AfterUses, Held, OrderAfterStore, Pruned, AllUnder, IsLru;
      TableIsLru(uses, Cap());
      StoreKeepsLru(rows, Order(), key, question, answer, citations, sig, clock, Cap());
      UsedOnce(uses, Keep(sig, key, question, answer, citations), Cap());
      uses := uses + [Keep(sig, key, question, answer, citations)];
      rows := Put(rows, key, question, answer, citations, sig, clock);
      rows := Pruned(rows, sig, Cap());
      clock := clock + 1;
    }
  }

  /** What one use more does to the rows and to their order. */
  lemma UsedOnce<S(!new)>(us: seq<Use<S>>, u: Use<S>, cap: nat)
    requires cap > 0
    ensures var rows, order := AfterUses(us, cap), Held(us, cap);
      && AfterUses(us + [u], cap) == AfterUse(rows, u, |us|, cap)
      && Held(us + [u], cap) ==
         if u.Keep? then OrderAfterStore(rows, order, u.key, u.sig, cap)
         else if Found(rows, u.sig, u.key).Some? then ToFront(order, u.key)
         else order
  {
    assert DropLast(us + [u]) == us;
    TableIsLru(us, cap);
    hide IsLru, OrderAfterStore, ToFront, Recent, First, HoldsUnder;
    var rows, h := AfterUses(us, cap), Remembered(us, cap);
    match u {
      case Look(sig, key) => LookIsLru(rows, h, sig, key, |us|, cap);
      case Keep(sig, key, question, answer, citations) => KeepIsLru(rows, h, sig, key, question, answer, citations, |us|, cap);
    }
  }
}
