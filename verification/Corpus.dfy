/** The documents and the index derived from them (internal/db/store.go): soft-deleted rows, chunk
    rows and their vectors. Times are readings of a clock that moves with every write. */
module Corpus {
  import opened Text
  import opened Chunking

  type Vector = seq<real>

  datatype Doc = Doc(path: string, title: string, alias: string, kind: string, description: string, body: string)

  datatype DocRow = DocRow(id: nat, doc: Doc, updatedAt: nat, deletedAt: Option<nat>)

  datatype ChunkRow = ChunkRow(documentId: nat, heading: string, content: string, ord: nat, approved: bool)

  datatype Tables = Tables(documents: map<string, DocRow>, chunks: map<nat, ChunkRow>, vectors: map<nat, Vector>,
                           nextDoc: nat, nextChunk: nat)

  const EMPTY := Tables(map[], map[], map[], 0, 0)

  predicate Live(t: Tables, path: string) {
    path in t.documents && t.documents[path].deletedAt.None?
  }

  /** A document's chunks and their vectors, gone. */
  function Without(t: Tables, id: nat): Tables {
    t.(vectors := map c | c in t.vectors && !(c in t.chunks && t.chunks[c].documentId == id) :: t.vectors[c],
       chunks := map c | c in t.chunks && t.chunks[c].documentId != id :: t.chunks[c])
  }

  /** The id the row at this path has, or will get. */
  function DocId(t: Tables, path: string): nat {
    if path in t.documents then t.documents[path].id else t.nextDoc
  }

  function Upserted(t: Tables, d: Doc, now: nat): Tables {
    var row := DocRow(DocId(t, d.path), d, now, None);
    if d.path in t.documents then Without(t, row.id).(documents := t.documents[d.path := row])
    else t.(documents := t.documents[d.path := row], nextDoc := t.nextDoc + 1)
  }

  function Inserted(t: Tables, id: nat, c: Chunk, ord: nat, v: Vector): Tables {
    t.(chunks := t.chunks[t.nextChunk := ChunkRow(id, c.heading, c.content, ord, false)],
       vectors := t.vectors[t.nextChunk := v],
       nextChunk := t.nextChunk + 1)
  }

  function InsertedFrom(t: Tables, id: nat, cs: seq<Chunk>, vs: seq<Vector>, i: nat): Tables
    requires |vs| == |cs| && i <= |cs|
    decreases |cs| - i
  {
    if i == |cs| then t else InsertedFrom(Inserted(t, id, cs[i], i, vs[i]), id, cs, vs, i + 1)
  }

  /** The row and all of its chunks. */
  function Ingested(t: Tables, d: Doc, cs: seq<Chunk>, vs: seq<Vector>, now: nat): Tables
    requires |vs| == |cs|
  {
    InsertedFrom(Upserted(t, d, now), DocId(t, d.path), cs, vs, 0)
  }

  function Removed(t: Tables, path: string, now: nat): Tables {
    if !Live(t, path) then t
    else
      var row := t.documents[path];
      Without(t, row.id).(documents := t.documents[path := row.(deletedAt := Some(now))])
  }

  function Approved(t: Tables, path: string): Tables {
    if path !in t.documents then t
    else
      var id := t.documents[path].id;
      t.(chunks := map c | c in t.chunks ::
        if t.chunks[c].documentId == id then t.chunks[c].(approved := true) else t.chunks[c])
  }

  /* ---- the store ---- */

  class Store {
    var documents: map<string, DocRow>
    var chunks: map<nat, ChunkRow>
    var vectors: map<nat, Vector>
    var nextDoc: nat
    var nextChunk: nat
    var clock: nat

    function State(): Tables
      reads this
    {
      Tables(documents, chunks, vectors, nextDoc, nextChunk)
    }

    constructor ()
      ensures State() == EMPTY && clock == 0
    {
      documents, chunks, vectors, nextDoc, nextChunk, clock := map[], map[], map[], 0, 0, 0;
    }

    method UpsertDocument(d: Doc) returns (id: nat)
      modifies this
      ensures State() == Upserted(old(State()), d, old(clock)) && clock == old(clock) + 1
      ensures id == DocId(old(State()), d.path)
    {
      if d.path in documents {
        id := documents[d.path].id;
        vectors := map c | c in vectors && !(c in chunks && chunks[c].documentId == id) :: vectors[c];
        chunks := map c | c in chunks && chunks[c].documentId != id :: chunks[c];
      } else {
        id, nextDoc := nextDoc, nextDoc + 1;
      }
      documents := documents[d.path := DocRow(id, d, clock, None)];
      clock := clock + 1;
    }

    method InsertChunk(docId: nat, c: Chunk, ord: nat, emb: Vector)
      modifies this
      ensures State() == Inserted(old(State()), docId, c, ord, emb) && clock == old(clock)
    {
      chunks := chunks[nextChunk := ChunkRow(docId, c.heading, c.content, ord, false)];
      vectors := vectors[nextChunk := emb];
      nextChunk := nextChunk + 1;
    }

    method RemoveDocument(path: string) returns (existed: bool)
      modifies this
      ensures State() == Removed(old(State()), path, old(clock)) && clock == old(clock) + 1
      ensures existed == Live(old(State()), path)
    {
      existed := path in documents && documents[path].deletedAt.None?;
      if existed {
        var id := documents[path].id;
        vectors := map c | c in vectors && !(c in chunks && chunks[c].documentId == id) :: vectors[c];
        chunks := map c | c in chunks && chunks[c].documentId != id :: chunks[c];
        documents := documents[path := documents[path].(deletedAt := Some(clock))];
      }
      clock := clock + 1;
    }

    method Approve(path: string)
      modifies this
      ensures State() == Approved(old(State()), path) && clock == old(clock)
    {
      if path in documents {
        var id := documents[path].id;
        chunks := map c | c in chunks ::
          if chunks[c].documentId == id then chunks[c].(approved := true) else chunks[c];
      }
    }
  }

  /* ---- the index can always be derived again ---- */

  ghost predicate Sound(t: Tables) {
    && (forall p | p in t.documents :: t.documents[p].doc.path == p && t.documents[p].id < t.nextDoc)
    && (forall p, q | p in t.documents && q in t.documents && p != q :: t.documents[p].id != t.documents[q].id)
    && (forall c | c in t.chunks :: t.chunks[c].documentId < t.nextDoc)
    && Numbered(t)
  }

  ghost predicate Numbered(t: Tables) {
    (forall c | c in t.chunks :: c < t.nextChunk) && t.vectors.Keys == t.chunks.Keys
  }

  /** Chunk `c` of the table is chunk `i` of its document. */
  predicate Matches(row: ChunkRow, c: Chunk, i: nat) {
    row.heading == c.heading && row.content == c.content && row.ord == i
  }

  /** The rows of a document are the chunks of its text, one row each, in order. */
  ghost predicate HoldsChunks(t: Tables, id: nat, cs: seq<Chunk>, base: nat) {
    && (forall c :: c in t.chunks && t.chunks[c].documentId == id <==> base <= c < base + |cs|)
    && (forall c | base <= c < base + |cs| :: c in t.chunks && Matches(t.chunks[c], cs[c - base], c - base))
  }

  ghost predicate DocDerived(t: Tables, split: string -> seq<Chunk>, p: string)
    requires p in t.documents
  {
    var row := t.documents[p];
    if row.deletedAt.Some? then forall c | c in t.chunks :: t.chunks[c].documentId != row.id
    else split(row.doc.body) != [] && exists base :: HoldsChunks(t, row.id, split(row.doc.body), base)
  }

  /** The index holds nothing that the documents and the two functions `split` and `embed` do not
      determine: a live document's chunks are those of its text, a removed one has none, every
      chunk belongs to a document, and its vector is the embedding of its own text. */
  ghost predicate Derived(t: Tables, split: string -> seq<Chunk>, embed: string -> Vector) {
    Sound(t) && DocsDerived(t, split) && Owned(t) && Embedded(t, embed)
  }

  ghost predicate DocsDerived(t: Tables, split: string -> seq<Chunk>) {
    forall p | p in t.documents :: DocDerived(t, split, p)
  }

  ghost predicate Owned(t: Tables) {
    forall c | c in t.chunks :: exists p :: p in t.documents && t.documents[p].id == t.chunks[c].documentId
  }

  ghost predicate Embedded(t: Tables, embed: string -> Vector)
    requires Numbered(t)
  {
    forall c | c in t.chunks :: t.vectors[c] == embed(t.chunks[c].heading + "\n" + t.chunks[c].content)
  }

  /** `r` is `t` with the chunks from the `i`-th on inserted for document `id`. */
  ghost predicate Extends(t: Tables, r: Tables, id: nat, cs: seq<Chunk>, vs: seq<Vector>, i: nat)
    requires |vs| == |cs| && i <= |cs|
  {
    && r.documents == t.documents && r.nextDoc == t.nextDoc && r.nextChunk == t.nextChunk + |cs| - i
    && Numbered(r)
    && (forall c :: c in r.chunks <==> c in t.chunks || t.nextChunk <= c < r.nextChunk)
    && RowsStay(t, r) && RowsAdded(r, t.nextChunk, id, cs, vs, i)
  }

  ghost predicate RowsStay(t: Tables, r: Tables) {
    forall c | c in t.chunks :: c in r.chunks && c in t.vectors && c in r.vectors && r.chunks[c] == t.chunks[c] && r.vectors[c] == t.vectors[c]
  }

  /** The rows from `base` on are the chunks from the `i`-th on. */
  ghost predicate RowsAdded(r: Tables, base: nat, id: nat, cs: seq<Chunk>, vs: seq<Vector>, i: nat)
    requires |vs| == |cs| && i <= |cs|
  {
    forall c | base <= c < base + |cs| - i :: RowAt(r, c, base, id, cs, vs, i)
  }

  predicate RowAt(r: Tables, c: nat, base: nat, id: nat, cs: seq<Chunk>, vs: seq<Vector>, i: nat)
    requires |vs| == |cs|
  {
    var k := i + c - base;
    0 <= k < |cs| && c in r.chunks && c in r.vectors
    && r.chunks[c] == ChunkRow(id, cs[k].heading, cs[k].content, k, false) && r.vectors[c] == vs[k]
  }

  lemma {:induction false} InsertedExtends(t: Tables, id: nat, cs: seq<Chunk>, vs: seq<Vector>, i: nat)
    requires |vs| == |cs| && i <= |cs| && Numbered(t)
    ensures Extends(t, InsertedFrom(t, id, cs, vs, i), id, cs, vs, i)
    decreases |cs| - i
  {
    if i < |cs| {
      var t' := Inserted(t, id, cs[i], i, vs[i]);
      assert Numbered(t');
      InsertedExtends(t', id, cs, vs, i + 1);
      ExtendsMore(t, t', InsertedFrom(t', id, cs, vs, i + 1), id, cs, vs, i);
    }
  }

  lemma ExtendsMore(t: Tables, t': Tables, r: Tables, id: nat, cs: seq<Chunk>, vs: seq<Vector>, i: nat)
    requires |vs| == |cs| && i < |cs| && Numbered(t)
    requires t' == Inserted(t, id, cs[i], i, vs[i]) && Extends(t', r, id, cs, vs, i + 1)
    ensures Extends(t, r, id, cs, vs, i)
  {
    hide RowsStay, RowsAdded, Numbered, RowAt;
    ExtendsKeys(t, t', r, id, cs, vs, i);
    OldRowsStay(t, t', id, cs[i], i, vs[i]);
    NewRowAt(t, t', id, cs, vs, i);
    hide Inserted;
    RowsStayOn(t, t', r);
    RowStays(t', r, t.nextChunk, t.nextChunk, id, cs, vs, i);
    AddedMore(r, t.nextChunk, id, cs, vs, i);
  }

  lemma ExtendsKeys(t: Tables, t': Tables, r: Tables, id: nat, cs: seq<Chunk>, vs: seq<Vector>, i: nat)
    requires |vs| == |cs| && i < |cs|
    requires t' == Inserted(t, id, cs[i], i, vs[i]) && Extends(t', r, id, cs, vs, i + 1)
    ensures r.documents == t.documents && r.nextDoc == t.nextDoc && r.nextChunk == t.nextChunk + |cs| - i && Numbered(r)
    ensures forall c :: c in r.chunks <==> c in t.chunks || t.nextChunk <= c < r.nextChunk
    ensures RowsStay(t', r) && RowsAdded(r, t.nextChunk + 1, id, cs, vs, i + 1)
  {
    hide RowsStay, RowsAdded, Numbered;
    assert forall c :: c in t'.chunks <==> c in t.chunks || c == t.nextChunk;
  }

  lemma NewRowAt(t: Tables, t': Tables, id: nat, cs: seq<Chunk>, vs: seq<Vector>, i: nat)
    requires |vs| == |cs| && i < |cs| && t' == Inserted(t, id, cs[i], i, vs[i])
    ensures RowAt(t', t.nextChunk, t.nextChunk, id, cs, vs, i)
  {
  }

  lemma OldRowsStay(t: Tables, t': Tables, id: nat, c: Chunk, ord: nat, v: Vector)
    requires Numbered(t) && t' == Inserted(t, id, c, ord, v)
    ensures RowsStay(t, t')
  {
    assert forall c | c in t.chunks :: c in t.vectors;
  }

  lemma RowsStayOn(t: Tables, u: Tables, r: Tables)
    requires RowsStay(t, u) && RowsStay(u, r)
    ensures RowsStay(t, r)
  {
  }

  lemma RowStays(t: Tables, r: Tables, c: nat, base: nat, id: nat, cs: seq<Chunk>, vs: seq<Vector>, i: nat)
    requires |vs| == |cs| && RowAt(t, c, base, id, cs, vs, i) && RowsStay(t, r)
    ensures RowAt(r, c, base, id, cs, vs, i)
  {
  }

  lemma AddedMore(r: Tables, base: nat, id: nat, cs: seq<Chunk>, vs: seq<Vector>, i: nat)
    requires |vs| == |cs| && i < |cs| && RowAt(r, base, base, id, cs, vs, i) && RowsAdded(r, base + 1, id, cs, vs, i + 1)
    ensures RowsAdded(r, base, id, cs, vs, i)
  {
    forall c | base < c < base + |cs| - i ensures RowAt(r, c, base, id, cs, vs, i) {
      assert RowAt(r, c, base + 1, id, cs, vs, i + 1);
    }
    hide RowAt;
  }

  /** Everything of one document is gone; everything else is as it was. */
  ghost predicate Dropped(t: Tables, r: Tables, id: nat) {
    && r.nextChunk == t.nextChunk && Numbered(r)
    && (forall c :: c in r.chunks <==> c in t.chunks && t.chunks[c].documentId != id)
    && (forall c | c in r.chunks :: r.chunks[c] == t.chunks[c] && c in t.vectors && r.vectors[c] == t.vectors[c])
  }

  lemma WithoutDrops(t: Tables, id: nat)
    requires Numbered(t)
    ensures Dropped(t, Without(t, id), id)
  {
  }

  /** A document other than the one written keeps the chunks it had. */
  lemma OthersKeepTheirs(t: Tables, r: Tables, split: string -> seq<Chunk>, p: string, id: nat)
    requires p in t.documents && p in r.documents && r.documents[p] == t.documents[p]
    requires t.documents[p].id != id && DocDerived(t, split, p)
    requires forall c | c in t.chunks && t.chunks[c].documentId != id :: c in r.chunks && r.chunks[c] == t.chunks[c]
    requires forall c | c in r.chunks && r.chunks[c].documentId != id :: c in t.chunks && r.chunks[c] == t.chunks[c]
    ensures DocDerived(r, split, p)
  {
    var row := t.documents[p];
    if row.deletedAt.None? {
      var base :| HoldsChunks(t, row.id, split(row.doc.body), base);
      assert HoldsChunks(r, row.id, split(row.doc.body), base);
    }
  }

  ghost predicate Embeds(cs: seq<Chunk>, vs: seq<Vector>, embed: string -> Vector) {
    |vs| == |cs| && forall i | 0 <= i < |cs| :: vs[i] == embed(cs[i].heading + "\n" + cs[i].content)
  }

  lemma UpsertedFacts(t: Tables, d: Doc, now: nat)
    requires Sound(t)
    ensures var up := Upserted(t, d, now);
      && Sound(up) && Dropped(t, up, DocId(t, d.path))
      && up.documents == t.documents[d.path := DocRow(DocId(t, d.path), d, now, None)]
      && forall p | p in t.documents && p != d.path :: t.documents[p].id != DocId(t, d.path)
  {
    if d.path in t.documents {
      WithoutDrops(t, t.documents[d.path].id);
    }
  }

  /** The rows of documents other than `id`, and their vectors, are the same in both. */
  ghost predicate SameElsewhere(t: Tables, r: Tables, id: nat)
    requires Numbered(t) && Numbered(r)
  {
    && (forall c | c in t.chunks && t.chunks[c].documentId != id ::
          c in r.chunks && r.chunks[c] == t.chunks[c])
    && (forall c | c in r.chunks && r.chunks[c].documentId != id ::
          c in t.chunks && r.chunks[c] == t.chunks[c] && r.vectors[c] == t.vectors[c])
  }

  /** What one write of document `id` may do to the tables besides its own rows: nothing. */
  ghost predicate Writes(t: Tables, r: Tables, path: string, row: DocRow) {
    && Sound(t) && Sound(r) && SameElsewhere(t, r, row.id)
    && r.documents == t.documents[path := row]
    && (path in t.documents ==> t.documents[path].id == row.id)
    && forall p | p in t.documents && p != path :: t.documents[p].id != row.id
  }

  /** An ingest leaves the row live with the new text, and its rows are the text's chunks, none of
      them approved, each with its own vector. */
  lemma IngestedFacts(t: Tables, d: Doc, cs: seq<Chunk>, vs: seq<Vector>, now: nat)
    requires Sound(t) && |vs| == |cs|
    ensures var r, id := Ingested(t, d, cs, vs, now), DocId(t, d.path);
      && Writes(t, r, d.path, DocRow(id, d, now, None))
      && HoldsChunks(r, id, cs, t.nextChunk)
      && forall c | c in r.chunks && r.chunks[c].documentId == id ::
           !r.chunks[c].approved && r.vectors[c] == vs[c - t.nextChunk]
  {
    hide Upserted, InsertedFrom, DocId, Dropped, Extends, HoldsChunks, Sound, SameElsewhere;
    var up, id := Upserted(t, d, now), DocId(t, d.path);
    UpsertedFacts(t, d, now);
    SoundIsNumbered(t);
    SoundIsNumbered(up);
    InsertedExtends(up, id, cs, vs, 0);
    var r := InsertedFrom(up, id, cs, vs, 0);
    DocIdIs(t, d.path);
    InsertedOwn(t, up, r, id, cs, vs);
    InsertedElsewhere(t, up, r, id, cs, vs);
    InsertedSound(up, r, d.path, id, cs, vs);
    ExtendsDocuments(up, r, id, cs, vs);
  }

  ghost predicate RowsBelowStay(t: Tables, r: Tables, n: nat) {
    && (forall c | c in t.chunks && c < n :: c in r.chunks && r.chunks[c] == t.chunks[c])
    && (forall c | c in t.vectors && c < n :: c in r.vectors && r.vectors[c] == t.vectors[c])
  }

  lemma {:induction false} InsertedRows(t: Tables, id: nat, cs: seq<Chunk>, vs: seq<Vector>, i: nat)
    requires |vs| == |cs| && i <= |cs|
    ensures var r := InsertedFrom(t, id, cs, vs, i); RowsAdded(r, t.nextChunk, id, cs, vs, i) && RowsBelowStay(t, r, t.nextChunk)
    decreases |cs| - i
  {
    if i < |cs| {
      var t' := Inserted(t, id, cs[i], i, vs[i]);
      InsertedRows(t', id, cs, vs, i + 1);
      var r := InsertedFrom(t', id, cs, vs, i + 1);
      NewRowAt(t, t', id, cs, vs, i);
      assert RowsBelowStay(t, t', t.nextChunk);
      hide Inserted, InsertedFrom, RowsAdded;
      assert RowAt(r, t.nextChunk, t.nextChunk, id, cs, vs, i);
      AddedMore(r, t.nextChunk, id, cs, vs, i);
    }
  }

  /** The rows of an ingest: under the next free numbers, each chunk's heading, text and place, not
      approved, and its vector, whatever the tables held before. */
  lemma IngestedRows(t: Tables, d: Doc, cs: seq<Chunk>, vs: seq<Vector>, now: nat)
    requires |vs| == |cs|
    ensures RowsAdded(Ingested(t, d, cs, vs, now), t.nextChunk, DocId(t, d.path), cs, vs, 0)
  {
    InsertedRows(Upserted(t, d, now), DocId(t, d.path), cs, vs, 0);
  }

  /** Whatever else is there, the document is written as it was given. */
  lemma IngestedDocument(t: Tables, d: Doc, cs: seq<Chunk>, vs: seq<Vector>, now: nat)
    requires |vs| == |cs|
    ensures Ingested(t, d, cs, vs, now).documents ==
      t.documents[d.path := DocRow(if d.path in t.documents then t.documents[d.path].id else t.nextDoc, d, now, None)]
  {
    InsertedDocuments(Upserted(t, d, now), DocId(t, d.path), cs, vs, 0);
  }

  lemma {:induction false} InsertedDocuments(t: Tables, id: nat, cs: seq<Chunk>, vs: seq<Vector>, i: nat)
    requires |vs| == |cs| && i <= |cs|
    ensures InsertedFrom(t, id, cs, vs, i).documents == t.documents
    decreases |cs| - i
  {
    if i < |cs| { InsertedDocuments(Inserted(t, id, cs[i], i, vs[i]), id, cs, vs, i + 1); }
  }

  lemma ExtendsDocuments(t: Tables, r: Tables, id: nat, cs: seq<Chunk>, vs: seq<Vector>)
    requires |vs| == |cs| && Extends(t, r, id, cs, vs, 0)
    ensures r.documents == t.documents && Numbered(r)
  {
  }

  /** Dropping a document's rows and inserting others leaves it with those. */
  lemma InsertedOwn(t: Tables, up: Tables, r: Tables, id: nat, cs: seq<Chunk>, vs: seq<Vector>)
    requires |vs| == |cs| && Dropped(t, up, id) && Extends(up, r, id, cs, vs, 0)
    ensures HoldsChunks(r, id, cs, t.nextChunk)
    ensures forall c | c in r.chunks && r.chunks[c].documentId == id ::
              t.nextChunk <= c < t.nextChunk + |cs| && !r.chunks[c].approved && c in r.vectors && r.vectors[c] == vs[c - t.nextChunk]
  {
    var base := t.nextChunk;
    forall c | base <= c < base + |cs|
      ensures c in r.chunks && r.chunks[c].documentId == id && Matches(r.chunks[c], cs[c - base], c - base)
      ensures !r.chunks[c].approved && c in r.vectors && r.vectors[c] == vs[c - base]
    {
      assert RowAt(r, c, base, id, cs, vs, 0);
    }
    forall c | c in up.chunks ensures c in r.chunks && r.chunks[c].documentId != id {
      assert r.chunks[c] == up.chunks[c] == t.chunks[c];
    }
    hide RowsAdded, Numbered, RowsStay;
  }

  lemma InsertedElsewhere(t: Tables, up: Tables, r: Tables, id: nat, cs: seq<Chunk>, vs: seq<Vector>)
    requires |vs| == |cs| && Numbered(t) && Dropped(t, up, id) && Extends(up, r, id, cs, vs, 0)
    ensures Numbered(r) && SameElsewhere(t, r, id)
  {
    forall c | c in r.chunks && c !in up.chunks ensures r.chunks[c].documentId == id {
      assert RowAt(r, c, up.nextChunk, id, cs, vs, 0);
    }
    hide RowsAdded, RowAt;
  }

  lemma InsertedSound(up: Tables, r: Tables, path: string, id: nat, cs: seq<Chunk>, vs: seq<Vector>)
    requires |vs| == |cs| && Sound(up) && path in up.documents && up.documents[path].id == id && Extends(up, r, id, cs, vs, 0)
    ensures Sound(r)
  {
    forall c | c in r.chunks ensures r.chunks[c].documentId < r.nextDoc {
      if c !in up.chunks {
        assert RowAt(r, c, up.nextChunk, id, cs, vs, 0);
      }
    }
    hide RowsAdded;
  }

  lemma DocIdIs(t: Tables, path: string)
    ensures path in t.documents ==> t.documents[path].id == DocId(t, path)
  {
  }

  lemma RemovedFacts(t: Tables, path: string, now: nat)
    requires Sound(t) && Live(t, path)
    ensures var r, row := Removed(t, path, now), t.documents[path];
      && Writes(t, r, path, row.(deletedAt := Some(now)))
      && forall c | c in r.chunks :: r.chunks[c].documentId != row.id
  {
    WithoutDrops(t, t.documents[path].id);
  }

  lemma WritesKeepOthers(t: Tables, r: Tables, path: string, row: DocRow, split: string -> seq<Chunk>)
    requires Writes(t, r, path, row) && DocsDerived(t, split)
    ensures forall p | p in r.documents && p != path :: DocDerived(r, split, p)
  {
    forall p | p in r.documents && p != path ensures DocDerived(r, split, p) {
      OthersKeepTheirs(t, r, split, p, row.id);
    }
  }

  lemma WritesKeepOwners(t: Tables, r: Tables, path: string, row: DocRow)
    requires Writes(t, r, path, row) && Owned(t)
    ensures Owned(r)
  {
    hide Sound, Numbered;
    forall c | c in r.chunks
      ensures exists p :: p in r.documents && r.documents[p].id == r.chunks[c].documentId
    {
      if r.chunks[c].documentId == row.id {
        assert r.documents[path].id == row.id;
      } else {
        var p :| p in t.documents && t.documents[p].id == t.chunks[c].documentId;
        assert p in r.documents && r.documents[p].id == r.chunks[c].documentId;
      }
    }
  }

  lemma IngestKeepsDerived(t: Tables, d: Doc, cs: seq<Chunk>, vs: seq<Vector>, now: nat,
                           split: string -> seq<Chunk>, embed: string -> Vector)
    requires Derived(t, split, embed)
    requires cs == split(d.body) && cs != [] && Embeds(cs, vs, embed)
    ensures Derived(Ingested(t, d, cs, vs, now), split, embed)
  {
    hide Ingested, Sound, SameElsewhere, HoldsChunks;
    var r, row := Ingested(t, d, cs, vs, now), DocRow(DocId(t, d.path), d, now, None);
    IngestedFacts(t, d, cs, vs, now);
    WritesKeepOthers(t, r, d.path, row, split);
    WritesKeepOwners(t, r, d.path, row);
    assert DocDerived(r, split, d.path);
    IngestEmbeds(t, r, d, cs, vs, now, embed);
  }

  lemma IngestEmbeds(t: Tables, r: Tables, d: Doc, cs: seq<Chunk>, vs: seq<Vector>, now: nat, embed: string -> Vector)
    requires Sound(t) && Embedded(t, embed) && Embeds(cs, vs, embed) && r == Ingested(t, d, cs, vs, now)
    ensures Numbered(r) && Embedded(r, embed)
  {
    hide Ingested, Sound;
    IngestedFacts(t, d, cs, vs, now);
    SoundIsNumbered(t);
    SoundIsNumbered(r);
    hide Numbered, Writes;
    forall c | c in r.chunks
      ensures c in r.vectors && r.vectors[c] == embed(r.chunks[c].heading + "\n" + r.chunks[c].content)
    {
      VectorsKept(r, c);
      if r.chunks[c].documentId == DocId(t, d.path) {
        MatchingEmbeds(r, DocId(t, d.path), cs, vs, t.nextChunk, c, embed);
      } else {
        assert c in t.chunks && r.chunks[c] == t.chunks[c] && r.vectors[c] == t.vectors[c] by { KeptElsewhere(t, r, d, now, c); }
      }
    }
  }

  lemma KeptElsewhere(t: Tables, r: Tables, d: Doc, now: nat, c: nat)
    requires var id := DocId(t, d.path); Writes(t, r, d.path, DocRow(id, d, now, None)) && c in r.chunks && r.chunks[c].documentId != id
    ensures c in t.chunks && c in t.vectors && c in r.vectors && r.chunks[c] == t.chunks[c] && r.vectors[c] == t.vectors[c]
  {
    hide DocId;
    SoundIsNumbered(t);
    SoundIsNumbered(r);
    VectorsKept(r, c);
    VectorsKept(t, c);
  }

  lemma MatchingEmbeds(r: Tables, id: nat, cs: seq<Chunk>, vs: seq<Vector>, base: nat, c: nat, embed: string -> Vector)
    requires HoldsChunks(r, id, cs, base) && Embeds(cs, vs, embed) && c in r.chunks && r.chunks[c].documentId == id
    requires c in r.vectors && base <= c < base + |cs| ==> r.vectors[c] == vs[c - base]
    ensures c in r.vectors ==> r.vectors[c] == embed(r.chunks[c].heading + "\n" + r.chunks[c].content)
  {
    assert base <= c < base + |cs| && Matches(r.chunks[c], cs[c - base], c - base);
  }

  lemma VectorsKept(r: Tables, c: nat)
    requires Numbered(r) && c in r.chunks
    ensures c in r.vectors
  {
    assert c in r.vectors.Keys;
  }

  lemma RemoveKeepsDerived(t: Tables, path: string, now: nat, split: string -> seq<Chunk>, embed: string -> Vector)
    requires Derived(t, split, embed)
    ensures Derived(Removed(t, path, now), split, embed)
  {
    if Live(t, path) {
      RemovedFacts(t, path, now);
      hide Removed, HoldsChunks;
      var r, row := Removed(t, path, now), t.documents[path].(deletedAt := Some(now));
      WritesKeepOthers(t, r, path, row, split);
      WritesKeepOwners(t, r, path, row);
    }
  }

  /** Approval changes nothing but the status, so nothing but the status may depend on it. */
  lemma ApprovedFacts(t: Tables, path: string)
    requires Sound(t)
    ensures var r := Approved(t, path);
      && r.documents == t.documents && r.vectors == t.vectors && r.chunks.Keys == t.chunks.Keys && Sound(r)
      && forall c | c in t.chunks ::
           r.chunks[c] == t.chunks[c].(approved := t.chunks[c].approved || (path in t.documents && t.chunks[c].documentId == t.documents[path].id))
  {
  }

  lemma ApproveKeepsDerived(t: Tables, path: string, split: string -> seq<Chunk>, embed: string -> Vector)
    requires Derived(t, split, embed)
    ensures Derived(Approved(t, path), split, embed)
  {
    hide Approved, Sound;
    var r := Approved(t, path);
    ApprovedFacts(t, path);
    SoundIsNumbered(r);
    SoundIsNumbered(t);
    assert DocsDerived(r, split) by { ApproveKeepsDocs(t, r, split); }
    hide DocsDerived;
    assert Embedded(r, embed);
    assert Owned(r);
  }

  lemma ApproveKeepsDocs(t: Tables, r: Tables, split: string -> seq<Chunk>)
    requires DocsDerived(t, split) && r.documents == t.documents && r.chunks.Keys == t.chunks.Keys
    requires forall c | c in t.chunks :: r.chunks[c] == t.chunks[c].(approved := r.chunks[c].approved)
    ensures DocsDerived(r, split)
  {
    forall p | p in r.documents ensures DocDerived(r, split, p) {
      var row := t.documents[p];
      assert DocDerived(t, split, p);
      if row.deletedAt.None? {
        var base :| HoldsChunks(t, row.id, split(row.doc.body), base);
        assert HoldsChunks(r, row.id, split(row.doc.body), base);
      }
    }
  }

  lemma SoundIsNumbered(t: Tables)
    requires Sound(t)
    ensures Numbered(t)
  {
  }
}
