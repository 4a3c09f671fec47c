/** Bringing a document in (internal/rag/rag.go): split, embed in batches, and only then write. */
module Ingest {
  import opened Text
  import opened Chunking
  import opened Corpus

  const BATCH: nat := 64

  datatype Outcome = Done(n: nat) | Failed

  /** The embedding service. It may fail, or answer with the wrong number of vectors; what it does
      answer for a text is the vector of that text. */
  class Provider {
    const embedding: string -> Vector

    constructor (embedding: string -> Vector)
      ensures this.embedding == embedding
    {
      this.embedding := embedding;
    }

    method Embed(inputs: seq<string>) returns (r: Option<seq<Vector>>)
      ensures r.Some? && |r.value| == |inputs| ==>
        forall i | 0 <= i < |inputs| :: r.value[i] == embedding(inputs[i])
    {
      if * {
        return None;
      }
      var vectors := seq(|inputs|, i requires 0 <= i < |inputs| => embedding(inputs[i]));
      if * {
        return Some(vectors + vectors);
      }
      return Some(vectors);
    }
  }

  function VectorsFor(cs: seq<Chunk>, embedding: string -> Vector): (vs: seq<Vector>)
    ensures Embeds(cs, vs, embedding)
  {
    seq(|cs|, i requires 0 <= i < |cs| => embedding(cs[i].heading + "\n" + cs[i].content))
  }

  /** The document is there, with this text, and from number `base` on so are its chunks, in order and not
      approved, each with the vector of its heading and text. */
  ghost predicate IsThere(t: Tables, base: nat, d: Doc, cs: seq<Chunk>, embedding: string -> Vector) {
    && d.path in t.documents && t.documents[d.path].doc == d && t.documents[d.path].deletedAt.None?
    && forall i | 0 <= i < |cs| ::
         RowIs(t, base + i, ChunkRow(t.documents[d.path].id, cs[i].heading, cs[i].content, i, false),
               embedding(cs[i].heading + "\n" + cs[i].content))
  }

  predicate RowIs(t: Tables, c: nat, row: ChunkRow, v: Vector) {
    c in t.chunks && t.chunks[c] == row && c in t.vectors && t.vectors[c] == v
  }

  lemma IngestedIsThere(t: Tables, d: Doc, cs: seq<Chunk>, vs: seq<Vector>, now: nat, embedding: string -> Vector)
    requires |vs| == |cs| && forall i | 0 <= i < |cs| :: vs[i] == embedding(cs[i].heading + "\n" + cs[i].content)
    ensures IsThere(Ingested(t, d, cs, vs, now), t.nextChunk, d, cs, embedding)
  {
    IngestedDocument(t, d, cs, vs, now);
    var r := Ingested(t, d, cs, vs, now);
    assert d.path in r.documents && r.documents[d.path].id == DocId(t, d.path);
    hide Ingested, DocId, RowIs;
    forall i | 0 <= i < |cs| ensures
      RowIs(r, t.nextChunk + i, ChunkRow(r.documents[d.path].id, cs[i].heading, cs[i].content, i, false),
            embedding(cs[i].heading + "\n" + cs[i].content))
    {
      IngestedRow(t, d, cs, vs, now, i);
    }
  }

  lemma IngestedRow(t: Tables, d: Doc, cs: seq<Chunk>, vs: seq<Vector>, now: nat, i: nat)
    requires |vs| == |cs| && i < |cs|
    ensures RowIs(Ingested(t, d, cs, vs, now), t.nextChunk + i, ChunkRow(DocId(t, d.path), cs[i].heading, cs[i].content, i, false), vs[i])
  {
    hide Ingested, DocId;
    IngestedRows(t, d, cs, vs, now);
    assert RowAt(Ingested(t, d, cs, vs, now), t.nextChunk + i, t.nextChunk, DocId(t, d.path), cs, vs, 0);
  }

  class Ingester {
    const store: Store
    const ai: Provider
    const clean: string -> string

    constructor (store: Store, ai: Provider, clean: string -> string)
      ensures this.store == store && this.ai == ai && this.clean == clean
    {
      this.store, this.ai, this.clean := store, ai, clean;
    }

    /** All or nothing: a document with no chunks, or whose embedding fails at any batch, leaves the
        tables as they were; otherwise the row and every chunk are there, each with the vector of
        its own text, whichever batch it was embedded in. */
    method Ingest(d: Doc) returns (r: Outcome)
      modifies store
      ensures var cs := Chunks(Split(clean(d.body), "\n"));
        && (cs == [] ==> r == Done(0))
        && (r == Failed || cs == [] ==> store.State() == old(store.State()) && store.clock == old(store.clock))
        && (r != Failed && cs != [] ==>
              && r == Done(|cs|)
              && store.State() == Ingested(old(store.State()), d, cs, VectorsFor(cs, ai.embedding), old(store.clock))
              && store.clock == old(store.clock) + 1
              && IsThere(store.State(), old(store.nextChunk), d, cs, ai.embedding))
    {
      hide InsertedFrom, Upserted, DocId, Chunks, IsThere;
      var chunks := SplitMarkdown(Split(clean(d.body), "\n"));
      if |chunks| == 0 {
        return Done(0);
      }
      var vectors := EmbedAll(chunks);
      if vectors.None? {
        return Failed;
      }
      assert vectors.value == VectorsFor(chunks, ai.embedding);
      IngestedIsThere(store.State(), d, chunks, vectors.value, store.clock, ai.embedding);
      var docId := store.UpsertDocument(d);
      ghost var all := InsertedFrom(store.State(), docId, chunks, vectors.value, 0);
      for i := 0 to |chunks|
        invariant InsertedFrom(store.State(), docId, chunks, vectors.value, i) == all
        invariant store.clock == old(store.clock) + 1
      {
        InsertedStep(store.State(), docId, chunks, vectors.value, i);
        store.InsertChunk(docId, chunks[i], i, vectors.value[i]);
      }
      InsertedEnd(store.State(), docId, chunks, vectors.value);
      return Done(|chunks|);
    }

    method EmbedAll(chunks: seq<Chunk>) returns (r: Option<seq<Vector>>)
      ensures r.Some? ==> |r.value| == |chunks|
      ensures r.Some? ==> forall i | 0 <= i < |chunks| :: r.value[i] == ai.embedding(chunks[i].heading + "\n" + chunks[i].content)
    {
      var vectors: seq<Vector> := [];
      var i := 0;
      while i < |chunks|
        invariant 0 <= i <= |chunks|
        invariant Embeds(chunks[..i], vectors, ai.embedding)
        decreases |chunks| - i
      {
        var end := if i + BATCH < |chunks| then i + BATCH else |chunks|;
        var inputs: seq<string> := [];
        for j := i to end
          invariant |inputs| == j - i
          invariant forall k | 0 <= k < j - i :: inputs[k] == chunks[i + k].heading + "\n" + chunks[i + k].content
        {
          inputs := inputs + [chunks[j].heading + "\n" + chunks[j].content];
        }
        var vecs := ai.Embed(inputs);
        if vecs.None? || |vecs.value| != |inputs| {
          return None;
        }
        vectors := vectors + vecs.value;
        i := end;
      }
      assert chunks[..|chunks|] == chunks;
      return Some(vectors);
    }
  }

  lemma InsertedStep(t: Tables, id: nat, cs: seq<Chunk>, vs: seq<Vector>, i: nat)
    requires |vs| == |cs| && i < |cs|
    ensures InsertedFrom(t, id, cs, vs, i) == InsertedFrom(Inserted(t, id, cs[i], i, vs[i]), id, cs, vs, i + 1)
  {
  }

  lemma InsertedEnd(t: Tables, id: nat, cs: seq<Chunk>, vs: seq<Vector>)
    requires |vs| == |cs|
    ensures InsertedFrom(t, id, cs, vs, |cs|) == t
  {
  }
}
