/** Embedding a batch of texts through a cache that expires and evicts. */
module Embeddings {
  import opened TextChunks

  type Vector = seq<real>

  const MAX_WORDS := 350

  /** The text clean-up and the language model. */
  datatype Model = Model(clean: string -> string, encode: string -> Vector)

  function Passage(m: Model, chunk: string): Vector { m.encode("passage: " + chunk) }

  function Query(m: Model, chunk: string): Vector { m.encode("query: " + chunk) }

  /** What is kept of a chunk: queries and passages share their keys. */
  function Encoding(m: Model, chunk: string, isQuery: bool): Vector {
    if isQuery then Query(m, chunk) else Passage(m, chunk)
  }

  function ChunksOf(m: Model, text: string): seq<string> { ChunkText(m.clean(text), MAX_WORDS) }

  function FlatChunks(m: Model, texts: seq<string>): seq<string> {
    if texts == [] then [] else FlatChunks(m, texts[..|texts| - 1]) + ChunksOf(m, texts[|texts| - 1])
  }

  /** What a batch is meant to be: for each text, the encodings of its chunks. */
  function Simple(m: Model, texts: seq<string>): seq<seq<Vector>> {
    seq(|texts|, i requires 0 <= i < |texts| => Passages(m, ChunksOf(m, texts[i])))
  }

  function Passages(m: Model, chunks: seq<string>): seq<Vector> {
    seq(|chunks|, i requires 0 <= i < |chunks| => Passage(m, chunks[i]))
  }

  /** That is: passages of at most 350 words of the cleaned texts, each under its prefix. */
  lemma SimpleIs(m: Model, texts: seq<string>)
    ensures |Simple(m, texts)| == |texts|
    ensures forall i :: 0 <= i < |texts| ==>
              var chunks := ChunkText(m.clean(texts[i]), 350);
              |Simple(m, texts)[i]| == |chunks|
                  && forall j :: 0 <= j < |chunks| ==> Simple(m, texts)[i][j] == m.encode("passage: " + chunks[j])
  {
    hide ChunkText;
  }

  function Counts(m: Model, texts: seq<string>): seq<nat> {
    seq(|texts|, i requires 0 <= i < |texts| => |ChunksOf(m, texts[i])|)
  }

  function Sum(counts: seq<nat>): nat {
    if counts == [] then 0 else Sum(counts[..|counts| - 1]) + counts[|counts| - 1]
  }

  /** `flat` cut into runs of the given lengths. */
  function Regrouped(flat: seq<Vector>, counts: seq<nat>): seq<seq<Vector>>
    requires |flat| == Sum(counts)
    decreases |counts|
  {
    if counts == [] then []
    else
      var before := Sum(counts[..|counts| - 1]);
      Regrouped(flat[..before], counts[..|counts| - 1]) + [flat[before..]]
  }

  lemma {:induction false} FlatLength(m: Model, texts: seq<string>)
    ensures |FlatChunks(m, texts)| == Sum(Counts(m, texts))
  {
    if texts != [] {
      var n := |texts| - 1;
      FlatLength(m, texts[..n]);
      assert Counts(m, texts)[..n] == Counts(m, texts[..n]);
    }
  }

  /** Encoding flat and cutting up again is encoding text by text. */
  lemma {:induction false} RegroupsToSimple(m: Model, texts: seq<string>)
    ensures |FlatChunks(m, texts)| == Sum(Counts(m, texts))
    ensures Regrouped(Passages(m, FlatChunks(m, texts)), Counts(m, texts)) == Simple(m, texts)
  {
    FlatLength(m, texts);
    if texts != [] {
      var n := |texts| - 1;
      RegroupsToSimple(m, texts[..n]);
      var counts, flat := Counts(m, texts), Passages(m, FlatChunks(m, texts));
      assert counts[..n] == Counts(m, texts[..n]);
      assert flat[..Sum(counts[..n])] == Passages(m, FlatChunks(m, texts[..n]));
      assert flat[Sum(counts[..n])..] == Passages(m, ChunksOf(m, texts[n]));
      assert Simple(m, texts) == Simple(m, texts[..n]) + [Passages(m, ChunksOf(m, texts[n]))];
    }
  }

  /** What the batch yields when the lookups numbered in `hits` were answered from
      the cache. */
  function Answers(m: Model, chunks: seq<string>, cached: map<string, Vector>, hits: set<nat>): seq<Vector>
    requires forall i :: i in hits ==> i < |chunks| && chunks[i] in cached
  {
    seq(|chunks|, i requires 0 <= i < |chunks| => if i in hits then cached[chunks[i]] else Passage(m, chunks[i]))
  }

  ghost predicate HitsArePassages(m: Model, chunks: seq<string>, cached: map<string, Vector>, hits: set<nat>)
    requires forall i :: i in hits ==> i < |chunks| && chunks[i] in cached
  {
    forall i :: i in hits ==> cached[chunks[i]] == Passage(m, chunks[i])
  }

  lemma {:induction false} RegroupInjective(a: seq<Vector>, b: seq<Vector>, counts: seq<nat>)
    requires |a| == |b| == Sum(counts) && Regrouped(a, counts) == Regrouped(b, counts)
    ensures a == b
    decreases |counts|
  {
    if counts != [] {
      var n := |counts| - 1;
      var before := Sum(counts[..n]);
      var ra, rb := Regrouped(a[..before], counts[..n]), Regrouped(b[..before], counts[..n]);
      RegroupLength(a[..before], counts[..n]);
      RegroupLength(b[..before], counts[..n]);
      assert (ra + [a[before..]])[..n] == ra && (rb + [b[before..]])[..n] == rb;
      assert (ra + [a[before..]])[n] == a[before..] && (rb + [b[before..]])[n] == b[before..];
      RegroupInjective(a[..before], b[..before], counts[..n]);
      assert a == a[..before] + a[before..] && b == b[..before] + b[before..];
    }
  }

  lemma {:induction false} RegroupLength(a: seq<Vector>, counts: seq<nat>)
    requires |a| == Sum(counts)
    ensures |Regrouped(a, counts)| == |counts|
    decreases |counts|
  {
    if counts != [] { RegroupLength(a[..Sum(counts[..|counts| - 1])], counts[..|counts| - 1]); }
  }

  /** Whatever was hit, missed, expired or evicted: the batch is the simple map
      exactly if the hits were vectors of passages. A query's vector, kept under
      the same key, is what goes wrong. */
  lemma BatchIsSimpleIff(m: Model, texts: seq<string>, cached: map<string, Vector>, hits: set<nat>)
    requires var chunks := FlatChunks(m, texts); forall i :: i in hits ==> i < |chunks| && chunks[i] in cached
    ensures var chunks := FlatChunks(m, texts);
            && |chunks| == Sum(Counts(m, texts))
            && (Regrouped(Answers(m, chunks, cached, hits), Counts(m, texts)) == Simple(m, texts)
                <==> HitsArePassages(m, chunks, cached, hits))
  {
    hide Regrouped, Simple, FlatChunks, Counts, Passage;
    RegroupsToSimple(m, texts);
    var chunks := FlatChunks(m, texts);
    var answers, passages := Answers(m, chunks, cached, hits), Passages(m, chunks);
    if HitsArePassages(m, chunks, cached, hits) {
      assert answers == passages;
    } else {
      var i :| i in hits && cached[chunks[i]] != Passage(m, chunks[i]);
      assert answers[i] != passages[i];
      if Regrouped(answers, Counts(m, texts)) == Simple(m, texts) {
        RegroupInjective(answers, passages, Counts(m, texts));
      }
    }
  }

  // ----- Who wrote an entry -----

  datatype Write = Write(text: string, isQuery: bool)

  /** Was the last encoding of `text` that was kept one of a query? */
  function LastIsQuery(writes: seq<Write>, text: string): bool {
    if writes == [] then false
    else if writes[|writes| - 1].text == text then writes[|writes| - 1].isQuery
    else LastIsQuery(writes[..|writes| - 1], text)
  }

  ghost predicate NoStrangeQuery(m: Model, chunks: seq<string>, writes: seq<Write>, hits: set<nat>)
    requires forall i :: i in hits ==> i < |chunks|
  {
    forall i :: i in hits && LastIsQuery(writes, chunks[i]) ==> Query(m, chunks[i]) == Passage(m, chunks[i])
  }

  /** With every entry as its last write left it: the batch is the simple map
      exactly if no hit was last written by a query with a vector of its own. */
  lemma BatchIsSimpleByWrites(m: Model, texts: seq<string>, cached: map<string, Vector>, hits: set<nat>,
                              writes: seq<Write>)
    requires var chunks := FlatChunks(m, texts); forall i :: i in hits ==> i < |chunks| && chunks[i] in cached
    requires forall k :: k in cached ==> cached[k] == Encoding(m, k, LastIsQuery(writes, k))
    ensures var chunks := FlatChunks(m, texts);
            && |chunks| == Sum(Counts(m, texts))
            && (Regrouped(Answers(m, chunks, cached, hits), Counts(m, texts)) == Simple(m, texts) <==>
                 NoStrangeQuery(m, chunks, writes, hits))
  {
    hide Regrouped, Simple, FlatChunks, Counts, Passage, Query, LastIsQuery, Answers;
    BatchIsSimpleIff(m, texts, cached, hits);
  }
}
