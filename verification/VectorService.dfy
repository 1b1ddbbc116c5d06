/** The embedding cache, least recently used first, and the batch that runs on it. */
module VectorService {
  import opened Basics
  import opened Wrappers
  import opened Tables
  import opened TextChunks
  import opened Embeddings

  function Without(order: seq<string>, key: string): seq<string> {
    if order == [] then []
    else Without(order[..|order| - 1], key) + if order[|order| - 1] == key then [] else [order[|order| - 1]]
  }

  lemma {:induction false} WithoutIsOrder(order: seq<string>, key: string, keys: set<string>)
    requires IsOrderOf(order, keys)
    ensures IsOrderOf(Without(order, key), keys - {key})
  {
    hide IsOrderOf;
    if order == [] {
      EmptyOrder(keys);
    } else {
      var n := |order| - 1;
      FrontIsOrder(order, keys);
      LastIn(order, keys);
      WithoutIsOrder(order[..n], key, keys - {order[n]});
      if order[n] != key {
        LastIsOrder(Without(order[..n], key), order[n], keys - {order[n]} - {key});
        assert keys - {order[n]} - {key} + {order[n]} == keys - {key};
      } else {
        assert keys - {order[n]} - {key} == keys - {key};
        assert Without(order, key) == Without(order[..n], key);
      }
    }
  }

  /** The others stay as they follow each other. */
  lemma {:induction false} WithoutCuts(a: seq<string>, key: string, b: seq<string>)
    requires key !in a && key !in b
    ensures Without(a + [key] + b, key) == a + b
    decreases |a| + |b|
  {
    var order := a + [key] + b;
    if b != [] {
      var n := |b| - 1;
      assert order[..|order| - 1] == a + [key] + b[..n];
      WithoutCuts(a, key, b[..n]);
      assert a + b == a + b[..n] + [b[n]];
    } else {
      assert order[..|order| - 1] == a && a + b == a;
      WithoutNothing(a, key);
    }
  }

  lemma {:induction false} WithoutNothing(order: seq<string>, key: string)
    requires key !in order
    ensures Without(order, key) == order
  {
    if order != [] { WithoutNothing(order[..|order| - 1], key); }
  }

  lemma FirstIn(order: seq<string>, keys: set<string>)
    requires IsOrderOf(order, keys) && order != []
    ensures order[0] in keys
  {
  }

  lemma LastIn(order: seq<string>, keys: set<string>)
    requires IsOrderOf(order, keys) && order != []
    ensures order[|order| - 1] in keys
  {
  }

  lemma EmptyOrder(keys: set<string>)
    requires IsOrderOf([], keys)
    ensures keys == {} && forall key: string :: IsOrderOf([], keys - {key})
  {
  }

  lemma FrontIsOrder(order: seq<string>, keys: set<string>)
    requires IsOrderOf(order, keys) && order != []
    ensures IsOrderOf(order[..|order| - 1], keys - {order[|order| - 1]})
  {
    var n := |order| - 1;
    forall x ensures x in order[..n] <==> x in keys - {order[n]} {
      if x in order[..n] {
        var i :| 0 <= i < n && order[..n][i] == x;
        assert order[i] == x;
      }
      assert x in order <==> x in order[..n] || x == order[n];
    }
  }

  lemma LastIsOrder(order: seq<string>, key: string, keys: set<string>)
    requires IsOrderOf(order, keys) && key !in keys
    ensures IsOrderOf(order + [key], keys + {key})
  {
  }

  lemma TailIsOrder(order: seq<string>, keys: set<string>)
    requires IsOrderOf(order, keys) && order != []
    ensures IsOrderOf(order[1..], keys - {order[0]})
  {
    forall x ensures x in order[1..] <==> x in keys - {order[0]} {
      if x in order[1..] {
        var i :| 0 <= i < |order[1..]| && order[1..][i] == x;
        assert order[i + 1] == x;
      }
      assert x in order <==> x == order[0] || x in order[1..];
    }
  }

  lemma {:induction false} OrderSize(order: seq<string>, keys: set<string>)
    requires IsOrderOf(order, keys)
    ensures |order| == |keys|
  {
    if order == [] {
      assert keys == {};
    } else {
      FrontIsOrder(order, keys);
      OrderSize(order[..|order| - 1], keys - {order[|order| - 1]});
    }
  }

  /** The least recently used go until at most `max` are left. */
  function MostRecent(order: seq<string>, max: nat): seq<string> { order[|order| - Min(|order|, max)..] }

  /** An entry of the older format has no time. */
  type Entries = map<string, (Vector, Option<real>)>

  /** One lookup, with the clock's next reading: what it yields, and the entries
      and readings that it leaves. */
  function LookedUp(entries: Entries, readings: nat, clock: nat -> real, ttl: real, text: string):
    (Option<Vector>, Entries, nat)
  {
    if text !in entries then (None, entries, readings)
    else if entries[text].1.None? then (Some(entries[text].0), entries, readings)
    else if clock(readings) - entries[text].1.value < ttl then (Some(entries[text].0), entries, readings + 1)
    else (None, entries - {text}, readings + 1)
  }

  /** The entries and readings after lookups of all `chunks`. */
  function AfterLookups(entries: Entries, readings: nat, clock: nat -> real, ttl: real, chunks: seq<string>):
    (Entries, nat)
  {
    if chunks == [] then (entries, readings)
    else
      var (e, r) := AfterLookups(entries, readings, clock, ttl, chunks[..|chunks| - 1]);
      var (_, e', r') := LookedUp(e, r, clock, ttl, chunks[|chunks| - 1]);
      (e', r')
  }

  /** What the lookup of chunk i yields, after those before it. */
  function Lookup(entries: Entries, readings: nat, clock: nat -> real, ttl: real, chunks: seq<string>,
                  i: nat): Option<Vector>
    requires i < |chunks|
  {
    var (e, r) := AfterLookups(entries, readings, clock, ttl, chunks[..i]);
    LookedUp(e, r, clock, ttl, chunks[i]).0
  }

  class VectorService {
    const model: Model
    const embCacheTtl: real
    const maxEmbCache: nat
    /** Successive readings of the clock; nothing is asked of them. */
    const clock: nat -> real
    var readings: nat
    var entries: Entries
    var order: seq<string>
    /** Every encoding that has been kept, in order. */
    ghost var writes: seq<Write>

    constructor (model: Model, embCacheTtl: real, maxEmbCache: nat, clock: nat -> real)
      ensures Valid() && entries == map[]
      ensures this.model == model && this.embCacheTtl == embCacheTtl && this.maxEmbCache == maxEmbCache
      ensures this.clock == clock && readings == 0 && writes == []
    {
      this.model, this.embCacheTtl, this.maxEmbCache, this.clock := model, embCacheTtl, maxEmbCache, clock;
      readings, entries, order, writes := 0, map[], [], [];
    }

    ghost predicate Valid()
      reads this
    {
      IsOrderOf(order, entries.Keys) && Traced()
    }

    /** Every entry is as its last write left it. */
    ghost predicate Traced()
      reads `entries, `writes
    {
      forall k :: k in entries ==> entries[k].0 == Encoding(model, k, LastIsQuery(writes, k))
    }

    function Cached(): map<string, Vector>
      reads this
    {
      map k | k in entries :: entries[k].0
    }

    ghost predicate OnlyPassages()
      reads this
    {
      forall k :: k in entries ==> entries[k].0 == model.encode("passage: " + k)
    }

    method MoveToEnd(text: string)
      requires Valid() && text in entries
      modifies this`order
      ensures Valid() && order == Without(old(order), text) + [text]
    {
      hide IsOrderOf;
      WithoutIsOrder(order, text, entries.Keys);
      LastIsOrder(Without(order, text), text, entries.Keys - {text});
      assert entries.Keys - {text} + {text} == entries.Keys;
      order := Without(order, text) + [text];
    }

    /** A live entry is returned and becomes the most recent; a dead one goes. */
    method CacheEmbGet(text: string) returns (vec: Option<Vector>)
      requires Valid()
      modifies this`readings, this`entries, this`order
      ensures Valid()
      ensures (vec, entries, readings) == LookedUp(old(entries), old(readings), clock, embCacheTtl, text)
      ensures vec.Some? <==>
                (text in old(entries)
                 && (old(entries)[text].1.None? || clock(old(readings)) - old(entries)[text].1.value < embCacheTtl))
      ensures if vec.Some? then vec.value == old(entries)[text].0 && entries == old(entries)
              else entries == old(entries) - {text}
      ensures order == if vec.Some? then Without(old(order), text) + [text]
                       else if text in old(entries) then Without(old(order), text) else old(order)
    {
      hide IsOrderOf;
      if text in entries {
        var (cached, ts) := entries[text];
        if ts.None? {
          MoveToEnd(text);
          return Some(cached);
        }
        var now := clock(readings);
        readings := readings + 1;
        if now - ts.value < embCacheTtl {
          MoveToEnd(text);
          return Some(cached);
        }
        WithoutIsOrder(order, text, entries.Keys);
        assert (entries - {text}).Keys == entries.Keys - {text};
        entries, order := entries - {text}, Without(order, text);
      }
      return None;
    }

    /** The new entry is the most recent, so it stays unless nothing may stay. */
    method CacheEmbSet(text: string, vec: Vector, ghost isQuery: bool)
      requires Valid() && vec == Encoding(model, text, isQuery)
      modifies this`readings, this`entries, this`order, this`writes
      ensures Valid()
      ensures var all := Without(old(order), text) + [text];
              order == if |all| <= maxEmbCache then all else all[|all| - maxEmbCache..]
      ensures writes == old(writes) + [Write(text, isQuery)] && readings == old(readings) + 1
      ensures forall k :: k in entries ==>
                if k == text then entries[k] == (vec, Some(clock(old(readings))))
                    else k in old(entries) && entries[k] == old(entries)[k]
      ensures maxEmbCache > 0 ==> text in entries
    {
      hide IsOrderOf, Encoding;
      WithoutIsOrder(order, text, entries.Keys);
      LastIsOrder(Without(order, text), text, entries.Keys - {text});
      entries := entries[text := (vec, Some(clock(readings)))];
      writes := writes + [Write(text, isQuery)];
      readings := readings + 1;
      assert entries.Keys == old(entries).Keys - {text} + {text};
      order := Without(order, text) + [text];
      assert writes[..|writes| - 1] == old(writes);
      Evict();
      if maxEmbCache > 0 {
        LastIn(order, entries.Keys);
      }
    }

    method Evict()
      requires Valid()
      modifies this`entries, this`order
      ensures Valid() && order == MostRecent(old(order), maxEmbCache)
      ensures forall k :: k in entries ==> k in old(entries) && entries[k] == old(entries)[k]
    {
      hide IsOrderOf, Encoding, LastIsQuery;
      OrderSize(order, entries.Keys);
      ghost var gone := 0;
      while |entries| > maxEmbCache
        invariant IsOrderOf(order, entries.Keys) && |order| == |entries|
        invariant gone <= |old(order)| && order == old(order)[gone..] && (gone > 0 ==> |order| >= maxEmbCache)
        invariant forall k :: k in entries ==> k in old(entries) && entries[k] == old(entries)[k]
        decreases |entries|
      {
        TailIsOrder(order, entries.Keys);
        FirstIn(order, entries.Keys);
        assert (entries - {order[0]}).Keys == entries.Keys - {order[0]};
        entries, order := entries - {order[0]}, order[1..];
        gone := gone + 1;
        OrderSize(order, entries.Keys);
      }
    }

    /** One text as a query or as a passage; what is in the cache is returned
        whichever of the two it was. */
    method GetEmbedding(text: string, isQuery: bool) returns (vec: Vector)
      requires Valid()
      modifies this`readings, this`entries, this`order, this`writes
      ensures Valid()
      ensures var clean := model.clean(text);
              var (found, _, read) := LookedUp(old(entries), old(readings), clock, embCacheTtl, clean);
              && (found.Some? <==>
                    (clean in old(entries)
                     && (old(entries)[clean].1.None?
                         || clock(old(readings)) - old(entries)[clean].1.value < embCacheTtl)))
              && vec == (if found.Some? then old(entries)[clean].0
                         else if isQuery then model.encode("query: " + clean) else model.encode("passage: " + clean))
              && writes == old(writes) + (if found.Some? then [] else [Write(clean, isQuery)])
              && (found.None? && maxEmbCache > 0 ==>
                    clean in entries && entries[clean] == (vec, Some(clock(read))) && readings == read + 1)
    {
      hide Valid, Encoding;
      var clean := model.clean(text);
      var cached := CacheEmbGet(clean);
      if cached.Some? {
        return cached.value;
      }
      vec := Encode(clean, isQuery);
      CacheEmbSet(clean, vec, isQuery);
    }

    method Encode(clean: string, isQuery: bool) returns (vec: Vector)
      ensures vec == Encoding(model, clean, isQuery)
      ensures vec == model.encode((if isQuery then "query: " else "passage: ") + clean)
    {
      var prefix := if isQuery then "query: " else "passage: ";
      return model.encode(prefix + clean);
    }

    method ChunkAll(texts: seq<string>) returns (chunks: seq<string>, counts: seq<nat>)
      ensures chunks == FlatChunks(model, texts) && counts == Counts(model, texts)
    {
      chunks, counts := [], [];
      for i := 0 to |texts|
        invariant chunks == FlatChunks(model, texts[..i]) && counts == Counts(model, texts[..i])
      {
        assert texts[..i + 1][..i] == texts[..i];
        var own := ChunksOf(model, texts[i]);
        counts := counts + [|own|];
        chunks := chunks + own;
      }
      assert texts[..|texts|] == texts;
    }

    method LookUpAll(chunks: seq<string>) returns (found: seq<Option<Vector>>)
      requires Valid()
      modifies this`readings, this`entries, this`order
      ensures Valid() && |found| == |chunks|
      ensures (entries, readings) == AfterLookups(old(entries), old(readings), clock, embCacheTtl, chunks)
      ensures forall i :: 0 <= i < |chunks| ==>
                found[i] == Lookup(old(entries), old(readings), clock, embCacheTtl, chunks, i)
    {
      hide Valid, LookedUp;
      found := [];
      for i := 0 to |chunks|
        invariant Valid() && |found| == i
        invariant (entries, readings) == AfterLookups(old(entries), old(readings), clock, embCacheTtl, chunks[..i])
        invariant forall j :: 0 <= j < i ==>
                    found[j] == Lookup(old(entries), old(readings), clock, embCacheTtl, chunks, j)
      {
        var cached := CacheEmbGet(chunks[i]);
        found := found + [cached];
        assert chunks[..i + 1][..i] == chunks[..i];
      }
      assert chunks[..|chunks|] == chunks;
    }

    /** Encodes what was not found, and keeps it. */
    method ComputeMissing(chunks: seq<string>, found: seq<Option<Vector>>) returns (flat: seq<Vector>)
      requires Valid() && |found| == |chunks|
      modifies this`readings, this`entries, this`order, this`writes
      ensures Valid() && (old(OnlyPassages()) ==> OnlyPassages())
      ensures |flat| == |chunks|
      ensures forall i :: 0 <= i < |chunks| ==> flat[i] == if found[i].Some? then found[i].value
                else model.encode("passage: " + chunks[i])
    {
      hide Valid, Passage, Query;
      flat := [];
      for i := 0 to |chunks|
        invariant Valid() && (old(OnlyPassages()) ==> OnlyPassages()) && |flat| == i
        invariant forall j :: 0 <= j < i ==> flat[j] == if found[j].Some? then found[j].value
                    else model.encode("passage: " + chunks[j])
      {
        if found[i].Some? {
          flat := flat + [found[i].value];
        } else {
          var vec := Encode(chunks[i], false);
          flat := flat + [vec];
          CacheEmbSet(chunks[i], vec, false);
        }
      }
    }

    method Regroup(flat: seq<Vector>, counts: seq<nat>) returns (results: seq<seq<Vector>>)
      requires |flat| == Sum(counts)
      ensures results == Regrouped(flat, counts)
    {
      results := [];
      var offset := 0;
      assert counts[..|counts|] == counts;
      for i := 0 to |counts|
        invariant offset == Sum(counts[..i]) <= |flat|
        invariant results == Regrouped(flat[..offset], counts[..i])
      {
        SumPrefix(counts, i + 1);
        assert counts[..i + 1][..i] == counts[..i];
        assert flat[..offset + counts[i]][..offset] == flat[..offset];
        assert flat[..offset + counts[i]][offset..] == flat[offset..offset + counts[i]];
        results := results + [flat[offset..offset + counts[i]]];
        offset := offset + counts[i];
      }
      assert flat[..|flat|] == flat;
    }

    /** For every history, every clock and every size: the batch is what the cache
        has live for the lookups that hit and the model's passages for the rest;
        and it is the simple map exactly if no live hit was last written by a query
        with a vector of its own. */
    method GetEmbeddingsBatch(texts: seq<string>) returns (results: seq<seq<Vector>>, ghost hits: set<nat>)
      requires Valid()
      modifies this`readings, this`entries, this`order, this`writes
      ensures Valid() && (old(OnlyPassages()) ==> OnlyPassages())
      ensures var chunks := FlatChunks(model, texts);
              && hits == Hits(old(entries), old(readings), clock, embCacheTtl, chunks)
              && (forall i :: i in hits ==> i < |chunks| && chunks[i] in old(Cached()))
              && |chunks| == Sum(Counts(model, texts))
              && results == Regrouped(Answers(model, chunks, old(Cached()), hits), Counts(model, texts))
              && (results == Simple(model, texts) <==> NoStrangeQuery(model, chunks, old(writes), hits))
      ensures old(OnlyPassages()) ==>
                && results == Simple(model, texts) && |results| == |texts|
                && forall i :: 0 <= i < |texts| ==>
                     var chunks := ChunkText(model.clean(texts[i]), 350);
                     |results[i]| == |chunks|
                         && forall j :: 0 <= j < |chunks| ==> results[i][j] == model.encode("passage: " + chunks[j])
    {
      hide Valid, Simple, Regrouped, FlatChunks, Counts, Query, Lookup, AfterLookups, LastIsQuery,
           NoStrangeQuery;
      SimpleIs(model, texts);
      ghost var cached := Cached();
      AllTraced();
      var chunks, counts := ChunkAll(texts);
      var found := LookUpAll(chunks);
      LookupsKeep(old(entries), old(readings), clock, embCacheTtl, chunks);
      HitsWereCached(old(entries), old(readings), clock, embCacheTtl, chunks);
      var flat := ComputeMissing(chunks, found);
      hits := Hits(old(entries), old(readings), clock, embCacheTtl, chunks);
      FlatLength(model, texts);
      assert flat == Answers(model, chunks, cached, hits);
      BatchIsSimpleIff(model, texts, cached, hits);
      BatchIsSimpleByWrites(model, texts, cached, hits, old(writes));
      results := Regroup(flat, counts);
    }

    lemma AllTraced()
      requires Valid()
      ensures forall k :: k in Cached() ==> Cached()[k] == Encoding(model, k, LastIsQuery(writes, k))
    {
      hide Encoding, LastIsQuery;
    }
  }

  /** It goes wrong: a search for a text, and then the same text in a batch, which
      is given the query's vector. */
  method QueryThenBatch(model: Model, text: string, ttl: real, max: nat, clock: nat -> real)
    returns (results: seq<seq<Vector>>)
    requires ChunksOf(model, text) == [model.clean(text)] && max > 0 && clock(1) - clock(0) < ttl
    ensures results == [[model.encode("query: " + model.clean(text))]]
    ensures model.encode("query: " + model.clean(text)) != model.encode("passage: " + model.clean(text)) ==>
              results != Simple(model, [text])
  {
    hide ChunksOf;
    var service := new VectorService(model, ttl, max, clock);
    var vec := service.GetEmbedding(text, true);
    OneText(model, text);
    ghost var entries, cached, hits := service.entries, service.Cached(), {};
    results, hits := service.GetEmbeddingsBatch([text]);
    QueryIsHit(model, text, ttl, clock, entries, cached, hits);
  }

  lemma QueryIsHit(model: Model, text: string, ttl: real, clock: nat -> real, entries: Entries,
                   cached: map<string, Vector>, hits: set<nat>)
    requires clock(1) - clock(0) < ttl && ChunksOf(model, text) == [model.clean(text)]
    requires var clean := model.clean(text);
             && clean in entries && entries[clean] == (Query(model, clean), Some(clock(0)))
             && clean in cached && cached[clean] == Query(model, clean)
             && hits == Hits(entries, 1, clock, ttl, [clean]) && forall i :: i in hits ==> i < 1
    ensures var clean := model.clean(text);
            Sum([1]) == 1 && Regrouped(Answers(model, [clean], cached, hits), [1]) == [[Query(model, clean)]]
  {
    hide ChunksOf, Query, Passage, Lookup;
    var clean := model.clean(text);
    FirstLookup(entries, 1, clock, ttl, clean);
    assert Lookup(entries, 1, clock, ttl, [clean], 0).Some?;
    assert 0 in hits;
    assert Answers(model, [clean], cached, hits) == [Query(model, clean)];
    OneRun([Query(model, clean)]);
  }

  lemma OneText(m: Model, text: string)
    requires ChunksOf(m, text) == [m.clean(text)]
    ensures FlatChunks(m, [text]) == [m.clean(text)] && Counts(m, [text]) == [1]
    ensures Simple(m, [text]) == [[Passage(m, m.clean(text))]]
  {
    hide ChunksOf, Passage;
    assert FlatChunks(m, [text]) == FlatChunks(m, []) + ChunksOf(m, text);
    assert Passages(m, [m.clean(text)]) == [Passage(m, m.clean(text))];
  }

  lemma FirstLookup(entries: Entries, readings: nat, clock: nat -> real, ttl: real, text: string)
    ensures Lookup(entries, readings, clock, ttl, [text], 0) == LookedUp(entries, readings, clock, ttl, text).0
  {
    assert [text][..0] == [];
  }

  lemma OneRun(flat: seq<Vector>)
    requires |flat| == 1
    ensures Sum([1]) == 1 && Regrouped(flat, [1]) == [flat]
  {
    assert [1][..0] == [];
    assert Sum([]) == 0 && flat[0..] == flat;
    assert Regrouped(flat[..0], []) == [];
  }

  /** The lookups that find a live entry. */
  function Hits(entries: Entries, readings: nat, clock: nat -> real, ttl: real, chunks: seq<string>): set<nat> {
    set i: nat | i < |chunks| && Lookup(entries, readings, clock, ttl, chunks, i).Some?
  }

  /** Lookups only ever remove entries. */
  lemma {:induction false} LookupsKeep(entries: Entries, readings: nat, clock: nat -> real, ttl: real,
                                       chunks: seq<string>)
    ensures var after := AfterLookups(entries, readings, clock, ttl, chunks).0;
            forall k :: k in after ==> k in entries && after[k] == entries[k]
  {
    if chunks != [] { LookupsKeep(entries, readings, clock, ttl, chunks[..|chunks| - 1]); }
  }

  lemma HitsWereCached(entries: Entries, readings: nat, clock: nat -> real, ttl: real, chunks: seq<string>)
    ensures forall i :: i in Hits(entries, readings, clock, ttl, chunks) ==>
              i < |chunks| && chunks[i] in entries
                  && Lookup(entries, readings, clock, ttl, chunks, i) == Some(entries[chunks[i]].0)
  {
    forall i | i in Hits(entries, readings, clock, ttl, chunks)
      ensures i < |chunks| && chunks[i] in entries
      ensures Lookup(entries, readings, clock, ttl, chunks, i) == Some(entries[chunks[i]].0)
    {
      LookupsKeep(entries, readings, clock, ttl, chunks[..i]);
    }
  }

  lemma {:induction false} SumPrefix(counts: seq<nat>, i: nat)
    requires i <= |counts|
    ensures Sum(counts[..i]) <= Sum(counts)
    decreases |counts| - i
  {
    if i == |counts| {
      assert counts[..i] == counts;
    } else {
      SumPrefix(counts, i + 1);
      assert counts[..i + 1][..i] == counts[..i];
    }
  }
}
