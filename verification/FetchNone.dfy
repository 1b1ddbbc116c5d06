/** When a caller is told that there is nothing: how failures are counted, and
    when an answer of "none" comes after everything has been tried. */
module FetchNone {
  import opened Basics
  import opened Wrappers
  import opened ErasureCoding
  import opened FetchProtocol
  import opened FetchSafety
  import opened FetchRuns

  function Outstanding(n: Node, h: Hash): set<RequestId> {
    set r | r in n.requests && n.requests[r].0 == h
  }

  ghost predicate Collecting(n: Node, h: Hash) { h in n.active && n.active[h].manifest.Some? }

  /** Answers in and answers still to come. */
  function Accounted(n: Node, h: Hash): nat
    requires h in n.active
  {
    n.active[h].received + n.active[h].failed + |Outstanding(n, h)|
  }

  ghost predicate TellsNone(n: Node, e: Event, h: Hash)
    requires WellFormed(n)
  {
    Step(n, e).replies == n.replies + [(h, None)]
  }

  // ----- Requests -----

  lemma OutstandingWithout(n: Node, r: RequestId)
    requires r in n.requests
    ensures forall h :: Outstanding(n.(requests := n.requests - {r}), h)
                     == if h == n.requests[r].0 then Outstanding(n, h) - {r} else Outstanding(n, h)
    ensures r in Outstanding(n, n.requests[r].0)
  {
  }

  lemma OutstandingByRequests(n: Node, n': Node, h: Hash)
    requires n'.requests == n.requests
    ensures Outstanding(n', h) == Outstanding(n, h)
  {
  }

  lemma OutstandingWith(n: Node, h: Hash, sent: map<RequestId, nat>)
    requires sent.Keys !! n.requests.Keys
    ensures forall g :: Outstanding(WithRequests(n, h, sent), g)
                     == if g == h then Outstanding(n, g) + sent.Keys else Outstanding(n, g)
  {
  }

  lemma AskedAreNew(n: Node, m: Manifest, exempt: set<nat>, sent: map<RequestId, nat>)
    requires AsksFor(n, m, exempt, sent)
    ensures sent.Keys !! n.requests.Keys
  {
  }

  // ----- One event of a collecting fetch -----

  /** The fetch is over, or nothing has been added to what is accounted for. */
  ghost predicate NoneAdded(n: Node, n': Node, h: Hash)
    requires h in n.active
  {
    h in n'.active ==>
      Collecting(n', h) && Accounted(n', h) <= Accounted(n, h) && Outstanding(n', h) <= Outstanding(n, h)
  }

  lemma ShardAddsNone(n: Node, r: RequestId, data: Bytes, h: Hash)
    requires WellFormed(n) && Collecting(n, h)
    ensures NoneAdded(n, ShardArrives(n, r, data), h) && NoneAdded(n, ShardFails(n, r), h)
  {
    hide Decoded, Outstanding;
    if r in n.requests {
      OutstandingWithout(n, r);
      var n0 := n.(requests := n.requests - {r});
      OutstandingByRequests(n0, ShardArrives(n, r, data), h);
      OutstandingByRequests(n0, ShardFails(n, r), h);
    }
  }

  lemma DownloadAddsNone(n: Node, e: Event, h: Hash)
    requires WellFormed(n) && e.Downloads? && e.hash != h && Enabled(n, e) && Collecting(n, h)
    ensures NoneAdded(n, Step(n, e), h)
  {
    hide Count, Decoded, LocalShards, AsksFor, WithRequests, Outstanding, HeldLocally;
    var n' := Step(n, e);
    if e.local.manifest.Some? {
      var n1 := WithRequests(n, e.hash, e.sent);
      WithRequestsKeeps(n, e.hash, e.sent);
      AskedAreNew(n, e.local.manifest.value, HeldLocally(e.local.manifest.value, e.self), e.sent);
      OutstandingWith(n, e.hash, e.sent);
      OutstandingByRequests(n1, n', h);
    } else {
      OutstandingByRequests(n, n', h);
    }
  }

  /** The node when it has taken a manifest in and not yet asked for shards. */
  function WithManifest(n: Node, q: QueryId, m: Manifest): Node
    requires q in n.queries
  {
    var h, n1 := n.queries[q], n.(queries := n.queries - {q});
    if h in n1.active
    then n1.(active := n1.active[h := n1.active[h].(manifest := Some(m), originalSize := m.size)])
    else n1
  }

  lemma ManifestAsks(n: Node, q: QueryId, m: Manifest, sent: map<RequestId, nat>)
    requires q in n.queries && Enabled(n, ManifestComes(q, Some(m), sent))
    ensures var h, n' := n.queries[q], ManifestArrives(n, q, Some(m), sent);
            && n' == WithRequests(WithManifest(n, q, m), h, sent) && n'.active == WithManifest(n, q, m).active
            && Outstanding(n', h) == Outstanding(n, h) + sent.Keys && Outstanding(n, h) !! sent.Keys
            && forall g :: g != h ==> Outstanding(n', g) == Outstanding(n, g)
  {
    hide Outstanding, AsksFor, WithRequests;
    var n2 := WithManifest(n, q, m);
    forall g { OutstandingByRequests(n, n2, g); }
    AskedAreNew(n, m, {}, sent);
    OutstandingWith(n2, n.queries[q], sent);
    WithRequestsKeeps(n2, n.queries[q], sent);
    OutstandingOld(n, n.queries[q]);
  }

  lemma OutstandingOld(n: Node, h: Hash)
    ensures Outstanding(n, h) <= n.requests.Keys
  {
  }

  lemma ManifestAddsNone(n: Node, q: QueryId, m: Option<Manifest>, sent: map<RequestId, nat>, h: Hash)
    requires q in n.queries && n.queries[q] != h && Collecting(n, h) && Enabled(n, ManifestComes(q, m, sent))
    ensures NoneAdded(n, ManifestArrives(n, q, m, sent), h) && NoneAdded(n, ManifestMissing(n, q), h)
  {
    hide Outstanding, WithRequests, AsksFor;
    OutstandingByRequests(n, ManifestMissing(n, q), h);
    if m.Some? {
      ManifestAsks(n, q, m.value, sent);
    } else {
      OutstandingByRequests(n, ManifestArrives(n, q, m, sent), h);
    }
  }

  lemma Unknown(n: Node, q: QueryId, m: Option<Manifest>, sent: map<RequestId, nat>)
    requires q !in n.queries
    ensures ManifestArrives(n, q, m, sent) == n && ManifestMissing(n, q) == n
  {
  }

  lemma CollectingAddsNone(w: World, n: Node, e: Event, h: Hash)
    requires QueriesSound(n) && Admits(OneAtATime(w), n, e) && Collecting(n, h)
    ensures NoneAdded(n, Step(n, e), h) && !IsDownload(e, h)
  {
    hide Outstanding, AsksFor, ShardArrives, ShardFails, Download, ManifestArrives, ManifestMissing, Genuine, NoneAdded,
         WellFormed;
    match e
    case Downloads(_, _, _, _, _) => DownloadAddsNone(n, e, h);
    case ManifestComes(q, m, sent) =>
      if q in n.queries { ManifestAddsNone(n, q, m, sent, h); } else { Unknown(n, q, m, sent); SameAddsNone(n, h); }
    case NoManifest(q) =>
      if q in n.queries {
        ManifestAddsNone(n, q, None, map[], h);
      } else {
        Unknown(n, q, None, map[]);
        SameAddsNone(n, h);
      }
    case ShardComes(r, data) => ShardAddsNone(n, r, data, h);
    case ShardLost(r) => ShardAddsNone(n, r, [], h);
  }

  lemma SameAddsNone(n: Node, h: Hash)
    requires Collecting(n, h)
    ensures NoneAdded(n, n, h)
  {
  }

  /** "None" is told of a collecting fetch by one failure among at least 45 answers. */
  lemma WhoTellsNone(w: World, n: Node, e: Event, h: Hash)
    requires NodeSound(w, n) && QueriesSound(n) && Admits(OneAtATime(w), n, e) && Collecting(n, h) && TellsNone(n, e, h)
    ensures e.ShardLost? && e.request in Outstanding(n, h) && h !in Step(n, e).active
    ensures n.active[h].received + n.active[h].failed + 1 >= TOTAL_SHARDS
    ensures Outstanding(Step(n, e), h) == Outstanding(n, h) - {e.request}
  {
    hide NodeSound, Genuine, Outstanding, Decoded, AsksFor, WithRequests, NotInFlight, ShardArrives, ManifestArrives,
         ManifestMissing, Download;
    var told := n.replies + [(h, None)];
    assert told != n.replies && told[|n.replies|] == (h, None);
    if e.ShardLost? {
      assert forall g :: (n.replies + [(g, None)])[|n.replies|] == (g, None);
      if e.request in n.requests {
        OutstandingWithout(n, e.request);
        OutstandingByRequests(n.(requests := n.requests - {e.request}), Step(n, e), h);
      }
    } else {
      OthersNeverTellNone(w, n, e, h);
    }
  }

  lemma OthersNeverTellNone(w: World, n: Node, e: Event, h: Hash)
    requires NodeSound(w, n) && QueriesSound(n) && Admits(OneAtATime(w), n, e) && Collecting(n, h) && !e.ShardLost?
    ensures !TellsNone(n, e, h)
  {
    hide Decoded, AsksFor, WithRequests, Enabled, NodeSound, Genuine, LocalShards, LengthKnown, ShardArrives;
    assert forall g, a :: (n.replies + [(g, a)])[|n.replies|] == (g, a);
    match e
    case Downloads(g, _, local, _, sent) => if local.manifest.Some? { WithRequestsKeeps(n, g, sent); }
    case ManifestComes(q, m, sent) =>
      if q in n.queries {
        ManifestSpends(n, q, m, sent, h);
      } else {
        Unknown(n, q, m, sent);
      }
    case NoManifest(q) =>
    case ShardComes(r, data) => ShardNeverTellsNone(w, n, r, data, h);
  }

  lemma ShardNeverTellsNone(w: World, n: Node, r: RequestId, data: Bytes, h: Hash)
    requires NodeSound(w, n) && Genuine(w, n, ShardComes(r, data)) && WellFormed(n)
    ensures ShardArrives(n, r, data).replies != n.replies + [(h, None)]
  {
    hide NodeSound, FetchSound, Decoded, AcceptShard;
    assert forall g, a :: (n.replies + [(g, a)])[|n.replies|] == (g, a);
    assert n.replies + [(h, None)] != n.replies;
    if r in n.requests {
      var (g, index) := n.requests[r];
      var n0 := n.(requests := n.requests - {r});
      if g in n.active && n.active[g].shards[index].None? {
        SoundFetch(w, n, g);
        FetchBound(w, g, n.active[g]);
        AcceptSound(w, n, n0, g, index, data);
      } else {
        AcceptNothing(n0, g, index, data);
      }
    }
  }

  lemma FetchBound(w: World, h: Hash, f: Fetch)
    requires FetchSound(w, h, f)
    ensures f.received < DATA_SHARDS && f.received == |Filled(f.shards)|
  {
    hide Count;
    CountFilled(f.shards);
  }

  lemma AcceptNothing(n: Node, h: Hash, index: nat, data: Bytes)
    requires WellFormed(n) && index < TOTAL_SHARDS && (h in n.active ==> n.active[h].shards[index].Some?)
    ensures AcceptShard(n, h, index, data) == n
  {
  }

  // ----- Runs -----

  lemma {:induction false} ClosedStays(w: World, n: Node, es: seq<Event>, last: Node, h: Hash)
    requires Path(OneAtATime(w), n, es, last) && NoDownloadOf(es, h) && h !in n.active
    ensures h !in last.active
    decreases |es|
  {
    hide Step, Enabled, Genuine, NotInFlight;
    if es != [] {
      if h in Step(n, es[0]).active { StillActive(w, n, es[0], h); }
      ClosedStays(w, Step(n, es[0]), es[1..], last, h);
    }
  }

  lemma {:induction false} CollectingPath(w: World, n: Node, es: seq<Event>, last: Node, h: Hash)
    requires Path(OneAtATime(w), n, es, last) && NoDownloadOf(es, h) && QueriesSound(n) && Collecting(n, h)
    ensures NoneAdded(n, last, h)
    decreases |es|
  {
    hide Step, Enabled, Genuine, NotInFlight, QueriesSound, Outstanding;
    if es != [] {
      var n1 := Step(n, es[0]);
      CollectingAddsNone(w, n, es[0], h);
      StepKeepsQueries(w, n, es[0]);
      if h in n1.active { CollectingPath(w, n1, es[1..], last, h); } else { ClosedStays(w, n1, es[1..], last, h); }
    }
  }

  /** Events after `n`, none of them a new download of `h`, at the end of which
      the caller of a collecting fetch is told that there is nothing. */
  ghost predicate EndsInNone(w: World, n: Node, h: Hash, es: seq<Event>, last: Node, e: Event) {
    && Path(OneAtATime(w), n, es, last) && NoDownloadOf(es, h)
    && Admits(OneAtATime(w), last, e) && Collecting(last, h) && TellsNone(last, e, h)
  }

  /** Whatever comes, "none" is told only with nothing more to come. */
  ghost predicate NonesComplete(w: World, n: Node, h: Hash) {
    forall es, last, e :: EndsInNone(w, n, h, es, last, e) ==> Outstanding(Step(last, e), h) == {}
  }

  lemma NoneComplete(w: World, n: Node, h: Hash, es: seq<Event>, last: Node, e: Event)
    requires NodeSound(w, n) && QueriesSound(n) && Collecting(n, h) && EndsInNone(w, n, h, es, last, e)
    requires Accounted(n, h) <= TOTAL_SHARDS || |Outstanding(n, h)| <= 1
    ensures Outstanding(Step(last, e), h) == {}
  {
    hide Step, Enabled, Genuine, NotInFlight, QueriesSound, Outstanding, NodeSound, Path, TellsNone;
    CollectingPath(w, n, es, last, h);
    PathKeepsSound(OneAtATime(w), n, es, last);
    PathKeepsQueries(w, n, es, last);
    WhoTellsNone(w, last, e, h);
    SubsetSize(Outstanding(last, h), Outstanding(n, h));
    OneLess(Outstanding(last, h), e.request);
  }

  lemma OneLess(s: set<RequestId>, r: RequestId)
    requires r in s
    ensures |s - {r}| == |s| - 1 && (|s| <= 1 ==> s - {r} == {})
  {
    assert |s| <= 1 ==> |s - {r}| == 0;
  }

  lemma FailOne(n: Node, r: RequestId, h: Hash)
    requires WellFormed(n) && Collecting(n, h) && r in Outstanding(n, h) && n.active[h].pending
    ensures var n', f := ShardFails(n, r), n.active[h];
            if f.failed + f.received + 1 >= TOTAL_SHARDS
            then n'.replies == n.replies + [(h, None)] && Outstanding(n', h) == Outstanding(n, h) - {r}
            else Collecting(n', h) && Accounted(n', h) == Accounted(n, h)
                 && |Outstanding(n', h)| == |Outstanding(n, h)| - 1
                 && n'.active[h] == f.(failed := f.failed + 1)
  {
    OutstandingWithout(n, r);
    OutstandingByRequests(n.(requests := n.requests - {r}), ShardFails(n, r), h);
    OneLess(Outstanding(n, h), r);
  }

  /** Failure after failure, with more awaited than are needed to give up. */
  lemma {:induction false} FailsTooSoon(w: World, n: Node, h: Hash) returns (es: seq<Event>, last: Node, e: Event)
    requires NodeSound(w, n) && QueriesSound(n) && Collecting(n, h)
    requires Accounted(n, h) > TOTAL_SHARDS && |Outstanding(n, h)| > 1
    ensures EndsInNone(w, n, h, es, last, e) && Outstanding(Step(last, e), h) != {}
    decreases |Outstanding(n, h)|
  {
    hide NodeSound, QueriesSound, Outstanding, FetchSound;
    SoundIsWellFormed(w, n);
    SoundFetch(w, n, h);
    Pending(w, h, n.active[h]);
    var r :| r in Outstanding(n, h);
    e := ShardLost(r);
    FailOne(n, r, h);
    OneLess(Outstanding(n, h), r);
    if n.active[h].failed + n.active[h].received + 1 >= TOTAL_SHARDS {
      es, last := [], n;
    } else {
      StepKeepsSound(w, n, e);
      StepKeepsQueries(w, n, e);
      var first, rest := e, [];
      rest, last, e := FailsTooSoon(w, Step(n, first), h);
      es := [first] + rest;
      Prepended(w, n, h, first, rest, last, e);
    }
  }

  lemma Pending(w: World, h: Hash, f: Fetch)
    requires FetchSound(w, h, f)
    ensures f.pending
  {
  }

  lemma Prepended(w: World, n: Node, h: Hash, first: Event, rest: seq<Event>, last: Node, e: Event)
    requires Admits(OneAtATime(w), n, first) && !IsDownload(first, h) && EndsInNone(w, Step(n, first), h, rest, last, e)
    ensures EndsInNone(w, n, h, [first] + rest, last, e)
  {
    hide Step, Enabled, Genuine, NotInFlight, TellsNone;
    var es := [first] + rest;
    assert es[0] == first && es[1..] == rest && forall x :: x in es ==> x == first || x in rest;
  }

  /** From the moment that a fetch has its manifest: whatever comes, "none" is told
      only with nothing more to come, exactly if no more answers are in or awaited
      than there are shards (or at most one is awaited). */
  lemma NonesCompleteIff(w: World, n: Node, h: Hash)
    requires NodeSound(w, n) && QueriesSound(n) && Collecting(n, h)
    ensures NonesComplete(w, n, h) <==> Accounted(n, h) <= TOTAL_SHARDS || |Outstanding(n, h)| <= 1
  {
    hide NodeSound, QueriesSound, Outstanding, Accounted;
    if Accounted(n, h) <= TOTAL_SHARDS || |Outstanding(n, h)| <= 1 {
      forall es, last, e | EndsInNone(w, n, h, es, last, e) ensures Outstanding(Step(last, e), h) == {} {
        NoneComplete(w, n, h, es, last, e);
      }
    } else {
      var es, last, e := FailsTooSoon(w, n, h);
    }
  }

  // ----- When a new download of a file will answer right -----

  lemma {:induction false} Above(keys: set<nat>) returns (bound: nat)
    ensures forall k :: k in keys ==> k < bound
    decreases |keys|
  {
    if keys == {} {
      bound := 0;
    } else {
      var k :| k in keys;
      var b := Above(keys - {k});
      bound := if k < b then b else k + 1;
      assert keys == keys - {k} + {k};
    }
  }

  /** One request for each of `k` shards, numbered from `base` on. */
  function Numbered(base: nat, k: nat): map<RequestId, nat> {
    map r | r in NatRange(base, k) :: r - base
  }

  function SomeManifest(h: Hash, size: nat, k: nat): Manifest {
    Manifest(h, size, map i | i in FirstNats(k) :: "peer")
  }

  lemma NumberedFacts(base: nat, h: Hash, size: nat, k: nat)
    ensures forall r: nat :: r in Numbered(base, k) <==> base <= r < base + k
    ensures forall r: nat :: base <= r < base + k ==> Numbered(base, k)[r] == r - base
    ensures |Numbered(base, k).Keys| == k
    ensures forall i: nat :: i in SomeManifest(h, size, k).shards <==> i < k
    ensures SomeManifest(h, size, k).size == size
  {
    assert Numbered(base, k).Keys == NatRange(base, k);
  }

  lemma NumberedAsks(n: Node, h: Hash, size: nat, base: nat, k: nat)
    requires k <= TOTAL_SHARDS && forall r :: r in n.requests ==> r < base
    ensures AsksFor(n, SomeManifest(h, size, k), {}, Numbered(base, k))
  {
    hide Numbered, SomeManifest;
    NumberedFacts(base, h, size, k);
    var sent, m := Numbered(base, k), SomeManifest(h, size, k);
    forall i | i in m.shards.Keys - {} ensures exists r :: r in sent && sent[r] == i {
      assert base + i in sent && sent[base + i] == i;
    }
  }

  /** The network brings a manifest, as it may at any time. */
  lemma ManifestMayCome(w: World, n: Node, q: QueryId) returns (e: Event)
    requires NodeSound(w, n) && QueriesSound(n) && q in n.queries && Uploaded(w, n.queries[q])
               && n.queries[q] in n.active
    ensures Admits(OneAtATime(w), n, e) && e.ManifestComes? && Collecting(Step(n, e), n.queries[q])
    ensures Accounted(Step(n, e), n.queries[q]) == Accounted(n, n.queries[q]) + TOTAL_SHARDS
    ensures |Outstanding(Step(n, e), n.queries[q])| >= TOTAL_SHARDS
  {
    hide FetchSound, Outstanding, AsksFor, Numbered, SomeManifest, QueriesSound, GenuineManifest, WithRequests;
    var h, k: nat := n.queries[q], TOTAL_SHARDS;
    var base := Above(n.requests.Keys);
    var m, sent := SomeManifest(h, |w[h]|, k), Numbered(base, k);
    NumberedAsks(n, h, |w[h]|, base, k);
    NumberedFacts(base, h, |w[h]|, k);
    e := ManifestComes(q, Some(m), sent);
    assert GenuineManifest(w, h, m) by { ItsManifest(w, h, m); }
    ManifestAsks(n, q, m, sent);
    SubsetSize(sent.Keys, Outstanding(Step(n, e), h));
  }

  lemma ItsManifest(w: World, h: Hash, m: Manifest)
    requires Uploaded(w, h) && m.size == |w[h]| && forall i: nat :: i in m.shards <==> i < TOTAL_SHARDS
    ensures GenuineManifest(w, h, m)
  {
  }
}
