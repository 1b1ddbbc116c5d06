/** How downloads end that begin with nothing of their file under way, their
    manifest at hand or not: what has been received, has failed, is awaited or is
    missing from the peer's own store adds up to the 45 shards. */
module FetchOutcome {
  import opened Basics
  import opened Wrappers
  import opened ErasureCoding
  import opened FetchProtocol
  import opened FetchSafety
  import opened FetchRuns
  import opened FetchNone

  // ----- What adds up -----

  /** The requests for `h` are for different shards, all still missing. */
  ghost predicate SlotsAwaited(n: Node, h: Hash)
    requires h in n.active
  {
    && (forall r :: r in Outstanding(n, h) ==> EmptySlot(n.active[h], n.requests[r].1))
    && (forall r, s :: r in Outstanding(n, h) && s in Outstanding(n, h) && r != s ==>
         n.requests[r].1 != n.requests[s].1)
  }

  predicate EmptySlot(f: Fetch, index: nat) { index < |f.shards| && f.shards[index].None? }

  /** A fetch with its manifest: of the 45 shards all but `k` are in, have failed or
      are awaited. */
  ghost predicate Lacks(n: Node, h: Hash, k: nat) {
    Collecting(n, h) && Accounted(n, h) + k == TOTAL_SHARDS && SlotsAwaited(n, h)
  }

  lemma OneFewer(n: Node, r: RequestId, n': Node, h: Hash)
    requires r in n.requests && n'.requests == n.requests - {r}
    ensures Outstanding(n', h) == if n.requests[r].0 == h then Outstanding(n, h) - {r} else Outstanding(n, h)
    ensures r in Outstanding(n, n.requests[r].0)
    ensures forall s :: s in Outstanding(n', h) ==> s in n'.requests && n'.requests[s] == n.requests[s]
  {
  }

  lemma FailureKeepsLacks(n: Node, r: RequestId, h: Hash, k: nat)
    requires WellFormed(n) && Lacks(n, h, k)
    ensures h in ShardFails(n, r).active ==> Lacks(ShardFails(n, r), h, k)
  {
    hide Outstanding;
    if r in n.requests {
      OneFewer(n, r, ShardFails(n, r), h);
      OneLess(Outstanding(n, n.requests[r].0), r);
    }
  }

  lemma ShardKeepsLacks(n: Node, r: RequestId, data: Bytes, h: Hash, k: nat)
    requires WellFormed(n) && Lacks(n, h, k)
    ensures h in ShardArrives(n, r, data).active ==> Lacks(ShardArrives(n, r, data), h, k)
  {
    hide Decoded, Outstanding;
    if r in n.requests {
      OneFewer(n, r, ShardArrives(n, r, data), h);
      OneLess(Outstanding(n, n.requests[r].0), r);
    }
  }

  lemma SameKeepsLacks(n: Node, n': Node, h: Hash, k: nat)
    requires Lacks(n, h, k) && h in n'.active && n'.active[h] == n.active[h] && Outstanding(n', h) == Outstanding(n, h)
    requires forall r :: r in Outstanding(n, h) ==> r in n'.requests && n'.requests[r] == n.requests[r]
    ensures Lacks(n', h, k)
  {
  }

  lemma OtherKeepsLacks(w: World, n: Node, e: Event, h: Hash, k: nat)
    requires QueriesSound(n) && Admits(OneAtATime(w), n, e) && Lacks(n, h, k) && !e.ShardComes? && !e.ShardLost?
    ensures Lacks(Step(n, e), h, k)
  {
    hide Genuine, AsksFor, Outstanding, Decoded, Count, LocalShards, WithRequests, HeldLocally, SlotsAwaited,
         ManifestArrives;
    var n' := Step(n, e);
    OutstandingOld(n, h);
    match e
    case Downloads(g, _, local, self, sent) =>
      if local.manifest.Some? {
        WithRequestsKeeps(n, g, sent);
        AskedAreNew(n, local.manifest.value, HeldLocally(local.manifest.value, self), sent);
        OutstandingWith(n, g, sent);
        RequestsKept(n, g, sent);
        OutstandingByRequests(WithRequests(n, g, sent), n', h);
      } else {
        OutstandingByRequests(n, n', h);
      }
      SameKeepsLacks(n, n', h, k);
    case ManifestComes(q, m, sent) =>
      if q in n.queries && m.Some? {
        ManifestAsks(n, q, m.value, sent);
        AskedAreNew(n, m.value, {}, sent);
        RequestsKept(WithManifest(n, q, m.value), n.queries[q], sent);
        SameKeepsLacks(n, n', h, k);
      } else {
        NoManifestThere(n, q, m, sent);
        OutstandingByRequests(n, n', h);
        SameKeepsLacks(n, n', h, k);
      }
    case NoManifest(q) =>
      OutstandingByRequests(n, n', h);
      SameKeepsLacks(n, n', h, k);
  }

  lemma NoManifestThere(n: Node, q: QueryId, m: Option<Manifest>, sent: map<RequestId, nat>)
    requires q !in n.queries || m == None
    ensures var n' := ManifestArrives(n, q, m, sent); n'.active == n.active && n'.requests == n.requests
  {
  }

  lemma RequestsKept(n: Node, h: Hash, sent: map<RequestId, nat>)
    requires sent.Keys !! n.requests.Keys
    ensures forall r :: r in n.requests ==>
              r in WithRequests(n, h, sent).requests && WithRequests(n, h, sent).requests[r] == n.requests[r]
    ensures forall r :: r in sent ==>
              r in WithRequests(n, h, sent).requests && WithRequests(n, h, sent).requests[r] == (h, sent[r])
  {
  }

  lemma StepKeepsLacks(w: World, n: Node, e: Event, h: Hash, k: nat)
    requires QueriesSound(n) && Admits(OneAtATime(w), n, e) && Lacks(n, h, k)
    ensures h in Step(n, e).active ==> Lacks(Step(n, e), h, k)
  {
    hide Enabled, Genuine, NotInFlight, QueriesSound, Lacks, ShardArrives, ShardFails;
    match e
    case ShardComes(r, data) => ShardKeepsLacks(n, r, data, h, k);
    case ShardLost(r) => FailureKeepsLacks(n, r, h, k);
    case _ => OtherKeepsLacks(w, n, e, h, k);
  }

  // ----- What a download starts with -----

  lemma {:induction false} InjectiveSize(sent: map<RequestId, nat>, image: set<nat>)
    requires forall r, s :: r in sent && s in sent && r != s ==> sent[r] != sent[s]
    requires forall r :: r in sent ==> sent[r] in image
    ensures |sent.Keys| <= |image|
    decreases |sent.Keys|
  {
    if sent.Keys != {} {
      var r :| r in sent;
      var rest := map s | s in sent && s != r :: sent[s];
      assert sent.Keys == rest.Keys + {r} && rest.Keys == sent.Keys - {r};
      InjectiveSize(rest, image - {sent[r]});
    }
  }

  lemma {:induction false} OnePerImage(sent: map<RequestId, nat>, image: set<nat>)
    requires forall i :: i in image ==> exists r :: r in sent && sent[r] == i
    ensures |image| <= |sent.Keys|
    decreases |sent.Keys|
  {
    if image != {} {
      var i :| i in image;
      var r :| r in sent && sent[r] == i;
      var rest := map s | s in sent && s != r :: sent[s];
      assert sent.Keys == rest.Keys + {r} && rest.Keys == sent.Keys - {r};
      forall j | j in image - {i} ensures exists s :: s in rest && rest[s] == j {
        var s :| s in sent && sent[s] == j;
        assert s in rest && rest[s] == j;
      }
      OnePerImage(rest, image - {i});
    }
  }

  lemma Apart(all: set<nat>, part: set<nat>)
    requires part <= all
    ensures |all - part| + |part| == |all|
  {
    assert all == (all - part) + part;
  }

  lemma NothingYet(w: World, h: Hash, f: Fetch)
    requires FetchSound(w, h, f) && f.received == 0
    ensures |f.shards| == TOTAL_SHARDS && forall i :: 0 <= i < |f.shards| ==> f.shards[i].None?
  {
    hide Count;
    CountFilled(f.shards);
    forall i | 0 <= i < |f.shards| ensures f.shards[i].None? { assert f.shards[i].Some? ==> i in Filled(f.shards); }
  }

  /** One request for each shard that is not exempt. */
  lemma OneRequestEach(w: World, n: Node, h: Hash, m: Manifest, exempt: set<nat>, sent: map<RequestId, nat>)
    requires GenuineManifest(w, h, m) && AsksFor(n, m, exempt, sent) && exempt <= m.shards.Keys
    ensures |sent.Keys| + |exempt| == TOTAL_SHARDS
    ensures forall r :: r in sent ==> sent[r] < TOTAL_SHARDS && sent[r] !in exempt
    ensures forall r, s :: r in sent && s in sent && r != s ==> sent[r] != sent[s]
  {
    var k: nat := TOTAL_SHARDS;
    var all := FirstNats(k);
    Apart(all, exempt);
    InjectiveSize(sent, all - exempt);
    forall i | i in all - exempt ensures exists r :: r in sent && sent[r] == i {
      assert i in m.shards.Keys - exempt;
    }
    OnePerImage(sent, all - exempt);
  }

  /** A genuine manifest that finds a fetch with nothing yet sets off exactly 45
      requests, one for each shard. */
  lemma ManifestMakesWhole(w: World, n: Node, q: QueryId, m: Manifest, sent: map<RequestId, nat>)
    requires NodeSound(w, n) && q in n.queries && n.queries[q] in n.active
    requires Genuine(w, n, ManifestComes(q, Some(m), sent)) && Enabled(n, ManifestComes(q, Some(m), sent))
    requires var h := n.queries[q];
             Outstanding(n, h) == {} && n.active[h].received == n.active[h].failed == 0 && n.active[h].manifest == None
    ensures Lacks(ManifestArrives(n, q, Some(m), sent), n.queries[q], 0)
  {
    hide Outstanding, AsksFor, FetchSound, WithRequests, GenuineManifest;
    var h, n' := n.queries[q], ManifestArrives(n, q, Some(m), sent);
    ManifestAsks(n, q, m, sent);
    OneRequestEach(w, n, h, m, {}, sent);
    SoundFetch(w, n, h);
    NothingYet(w, h, n.active[h]);
    AskedAreNew(n, m, {}, sent);
    RequestsKept(WithManifest(n, q, m), h, sent);
    assert Outstanding(n', h) == sent.Keys;
  }

  /** The shards that the manifest places on this peer and that it does not have:
      nobody is asked for them, and nothing counts them. */
  function MissingHere(m: Manifest, local: Local, self: Peer): set<nat> { HeldLocally(m, self) - local.chunks.Keys }

  /** How many shards a download misses from the start. */
  function Missing(e: Event): nat
    requires e.Downloads?
  {
    match e.local.manifest
    case None => 0
    case Some(m) => |MissingHere(m, e.local, e.self)|
  }

  lemma LocalFilled(w: World, h: Hash, m: Manifest, local: Local, self: Peer)
    requires GenuineManifest(w, h, m)
    ensures Count(LocalShards(m, local, self), 0) + |MissingHere(m, local, self)| == |HeldLocally(m, self)|
    ensures forall i: nat :: i < TOTAL_SHARDS && i !in HeldLocally(m, self) ==> LocalShards(m, local, self)[i].None?
  {
    hide Count, MissingHere, HeldLocally, LocalShards, Filled, GenuineManifest;
    var held, here := HeldLocally(m, self), local.chunks.Keys;
    CountFilled(LocalShards(m, local, self));
    FilledAt(w, h, m, local, self);
    assert MissingHere(m, local, self) == held - here by { MissingIs(m, local, self); }
    assert held == held * here + (held - here);
  }

  lemma MissingIs(m: Manifest, local: Local, self: Peer)
    ensures MissingHere(m, local, self) == HeldLocally(m, self) - local.chunks.Keys
  {
  }

  lemma FilledAt(w: World, h: Hash, m: Manifest, local: Local, self: Peer)
    requires GenuineManifest(w, h, m)
    ensures Filled(LocalShards(m, local, self)) == HeldLocally(m, self) * local.chunks.Keys
    ensures forall i: nat :: i < TOTAL_SHARDS && i !in HeldLocally(m, self) ==> LocalShards(m, local, self)[i].None?
  {
    var shards := LocalShards(m, local, self);
    forall i: nat
      ensures i in Filled(shards) <==> i in HeldLocally(m, self) && i in local.chunks
    {
      if i < TOTAL_SHARDS { assert shards[i].Some? <==> i in m.shards && m.shards[i] == self && i in local.chunks; }
    }
  }

  /** With the manifest at hand, a download is over at once or counts what it has
      and asks for; with nothing under way before, it lacks what is missing here. */
  lemma KnownStarts(w: World, n: Node, e: Event, h: Hash)
    requires Admits(OneAtATime(w), n, e) && IsDownload(e, h) && e.local.manifest.Some?
    ensures Outstanding(Step(n, e), h) == Outstanding(n, h) + e.sent.Keys && Outstanding(n, h) !! e.sent.Keys
    ensures |e.sent.Keys| + |HeldLocally(e.local.manifest.value, e.self)| == TOTAL_SHARDS
    ensures Count(LocalShards(e.local.manifest.value, e.local, e.self), 0) + Missing(e)
              == |HeldLocally(e.local.manifest.value, e.self)|
    ensures h in Step(n, e).active <==> Count(LocalShards(e.local.manifest.value, e.local, e.self), 0) < DATA_SHARDS
    ensures h in Step(n, e).active ==>
              && Collecting(Step(n, e), h) && Step(n, e).active[h].failed == 0
              && Step(n, e).active[h].received + |e.sent.Keys| + Missing(e) == TOTAL_SHARDS
              && (Outstanding(n, h) == {} ==> Lacks(Step(n, e), h, Missing(e)))
  {
    hide Outstanding, Count, Decoded, LocalShards, AsksFor, WithRequests, HeldLocally, MissingHere, NotInFlight,
         GenuineShard;
    var m, n1, n' := e.local.manifest.value, WithRequests(n, h, e.sent), Step(n, e);
    LocalFilled(w, h, m, e.local, e.self);
    HeldListed(m, e.self);
    OneRequestEach(w, n, h, m, HeldLocally(m, e.self), e.sent);
    WithRequestsKeeps(n, h, e.sent);
    AskedAreNew(n, m, HeldLocally(m, e.self), e.sent);
    OutstandingWith(n, h, e.sent);
    OutstandingOld(n, h);
    RequestsKept(n, h, e.sent);
    OutstandingByRequests(n1, n', h);
    assert h !in n.active by { NotActive(n, h); }
    assert Outstanding(n, h) == {} ==> Outstanding(n', h) == e.sent.Keys;
  }

  lemma NotActive(n: Node, h: Hash)
    requires NotInFlight(n, h)
    ensures h !in n.active
  {
  }

  lemma HeldListed(m: Manifest, self: Peer)
    ensures HeldLocally(m, self) <= m.shards.Keys
  {
  }

  /** A fetch that began with nothing under way: it is over, or still without
      manifest and requests, or lacks what it missed from the start. */
  ghost predicate Clean(n: Node, h: Hash, k: nat) {
    h in n.active ==>
      if n.active[h].manifest == None
      then k == 0 && Outstanding(n, h) == {} && n.active[h].received == n.active[h].failed == 0
      else Lacks(n, h, k)
  }

  lemma StartsClean(w: World, n: Node, e: Event, h: Hash)
    requires Admits(OneAtATime(w), n, e) && IsDownload(e, h) && Outstanding(n, h) == {}
    ensures Clean(Step(n, e), h, Missing(e))
  {
    hide Genuine, Outstanding, Step, Enabled, NotInFlight, Lacks;
    if e.local.manifest.Some? {
      KnownStarts(w, n, e, h);
      if h in Step(n, e).active { LacksIsCollecting(Step(n, e), h, Missing(e)); }
    } else {
      SearchStarts(w, n, e, h);
    }
  }

  lemma SearchStarts(w: World, n: Node, e: Event, h: Hash)
    requires Admits(OneAtATime(w), n, e) && IsDownload(e, h) && e.local.manifest == None
    ensures Outstanding(Step(n, e), h) == Outstanding(n, h)
    ensures e.query in Step(n, e).queries && Step(n, e).queries[e.query] == h && h in Step(n, e).active
    ensures Step(n, e).active[h] == Fetch(true, NoShards(), 0, 0, 0, None)
  {
    hide Genuine, Outstanding;
    OutstandingByRequests(n, Step(n, e), h);
  }

  /** A search that goes on. */
  lemma SearchingStep(w: World, n: Node, e: Event, h: Hash)
    requires QueriesSound(n) && Admits(OneAtATime(w), n, e) && !IsDownload(e, h) && !Resolves(n, e, h)
    requires h in n.active && n.active[h].manifest == None && Outstanding(n, h) == {}
    ensures h in Step(n, e).active && Step(n, e).active[h] == n.active[h] && Outstanding(Step(n, e), h) == {}
    ensures forall q :: q in n.queries && n.queries[q] == h ==> q in Step(n, e).queries && Step(n, e).queries[q] == h
  {
    hide Genuine, AsksFor, Outstanding, Decoded, Count, LocalShards, WithRequests, QueriesSound, HeldLocally,
         ManifestArrives;
    var n' := Step(n, e);
    NoneFor(n, h);
    match e
    case Downloads(g, _, local, self, sent) =>
      if local.manifest.Some? {
        WithRequestsKeeps(n, g, sent);
        AskedAreNew(n, local.manifest.value, HeldLocally(local.manifest.value, self), sent);
        OutstandingWith(n, g, sent);
        OutstandingByRequests(WithRequests(n, g, sent), n', h);
      } else {
        OutstandingByRequests(n, n', h);
      }
    case ManifestComes(q, m, sent) => OtherManifest(n, q, m, sent, h);
    case NoManifest(q) => OutstandingByRequests(n, n', h);
    case ShardComes(r, data) => OtherRequest(n, r, data, h);
    case ShardLost(r) => OtherRequest(n, r, [], h);
  }

  lemma OtherManifest(n: Node, q: QueryId, m: Option<Manifest>, sent: map<RequestId, nat>, h: Hash)
    requires Enabled(n, ManifestComes(q, m, sent)) && (q in n.queries ==> n.queries[q] != h) && h in n.active
    ensures var n' := ManifestArrives(n, q, m, sent);
            && h in n'.active && n'.active[h] == n.active[h] && Outstanding(n', h) == Outstanding(n, h)
            && forall p :: p in n.queries && n.queries[p] == h ==> p in n'.queries && n'.queries[p] == h
  {
    hide AsksFor, Outstanding, WithRequests;
    if q in n.queries && m.Some? {
      ManifestAsks(n, q, m.value, sent);
      WithRequestsKeeps(WithManifest(n, q, m.value), n.queries[q], sent);
    } else {
      OutstandingByRequests(n, ManifestArrives(n, q, m, sent), h);
    }
  }

  lemma OtherRequest(n: Node, r: RequestId, data: Bytes, h: Hash)
    requires WellFormed(n) && h in n.active && Outstanding(n, h) == {}
    requires r in n.requests ==> n.requests[r].0 != h
    ensures forall n' :: n' == ShardArrives(n, r, data) || n' == ShardFails(n, r) ==>
              && h in n'.active && n'.active[h] == n.active[h] && Outstanding(n', h) == {} && n'.queries == n.queries
  {
    hide Decoded, Outstanding;
    if r in n.requests {
      OutstandingWithout(n, r);
      var n0 := n.(requests := n.requests - {r});
      OutstandingByRequests(n0, ShardArrives(n, r, data), h);
      OutstandingByRequests(n0, ShardFails(n, r), h);
    }
  }

  lemma NoneFor(n: Node, h: Hash)
    requires Outstanding(n, h) == {}
    ensures forall r :: r in n.requests ==> n.requests[r].0 != h
  {
    forall r | r in n.requests ensures n.requests[r].0 != h {
      assert r in Outstanding(n, n.requests[r].0);
    }
  }

  /** The event is the end of the search for the manifest of `h`. */
  predicate Resolves(n: Node, e: Event, h: Hash) {
    (e.ManifestComes? || e.NoManifest?) && e.query in n.queries && n.queries[e.query] == h
  }

  lemma SearchEnds(w: World, n: Node, e: Event, h: Hash)
    requires NodeSound(w, n) && QueriesSound(n) && Admits(OneAtATime(w), n, e) && Resolves(n, e, h)
    requires h in n.active && Clean(n, h, 0) && n.active[h].manifest == None
    ensures e.NoManifest? ==> h !in Step(n, e).active && Step(n, e).replies == n.replies + [(h, None)]
    ensures e.ManifestComes? ==>
              h in Step(n, e).active && Step(n, e).replies == n.replies && Step(n, e).active[h].failed == 0
    ensures e.ManifestComes? && e.manifest.Some? ==> Lacks(Step(n, e), h, 0)
    ensures e.ManifestComes? && e.manifest == None ==> Step(n, e).active[h] == n.active[h]
    ensures !(e.ManifestComes? && e.manifest.Some?) ==> Outstanding(Step(n, e), h) == {}
    ensures forall q :: q in Step(n, e).queries ==> Step(n, e).queries[q] != h
  {
    hide AsksFor, Outstanding, WithRequests, Lacks, FetchSound, WellFormed;
    SoundFetch(w, n, h);
    Pending(w, h, n.active[h]);
    if e.ManifestComes? && e.manifest.Some? {
      ManifestMakesWhole(w, n, e.query, e.manifest.value, e.sent);
      ManifestAsks(n, e.query, e.manifest.value, e.sent);
      WithRequestsKeeps(WithManifest(n, e.query, e.manifest.value), h, e.sent);
    } else {
      OutstandingByRequests(n, Step(n, e), h);
    }
  }

  lemma StepKeepsClean(w: World, n: Node, e: Event, h: Hash, k: nat)
    requires NodeSound(w, n) && QueriesSound(n) && Admits(OneAtATime(w), n, e) && !IsDownload(e, h) && Clean(n, h, k)
    ensures Clean(Step(n, e), h, k)
  {
    hide Genuine, Enabled, Outstanding, Step, QueriesSound, NodeSound, Lacks, Resolves;
    if h in Step(n, e).active {
      StillActive(w, n, e, h);
      if n.active[h].manifest.Some? {
        LacksIsCollecting(n, h, k);
        CollectingAddsNone(w, n, e, h);
        StepKeepsLacks(w, n, e, h, k);
      } else if Resolves(n, e, h) {
        SearchEnds(w, n, e, h);
        if Lacks(Step(n, e), h, 0) { LacksIsCollecting(Step(n, e), h, 0); }
        OnlyTwoResolve(n, e, h);
      } else {
        SearchingStep(w, n, e, h);
      }
    }
  }

  lemma OnlyTwoResolve(n: Node, e: Event, h: Hash)
    requires Resolves(n, e, h)
    ensures e.ManifestComes? || e.NoManifest?
  {
  }

  lemma LacksIsCollecting(n: Node, h: Hash, k: nat)
    requires Lacks(n, h, k)
    ensures Collecting(n, h)
  {
  }

  lemma {:induction false} PathKeepsClean(w: World, n: Node, es: seq<Event>, n': Node, h: Hash, k: nat)
    requires Path(OneAtATime(w), n, es, n') && NodeSound(w, n) && QueriesSound(n) && Clean(n, h, k)
               && NoDownloadOf(es, h)
    ensures Clean(n', h, k)
    decreases |es|
  {
    hide Step, Enabled, Genuine, NotInFlight, Clean, QueriesSound, NodeSound;
    if es != [] {
      StepKeepsClean(w, n, es[0], h, k);
      StepKeepsSound(w, n, es[0]);
      StepKeepsQueries(w, n, es[0]);
      PathKeepsClean(w, Step(n, es[0]), es[1..], n', h, k);
    }
  }

  /** A download that begins with nothing of the file under way, its manifest at hand
      or not: once it has its manifest, and for as long as it is open, each of the
      45 shards has been received, has failed, is awaited, or was missing here at
      the start; the received ones fill as many slots, fewer than thirty. */
  lemma OpenFetchesAddUp(w: World, n: Node, e: Event, es: seq<Event>, n': Node, h: Hash)
    requires NodeSound(w, n) && QueriesSound(n) && Outstanding(n, h) == {}
    requires Admits(OneAtATime(w), n, e) && IsDownload(e, h)
    requires Path(OneAtATime(w), Step(n, e), es, n') && NoDownloadOf(es, h) && Collecting(n', h)
    ensures Lacks(n', h, Missing(e)) && n'.active[h].received == |Filled(n'.active[h].shards)| < DATA_SHARDS
  {
    hide Step, Enabled, Genuine, NotInFlight, QueriesSound, Lacks, Path, Outstanding, NodeSound;
    StartsClean(w, n, e, h);
    StepKeepsSound(w, n, e);
    StepKeepsQueries(w, n, e);
    PathKeepsClean(w, Step(n, e), es, n', h, Missing(e));
    PathKeepsSound(OneAtATime(w), Step(n, e), es, n');
    SoundFetch(w, n', h);
    FetchBound(w, h, n'.active[h]);
  }

  // ----- "None" -----

  /** "None" is told of such a download only if nothing was missing here, and then
      with the last of the 45 answers, fewer than thirty of them shards. */
  lemma CleanComplete(w: World, n: Node, h: Hash, k: nat, es: seq<Event>, last: Node, e: Event)
    requires NodeSound(w, n) && QueriesSound(n) && Clean(n, h, k) && EndsInNone(w, n, h, es, last, e)
    ensures Outstanding(Step(last, e), h) == {} && k == 0
    ensures last.active[h].received + last.active[h].failed + 1 == TOTAL_SHARDS && last.active[h].received < DATA_SHARDS
  {
    hide Step, Enabled, Genuine, NotInFlight, QueriesSound, Outstanding, NodeSound, Path, TellsNone, SlotsAwaited;
    PathKeepsClean(w, n, es, last, h, k);
    PathKeepsSound(OneAtATime(w), n, es, last);
    PathKeepsQueries(w, n, es, last);
    WhoTellsNone(w, last, e, h);
    OneLess(Outstanding(last, h), e.request);
    SoundFetch(w, last, h);
    FetchBound(w, h, last.active[h]);
  }

  /** No request is left over, if the manifest is not here. If it is: no more are
      than shards are missing here, or only one is under way with those of the
      download, or the download needs none. */
  ghost predicate FewLeftOver(n: Node, e: Event, h: Hash)
    requires e.Downloads?
  {
    match e.local.manifest
    case None => Outstanding(n, h) == {}
    case Some(m) =>
      || |Outstanding(n, h)| <= Missing(e)
      || |Outstanding(n, h)| + |m.shards.Keys - HeldLocally(m, e.self)| <= 1
      || Count(LocalShards(m, e.local, e.self), 0) >= DATA_SHARDS
  }

  /** Any download, with none of the file open: whatever comes after it, "none" is
      told of it, once its manifest is known, only with nothing more to come,
      exactly if few enough requests for the file are left over when it begins. */
  lemma DownloadNonesIff(w: World, n: Node, e: Event, h: Hash)
    requires NodeSound(w, n) && QueriesSound(n) && Uploaded(w, h) && Admits(OneAtATime(w), n, e) && IsDownload(e, h)
    ensures NonesComplete(w, Step(n, e), h) <==> FewLeftOver(n, e, h)
  {
    hide NodeSound, Enabled, Genuine, NotInFlight, Step, Path, TellsNone, Outstanding, QueriesSound, NonesComplete,
         LocalShards, Count;
    StepKeepsSound(w, n, e);
    StepKeepsQueries(w, n, e);
    if e.local.manifest == None {
      SearchNonesIff(w, n, e, h);
    } else {
      var m := e.local.manifest.value;
      KnownStarts(w, n, e, h);
      AllShards(w, n, e, h);
      HeldListed(m, e.self);
      Apart(m.shards.Keys, HeldLocally(m, e.self));
      if h in Step(n, e).active {
        NonesCompleteIff(w, Step(n, e), h);
      } else {
        assert NonesComplete(w, Step(n, e), h) by { ClosedTellsNothing(w, Step(n, e), h); }
      }
    }
  }

  lemma ClosedTellsNothing(w: World, n: Node, h: Hash)
    requires h !in n.active
    ensures NonesComplete(w, n, h)
  {
    hide Path, TellsNone, Step, NoDownloadOf, Outstanding, Enabled, Genuine, NotInFlight;
    forall es, last, e | EndsInNone(w, n, h, es, last, e) ensures Outstanding(Step(last, e), h) == {} {
      ClosedStays(w, n, es, last, h);
    }
  }

  lemma SearchNonesIff(w: World, n: Node, e: Event, h: Hash)
    requires NodeSound(w, n) && QueriesSound(n) && Uploaded(w, h) && Admits(OneAtATime(w), n, e) && IsDownload(e, h)
    requires e.local.manifest == None && NodeSound(w, Step(n, e)) && QueriesSound(Step(n, e))
    ensures NonesComplete(w, Step(n, e), h) <==> Outstanding(n, h) == {}
  {
    hide NodeSound, Enabled, Genuine, NotInFlight, Step, Path, TellsNone, Outstanding, QueriesSound, Clean;
    SearchStarts(w, n, e, h);
    var n0 := Step(n, e);
    if Outstanding(n, h) == {} {
      StartsClean(w, n, e, h);
      forall es, last, x | EndsInNone(w, n0, h, es, last, x) ensures Outstanding(Step(last, x), h) == {} {
        CleanComplete(w, n0, h, 0, es, last, x);
      }
    } else {
      var manifest := ManifestMayCome(w, n0, e.query);
      StepKeepsSound(w, n0, manifest);
      StepKeepsQueries(w, n0, manifest);
      var es, last, x := FailsTooSoon(w, Step(n0, manifest), h);
      Prepended(w, n0, h, manifest, es, last, x);
    }
  }

  // ----- Downloads that stay open -----

  /** Nothing of `h` is under way, and its caller is waiting. */
  ghost predicate Stuck(n: Node, h: Hash) {
    h in n.active && n.active[h].pending && AllIn(n, h)
  }

  /** Nothing of `h` is under way. */
  ghost predicate AllIn(n: Node, h: Hash) { Outstanding(n, h) == {} && NoSearch(n, h) }

  ghost predicate NoSearch(n: Node, h: Hash) { forall q :: q in n.queries ==> n.queries[q] != h }

  /** With every answer in and the download still open, its caller waits for ever. */
  lemma NothingToCome(w: World, n: Node, h: Hash)
    requires NodeSound(w, n) && QueriesSound(n) && Collecting(n, h) && Outstanding(n, h) == {}
    ensures Stuck(n, h)
  {
    hide Outstanding, FetchSound;
    SoundFetch(w, n, h);
    Pending(w, h, n.active[h]);
  }

  /** The last answer to a download that began with nothing of the file under way:
      it ends the download exactly if it is the thirtieth shard, or a failure while
      no shard was missing here; otherwise the download is stuck. */
  lemma LastAnswerEndsIff(w: World, n: Node, e: Event, es: seq<Event>, last: Node, x: Event, r: RequestId, h: Hash)
    requires NodeSound(w, n) && QueriesSound(n) && Outstanding(n, h) == {}
    requires Admits(OneAtATime(w), n, e) && IsDownload(e, h)
    requires Path(OneAtATime(w), Step(n, e), es, last) && NoDownloadOf(es, h) && Collecting(last, h)
    requires Admits(OneAtATime(w), last, x) && Outstanding(last, h) == {r}
    requires x == ShardLost(r) || (x.ShardComes? && x.request == r)
    ensures h !in Step(last, x).active <==>
            if x.ShardLost? then Missing(e) == 0 else last.active[h].received + 1 >= DATA_SHARDS
    ensures h in Step(last, x).active ==> Stuck(Step(last, x), h)
  {
    hide Step, Enabled, Genuine, NotInFlight, QueriesSound, Lacks, Path, Outstanding, NodeSound;
    OpenFetchesAddUp(w, n, e, es, last, h);
    StepKeepsSound(w, n, e);
    StepKeepsQueries(w, n, e);
    PathKeepsSound(OneAtATime(w), Step(n, e), es, last);
    PathKeepsQueries(w, Step(n, e), es, last);
    LastOfLacking(w, last, x, r, h, Missing(e));
    StepKeepsSound(w, last, x);
    StepKeepsQueries(w, last, x);
    if h in Step(last, x).active {
      CollectingAddsNone(w, last, x, h);
      NothingToCome(w, Step(last, x), h);
    }
  }

  lemma LastOfLacking(w: World, n: Node, e: Event, r: RequestId, h: Hash, k: nat)
    requires NodeSound(w, n) && Admits(OneAtATime(w), n, e) && Lacks(n, h, k) && Outstanding(n, h) == {r}
    requires e == ShardLost(r) || (e.ShardComes? && e.request == r)
    ensures h !in Step(n, e).active <==>
            if e.ShardLost? then k == 0 else n.active[h].received + 1 >= DATA_SHARDS
    ensures Outstanding(Step(n, e), h) == {}
  {
    hide Count, Codeword, Decoded, NodeSound, Genuine;
    assert r in Outstanding(n, h);
    OutstandingWithout(n, r);
    OutstandingByRequests(n.(requests := n.requests - {r}), Step(n, e), h);
  }

  /** A download can be stuck from its first moment: exactly if the manifest, at
      hand, places all shards on this peer, which misses more than fifteen. */
  lemma StuckAtOnceIff(w: World, n: Node, e: Event, h: Hash)
    requires NodeSound(w, n) && Admits(OneAtATime(w), n, e) && IsDownload(e, h) && Outstanding(n, h) == {}
    ensures Stuck(Step(n, e), h) <==>
            e.local.manifest.Some?
                && HeldLocally(e.local.manifest.value, e.self) == e.local.manifest.value.shards.Keys && Missing(e) > 15
  {
    hide Outstanding, Enabled, Genuine, Step, NodeSound, FetchSound, Lacks, HeldLocally, Count, LocalShards,
         MissingHere;
    StepKeepsSound(w, n, e);
    if e.local.manifest == None {
      SearchStarts(w, n, e, h);
    } else {
      var m := e.local.manifest.value;
      KnownStarts(w, n, e, h);
      AllShards(w, n, e, h);
      NoSearchAfter(w, n, e, h);
      assert e.sent.Keys == {} <==> HeldLocally(m, e.self) == m.shards.Keys;
      if h in Step(n, e).active {
        SoundFetch(w, Step(n, e), h);
        Pending(w, h, Step(n, e).active[h]);
        FetchBound(w, h, Step(n, e).active[h]);
      }
    }
  }

  lemma AllShards(w: World, n: Node, e: Event, h: Hash)
    requires Admits(OneAtATime(w), n, e) && IsDownload(e, h) && e.local.manifest.Some?
    ensures var m := e.local.manifest.value;
            && |m.shards.Keys| == TOTAL_SHARDS
            && (|HeldLocally(m, e.self)| == TOTAL_SHARDS <==> HeldLocally(m, e.self) == m.shards.Keys)
  {
    hide GenuineShard, Enabled;
    var k: nat := TOTAL_SHARDS;
    var m := e.local.manifest.value;
    assert GenuineManifest(w, h, m);
    assert m.shards.Keys == FirstNats(k);
    HeldListed(m, e.self);
    Apart(m.shards.Keys, HeldLocally(m, e.self));
  }

  lemma NoSearchAfter(w: World, n: Node, e: Event, h: Hash)
    requires Admits(OneAtATime(w), n, e) && IsDownload(e, h) && e.local.manifest.Some?
    ensures NoSearch(Step(n, e), h)
  {
    hide Genuine, Enabled, Count, Decoded, LocalShards, WithRequests;
    WithRequestsKeeps(n, h, e.sent);
  }

  /** A manifest that cannot be read ends the search and leaves the download open:
      it is stuck exactly if no request for the file is left over. */
  lemma UnreadableSticksIff(w: World, n: Node, e: Event, h: Hash)
    requires NodeSound(w, n) && QueriesSound(n) && Admits(OneAtATime(w), n, e) && Resolves(n, e, h) && h in n.active
    requires e.ManifestComes? && e.manifest == None
    ensures Stuck(Step(n, e), h) <==> Outstanding(n, h) == {}
  {
    hide Outstanding, FetchSound, Enabled;
    SoundFetch(w, n, h);
    Pending(w, h, n.active[h]);
    OutstandingByRequests(n, Step(n, e), h);
  }

  lemma StuckStep(n: Node, e: Event, h: Hash)
    requires WellFormed(n) && Enabled(n, e) && !IsDownload(e, h) && Stuck(n, h)
    ensures Stuck(Step(n, e), h) && Step(n, e).active[h] == n.active[h]
    ensures RepliesFor(Step(n, e).replies, h) <= RepliesFor(n.replies, h)
  {
    hide Decoded, Count, LocalShards, AsksFor, RepliesFor, StartWith;
    StepSpends(n, e, h);
    NoneFor(n, h);
    StuckFields(n, e, h);
  }

  lemma StuckFields(n: Node, e: Event, h: Hash)
    requires WellFormed(n) && Enabled(n, e) && !IsDownload(e, h) && Stuck(n, h)
    requires forall r :: r in n.requests ==> n.requests[r].0 != h
    ensures Stuck(Step(n, e), h) && Step(n, e).active[h] == n.active[h]
  {
    hide Decoded, Count, LocalShards, AsksFor;
  }

  /** A stuck download stays so, and its caller hears nothing, until the hash is
      downloaded again. */
  lemma {:induction false} StaysOpenForever(rule: Rule, n: Node, es: seq<Event>, n': Node, h: Hash)
    requires Path(rule, n, es, n') && Stuck(n, h) && NoDownloadOf(es, h)
    ensures Stuck(n', h) && RepliesFor(n'.replies, h) <= RepliesFor(n.replies, h)
    decreases |es|
  {
    hide Stuck, RepliesFor, Step, Enabled, Genuine;
    if es != [] {
      StuckStep(n, es[0], h);
      StaysOpenForever(rule, Step(n, es[0]), es[1..], n', h);
    }
  }

  // ----- What callers have been told -----

  function AnswersFor(replies: seq<(Hash, Option<Bytes>)>, h: Hash): seq<Option<Bytes>> {
    if replies == [] then []
    else AnswersFor(replies[..|replies| - 1], h)
         + if replies[|replies| - 1].0 == h then [replies[|replies| - 1].1] else []
  }

  lemma {:induction false} AnswersSplit(a: seq<(Hash, Option<Bytes>)>, b: seq<(Hash, Option<Bytes>)>, h: Hash)
    ensures AnswersFor(a + b, h) == AnswersFor(a, h) + AnswersFor(b, h)
    decreases |b|
  {
    if b == [] {
      assert a + b == a;
    } else {
      var rest := b[..|b| - 1];
      assert (a + b)[..|a + b| - 1] == a + rest;
      AnswersSplit(a, rest, h);
    }
  }

  lemma {:induction false} AnswersCounted(replies: seq<(Hash, Option<Bytes>)>, h: Hash)
    ensures |AnswersFor(replies, h)| == RepliesFor(replies, h)
  {
    if replies != [] { AnswersCounted(replies[..|replies| - 1], h); }
  }

  lemma OneMoreAnswer(replies: seq<(Hash, Option<Bytes>)>, told: (Hash, Option<Bytes>), h: Hash)
    ensures AnswersFor(replies + [told], h) == AnswersFor(replies, h) + if told.0 == h then [told.1] else []
  {
    assert (replies + [told])[..|replies|] == replies;
  }

  lemma RepliesGrow(w: World, n: Node, e: Event)
    requires NodeSound(w, n) && Admits(OneAtATime(w), n, e)
    ensures |n.replies| <= |Step(n, e).replies| && Step(n, e).replies[..|n.replies|] == n.replies
  {
    hide NodeSound, Genuine, Enabled, Step, LengthKnown;
    StepKeepsSound(w, n, e);
  }

  lemma {:induction false} RepliesGrowAlong(w: World, n: Node, es: seq<Event>, n': Node)
    requires NodeSound(w, n) && Path(OneAtATime(w), n, es, n')
    ensures |n.replies| <= |n'.replies| && n'.replies[..|n.replies|] == n.replies
    decreases |es|
  {
    hide NodeSound, Genuine, Enabled, Step;
    if es != [] {
      RepliesGrow(w, n, es[0]);
      StepKeepsSound(w, n, es[0]);
      RepliesGrowAlong(w, Step(n, es[0]), es[1..], n');
    }
  }

  lemma {:induction false} NoneDownloaded(es: seq<Event>, h: Hash)
    requires NoDownloadOf(es, h)
    ensures DownloadsOf(es, h) == 0
  {
    if es != [] { NoneDownloaded(es[1..], h); }
  }

  /** A caller that is waiting before and after has been told nothing, and so has
      one that was not waiting. */
  lemma SilentAlong(w: World, n: Node, es: seq<Event>, n': Node, h: Hash)
    requires NodeSound(w, n) && Path(OneAtATime(w), n, es, n') && NoDownloadOf(es, h)
    requires h in n.active ==> h in n'.active
    ensures AnswersFor(n'.replies, h) == AnswersFor(n.replies, h)
  {
    hide NodeSound, Path, FetchSound, AnswersFor, RepliesFor;
    RepliesGrowAlong(w, n, es, n');
    AnsweredAtMostOnce(OneAtATime(w), n, es, n', h);
    NoneDownloaded(es, h);
    PathKeepsSound(OneAtATime(w), n, es, n');
    if h in n'.active {
      SoundFetch(w, n', h);
      Pending(w, h, n'.active[h]);
    }
    var more := n'.replies[|n.replies|..];
    assert n'.replies == n.replies + more;
    AnswersSplit(n.replies, more, h);
    AnswersCounted(n.replies, h);
    AnswersCounted(n'.replies, h);
  }

  // ----- Losses -----

  /** The event is the failure of a request for a shard of `h`. */
  predicate LosesOne(n: Node, e: Event, h: Hash) {
    e.ShardLost? && e.request in n.requests && n.requests[e.request].0 == h
  }

  ghost function Losses(n: Node, es: seq<Event>, h: Hash): nat
    decreases |es|
  {
    if es == [] || !WellFormed(n) then 0
    else (if LosesOne(n, es[0], h) then 1 else 0) + Losses(Step(n, es[0]), es[1..], h)
  }

  /** The answer with which everything is in is a failure. */
  ghost predicate LastFails(n: Node, es: seq<Event>, h: Hash)
    decreases |es|
  {
    es != [] && WellFormed(n) &&
    if Outstanding(n, h) != {} && Outstanding(Step(n, es[0]), h) == {} then LosesOne(n, es[0], h)
    else LastFails(Step(n, es[0]), es[1..], h)
  }

  /** With nothing more to be asked for, only requests under way can fail. */
  lemma IdleStep(w: World, n: Node, e: Event, h: Hash)
    requires Admits(OneAtATime(w), n, e) && !IsDownload(e, h) && NoSearch(n, h)
    ensures Outstanding(Step(n, e), h) <= Outstanding(n, h) && NoSearch(Step(n, e), h)
    ensures LosesOne(n, e, h) ==> |Outstanding(Step(n, e), h)| + 1 == |Outstanding(n, h)|
    ensures h in Step(n, e).active ==> h in n.active
  {
    hide Genuine, AsksFor, Outstanding, Decoded, Count, LocalShards, WithRequests, HeldLocally, ManifestArrives,
         ShardArrives, ShardFails, WellFormed;
    if h in Step(n, e).active { StillActive(w, n, e, h); }
    match e
    case Downloads(g, _, local, self, sent) =>
      if local.manifest.Some? {
        WithRequestsKeeps(n, g, sent);
        AskedAreNew(n, local.manifest.value, HeldLocally(local.manifest.value, self), sent);
        OutstandingWith(n, g, sent);
        OutstandingByRequests(WithRequests(n, g, sent), Step(n, e), h);
      } else {
        OutstandingByRequests(n, Step(n, e), h);
      }
    case ManifestComes(q, m, sent) => IdleManifest(n, q, m, sent, h);
    case NoManifest(q) => OutstandingByRequests(n, Step(n, e), h);
    case ShardComes(r, data) => IdleShard(n, r, data, h);
    case ShardLost(r) => IdleShard(n, r, [], h);
  }

  lemma IdleManifest(n: Node, q: QueryId, m: Option<Manifest>, sent: map<RequestId, nat>, h: Hash)
    requires Enabled(n, ManifestComes(q, m, sent)) && NoSearch(n, h)
    ensures var n' := ManifestArrives(n, q, m, sent); Outstanding(n', h) == Outstanding(n, h) && NoSearch(n', h)
  {
    hide AsksFor, Outstanding, WithRequests;
    if q in n.queries && m.Some? {
      ManifestAsks(n, q, m.value, sent);
      WithRequestsKeeps(WithManifest(n, q, m.value), n.queries[q], sent);
    } else {
      OutstandingByRequests(n, ManifestArrives(n, q, m, sent), h);
    }
  }

  lemma IdleShard(n: Node, r: RequestId, data: Bytes, h: Hash)
    requires WellFormed(n)
    ensures Outstanding(ShardArrives(n, r, data), h) <= Outstanding(n, h)
    ensures Outstanding(ShardFails(n, r), h) <= Outstanding(n, h)
    ensures LosesOne(n, ShardLost(r), h) ==> |Outstanding(ShardFails(n, r), h)| + 1 == |Outstanding(n, h)|
    ensures ShardArrives(n, r, data).queries == n.queries && ShardFails(n, r).queries == n.queries
  {
    hide Decoded, Outstanding;
    if r in n.requests {
      OutstandingWithout(n, r);
      var n0 := n.(requests := n.requests - {r});
      OutstandingByRequests(n0, ShardArrives(n, r, data), h);
      OutstandingByRequests(n0, ShardFails(n, r), h);
      OneLess(Outstanding(n, n.requests[r].0), r);
    }
  }

  /** After a download is over, what is still under way is all that can fail. */
  lemma {:induction false} OverPath(w: World, n: Node, es: seq<Event>, n': Node, h: Hash)
    requires Path(OneAtATime(w), n, es, n') && NoDownloadOf(es, h) && NoSearch(n, h) && h !in n.active
    ensures h !in n'.active && Losses(n, es, h) <= |Outstanding(n, h)|
    decreases |es|
  {
    hide Step, Enabled, Genuine, NotInFlight, Outstanding, NoSearch, LosesOne;
    if es != [] {
      IdleStep(w, n, es[0], h);
      SubsetSize(Outstanding(Step(n, es[0]), h), Outstanding(n, h));
      OverPath(w, Step(n, es[0]), es[1..], n', h);
    }
  }

  // ----- The outcome -----

  /** How a fetch with its manifest goes on with one event. */
  lemma LackingStep(w: World, n: Node, e: Event, h: Hash, k: nat)
    requires NodeSound(w, n) && QueriesSound(n) && Admits(OneAtATime(w), n, e) && Lacks(n, h, k)
    ensures Uploaded(w, h) && NoSearch(Step(n, e), h)
    ensures h !in Step(n, e).active ==>
              || (TellsData(n, e, h, w[h]) && n.active[h].received + 1 == DATA_SHARDS && !LosesOne(n, e, h)
                  && |Outstanding(Step(n, e), h)| + 1 == |Outstanding(n, h)|)
              || (TellsNone(n, e, h) && LosesOne(n, e, h) && k == 0 && |Outstanding(n, h)| == 1
                  && Outstanding(Step(n, e), h) == {})
    ensures h in Step(n, e).active ==>
              && Lacks(Step(n, e), h, k)
              && Step(n, e).active[h].failed == n.active[h].failed + (if LosesOne(n, e, h) then 1 else 0)
              && (LosesOne(n, e, h) && k == 0 ==> Outstanding(Step(n, e), h) != {})
  {
    hide NodeSound, Genuine, Outstanding, AsksFor, Decoded, ShardArrives, ShardFails, Download, ManifestArrives,
         FetchSound, SlotsAwaited;
    StepKeepsLacks(w, n, e, h, k);
    SoundFetch(w, n, h);
    FetchBound(w, h, n.active[h]);
    KnowsFile(w, h, n.active[h]);
    assert NoSearch(n, h);
    assert !IsDownload(e, h) by { CollectingAddsNone(w, n, e, h); }
    IdleStep(w, n, e, h);
    match e
    case ShardComes(r, data) => ShardEnds(w, n, r, data, h);
    case ShardLost(r) => FailureEnds(w, n, r, h, k);
    case _ => OtherKeepsOpen(w, n, e, h);
  }

  lemma ShardEnds(w: World, n: Node, r: RequestId, data: Bytes, h: Hash)
    requires NodeSound(w, n) && Genuine(w, n, ShardComes(r, data)) && Collecting(n, h) && WellFormed(n)
    ensures Uploaded(w, h)
    ensures var n' := ShardArrives(n, r, data);
            if h in n'.active then n'.active[h].failed == n.active[h].failed
            else n'.replies == n.replies + [(h, Some(w[h]))] && n.active[h].received + 1 == DATA_SHARDS
                 && |Outstanding(n', h)| + 1 == |Outstanding(n, h)|
  {
    hide NodeSound, FetchSound, Decoded, AcceptShard, Outstanding;
    SoundFetch(w, n, h);
    KnowsFile(w, h, n.active[h]);
    if r in n.requests {
      var (g, index) := n.requests[r];
      var n0 := n.(requests := n.requests - {r});
      OneLessUnderWay(n, r, data);
      if g in n.active && n.active[g].shards[index].None? {
        SoundFetch(w, n, g);
        FetchBound(w, g, n.active[g]);
        AcceptSound(w, n, n0, g, index, data);
        AcceptElsewhere(n0, g, index, data, h);
      } else {
        AcceptNothing(n0, g, index, data);
      }
    }
  }

  lemma OneLessUnderWay(n: Node, r: RequestId, data: Bytes)
    requires WellFormed(n) && r in n.requests
    ensures var h := n.requests[r].0; |Outstanding(ShardArrives(n, r, data), h)| + 1 == |Outstanding(n, h)|
  {
    hide Decoded, Outstanding;
    OneFewer(n, r, ShardArrives(n, r, data), n.requests[r].0);
    OneLess(Outstanding(n, n.requests[r].0), r);
  }

  lemma KnowsFile(w: World, h: Hash, f: Fetch)
    requires FetchSound(w, h, f) && f.manifest.Some?
    ensures Uploaded(w, h)
  {
  }

  lemma AcceptElsewhere(n: Node, g: Hash, index: nat, data: Bytes, h: Hash)
    requires WellFormed(n) && index < TOTAL_SHARDS && h in n.active
    ensures g != h ==> h in AcceptShard(n, g, index, data).active
    ensures h in AcceptShard(n, g, index, data).active ==>
              AcceptShard(n, g, index, data).active[h].failed == n.active[h].failed
  {
    hide Decoded;
  }

  lemma FailureEnds(w: World, n: Node, r: RequestId, h: Hash, k: nat)
    requires NodeSound(w, n) && WellFormed(n) && Lacks(n, h, k)
    ensures var n' := ShardFails(n, r);
            if h in n'.active
            then n'.active[h].failed == n.active[h].failed + (if LosesOne(n, ShardLost(r), h) then 1 else 0)
                 && (LosesOne(n, ShardLost(r), h) && k == 0 ==> Outstanding(n', h) != {})
            else n'.replies == n.replies + [(h, None)] && LosesOne(n, ShardLost(r), h) && k == 0
                 && |Outstanding(n, h)| == 1 && Outstanding(n', h) == {}
  {
    hide NodeSound, FetchSound, SlotsAwaited, Outstanding;
    SoundFetch(w, n, h);
    Pending(w, h, n.active[h]);
    FetchBound(w, h, n.active[h]);
    if r in n.requests {
      OneFewer(n, r, ShardFails(n, r), n.requests[r].0);
      OneLess(Outstanding(n, n.requests[r].0), r);
    }
  }

  lemma OtherKeepsOpen(w: World, n: Node, e: Event, h: Hash)
    requires QueriesSound(n) && Admits(OneAtATime(w), n, e) && Collecting(n, h) && !e.ShardComes? && !e.ShardLost?
    ensures h in Step(n, e).active && Step(n, e).active[h] == n.active[h]
  {
    hide Genuine, AsksFor, Decoded, Count, LocalShards, HeldLocally;
  }

  /** What callers of `h` have been told since `n`. */
  ghost predicate ToldSince(n: Node, n': Node, h: Hash, told: seq<Option<Bytes>>) {
    AnswersFor(n'.replies, h) == AnswersFor(n.replies, h) + told
  }

  /** How it ends when, of the 45 shards, `lost` have failed or were missing: the
      file, "none" or no answer at all. */
  ghost predicate EndsAs(w: World, n: Node, n': Node, h: Hash, k: nat, lost: nat, lastFails: bool) {
    && Uploaded(w, h)
    && if lost <= 15 then ToldSince(n, n', h, [Some(w[h])]) && h !in n'.active
       else if k == 0 && lastFails then ToldSince(n, n', h, [None]) && h !in n'.active
       else ToldSince(n, n', h, []) && Stuck(n', h)
  }

  lemma {:induction false} FoundEnds(w: World, n: Node, es: seq<Event>, n': Node, h: Hash, k: nat)
    requires NodeSound(w, n) && QueriesSound(n) && Lacks(n, h, k) && Path(OneAtATime(w), n, es, n')
               && NoDownloadOf(es, h) && AllIn(n', h)
    ensures EndsAs(w, n, n', h, k, n.active[h].failed + Losses(n, es, h) + k, LastFails(n, es, h))
    decreases |es|
  {
    hide NodeSound, QueriesSound, Genuine, Enabled, NotInFlight, Step, Outstanding, SlotsAwaited, TellsData, TellsNone,
         AnswersFor, LosesOne, NoSearch;
    SoundFetch(w, n, h);
    FetchBound(w, h, n.active[h]);
    KnowsFile(w, h, n.active[h]);
    if es == [] {
      NothingToCome(w, n, h);
    } else {
      var n1 := Step(n, es[0]);
      LackingStep(w, n, es[0], h, k);
      StepKeepsSound(w, n, es[0]);
      StepKeepsQueries(w, n, es[0]);
      if h in n1.active {
        OneEvent(OneAtATime(w), n, es[0]);
        SilentAlong(w, n, [es[0]], n1, h);
        FoundEnds(w, n1, es[1..], n', h, k);
        SoundFetch(w, n1, h);
        FetchBound(w, h, n1.active[h]);
        if Outstanding(n1, h) == {} {
          NoneLeft(w, n1, es[1..], n', h);
          assert Losses(n, es, h) == if LosesOne(n, es[0], h) then 1 else 0;
        }
      } else {
        OverPath(w, n1, es[1..], n', h);
        SilentAlong(w, n1, es[1..], n', h);
        ToldNow(n, es[0], h);
      }
    }
  }

  lemma ToldNow(n: Node, e: Event, h: Hash)
    requires WellFormed(n)
    ensures forall data :: TellsData(n, e, h, data) ==> ToldSince(n, Step(n, e), h, [Some(data)])
    ensures TellsNone(n, e, h) ==> ToldSince(n, Step(n, e), h, [None])
  {
    hide Step, AnswersFor;
    forall data | TellsData(n, e, h, data) ensures ToldSince(n, Step(n, e), h, [Some(data)]) {
      OneMoreAnswer(n.replies, (h, Some(data)), h);
    }
    OneMoreAnswer(n.replies, (h, None), h);
  }

  /** With nothing under way, nothing fails. */
  lemma {:induction false} NoneLeft(w: World, n: Node, es: seq<Event>, n': Node, h: Hash)
    requires Path(OneAtATime(w), n, es, n') && NoDownloadOf(es, h) && NoSearch(n, h) && Outstanding(n, h) == {}
    ensures Losses(n, es, h) == 0 && !LastFails(n, es, h)
    decreases |es|
  {
    hide Step, Enabled, Genuine, NotInFlight, Outstanding, NoSearch, LosesOne;
    if es != [] {
      IdleStep(w, n, es[0], h);
      NoneLeft(w, Step(n, es[0]), es[1..], n', h);
    }
  }

  /** How the search for a manifest ends. */
  datatype Search = Searching | Found | NotFound | Unreadable

  ghost function Fate(n: Node, es: seq<Event>, h: Hash): Search
    decreases |es|
  {
    if es == [] || !WellFormed(n) then Searching
    else if Resolves(n, es[0], h) then
      if es[0].NoManifest? then NotFound else if es[0].manifest.Some? then Found else Unreadable
    else Fate(Step(n, es[0]), es[1..], h)
  }

  ghost predicate EndsBySearch(w: World, n: Node, n': Node, h: Hash, search: Search, k: nat, lost: nat,
                               lastFails: bool) {
    match search
    case Found => EndsAs(w, n, n', h, k, lost, lastFails)
    case NotFound => ToldSince(n, n', h, [None]) && h !in n'.active
    case Unreadable => ToldSince(n, n', h, []) && Stuck(n', h)
    case Searching => false
  }

  lemma {:induction false} SearchEndsAs(w: World, n: Node, es: seq<Event>, n': Node, h: Hash, q: QueryId)
    requires NodeSound(w, n) && QueriesSound(n) && h in n.active && n.active[h].manifest == None && Clean(n, h, 0)
    requires q in n.queries && n.queries[q] == h
    requires Path(OneAtATime(w), n, es, n') && NoDownloadOf(es, h) && AllIn(n', h)
    ensures EndsBySearch(w, n, n', h, Fate(n, es, h), 0, Losses(n, es, h), LastFails(n, es, h))
    decreases |es|
  {
    hide NodeSound, QueriesSound, Genuine, Enabled, NotInFlight, Step, Outstanding, Lacks, AnswersFor, Resolves,
         FetchSound, Stuck, EndsAs;
    assert es != [];
    var n1 := Step(n, es[0]);
    StepKeepsSound(w, n, es[0]);
    StepKeepsQueries(w, n, es[0]);
    NoneFor(n, h);
    if Resolves(n, es[0], h) {
      SearchEnds(w, n, es[0], h);
      OnlyTwoResolve(n, es[0], h);
      if Fate(n, es, h) == Found {
        FoundEnds(w, n1, es[1..], n', h, 0);
        SinceEarlier(w, n, n1, n', h, 0, n1.active[h].failed + Losses(n1, es[1..], h), LastFails(n1, es[1..], h));
      } else if Fate(n, es, h) == NotFound {
        SilentAlong(w, n1, es[1..], n', h);
        OverPath(w, n1, es[1..], n', h);
        OneMoreAnswer(n.replies, (h, None), h);
      } else {
        SoundFetch(w, n1, h);
        Pending(w, h, n1.active[h]);
        assert Stuck(n1, h) by { IsStuck(n1, h); }
        StaysOpenForever(OneAtATime(w), n1, es[1..], n', h);
        StuckIsOpen(n', h);
        SilentAlong(w, n1, es[1..], n', h);
      }
    } else {
      SearchingStep(w, n, es[0], h);
      OneEvent(OneAtATime(w), n, es[0]);
      SilentAlong(w, n, [es[0]], n1, h);
      SearchEndsAs(w, n1, es[1..], n', h, q);
      SinceEarlier(w, n, n1, n', h, 0, Losses(n, es, h), LastFails(n, es, h));
    }
  }

  lemma IsStuck(n: Node, h: Hash)
    requires h in n.active && n.active[h].pending && Outstanding(n, h) == {}
    requires forall q :: q in n.queries ==> n.queries[q] != h
    ensures Stuck(n, h)
  {
  }

  lemma StuckIsOpen(n: Node, h: Hash)
    requires Stuck(n, h)
    ensures h in n.active
  {
  }

  lemma SinceEarlier(w: World, n: Node, n1: Node, n': Node, h: Hash, k: nat, lost: nat, lastFails: bool)
    requires AnswersFor(n1.replies, h) == AnswersFor(n.replies, h)
    ensures EndsAs(w, n1, n', h, k, lost, lastFails) ==> EndsAs(w, n, n', h, k, lost, lastFails)
  {
    hide AnswersFor, Stuck;
  }

  /** How every download ends that begins with none of the file open or under way,
      its manifest at hand or not, once nothing of it is under way any more. If a
      manifest is had: the caller has been given the file exactly if at most fifteen
      shards have failed or were missing here from the start; otherwise it has been
      told "none" if none was missing here and the last answer was a failure, and
      nothing at all if not. If the search finds none, the caller has been told
      so; if it finds what cannot be read, it has been told nothing. Whoever has
      been told nothing never will be. */
  lemma DownloadEnds(w: World, n: Node, e: Event, es: seq<Event>, n': Node, h: Hash)
    requires NodeSound(w, n) && QueriesSound(n) && Outstanding(n, h) == {}
    requires Admits(OneAtATime(w), n, e) && IsDownload(e, h)
    requires Path(OneAtATime(w), Step(n, e), es, n') && NoDownloadOf(es, h) && AllIn(n', h)
    ensures var n0 := Step(n, e);
            var search := if e.local.manifest.Some? then Found else Fate(n0, es, h);
            EndsBySearch(w, n, n', h, search, Missing(e), Missing(e) + Losses(n0, es, h), LastFails(n0, es, h))
  {
    hide NodeSound, QueriesSound, Genuine, Enabled, NotInFlight, Step, Outstanding, Lacks, AnswersFor, Path, Losses,
         FetchSound, Stuck, LastFails, AllIn, Clean, EndsAs, Missing;
    var n0 := Step(n, e);
    StepKeepsSound(w, n, e);
    StepKeepsQueries(w, n, e);
    if e.local.manifest == None {
      SearchStarts(w, n, e, h);
      StartsClean(w, n, e, h);
      SearchSilent(w, n, e, h);
      MissingNothing(e);
      SearchEndsAs(w, n0, es, n', h, e.query);
      SinceEarlier(w, n, n0, n', h, 0, Losses(n0, es, h), LastFails(n0, es, h));
    } else if h in n0.active {
      KnownStarts(w, n, e, h);
      KnownTells(w, n, e, h);
      FoundEnds(w, n0, es, n', h, Missing(e));
      SinceEarlier(w, n, n0, n', h, Missing(e), Missing(e) + Losses(n0, es, h), LastFails(n0, es, h));
    } else {
      GivenAtOnce(w, n, e, es, n', h);
    }
  }

  lemma MissingNothing(e: Event)
    requires e.Downloads? && e.local.manifest == None
    ensures Missing(e) == 0
  {
  }

  lemma SearchSilent(w: World, n: Node, e: Event, h: Hash)
    requires Admits(OneAtATime(w), n, e) && IsDownload(e, h) && e.local.manifest == None
    ensures Step(n, e).replies == n.replies
  {
    hide Genuine, Enabled;
  }

  /** What a download with the manifest at hand tells at once. */
  lemma KnownTells(w: World, n: Node, e: Event, h: Hash)
    requires NodeSound(w, n) && Admits(OneAtATime(w), n, e) && IsDownload(e, h) && e.local.manifest.Some?
    ensures Uploaded(w, h)
    ensures Step(n, e).replies == if h in Step(n, e).active then n.replies else n.replies + [(h, Some(w[h]))]
  {
    hide NodeSound, GenuineShard, Enabled, LocalShards, WithRequests, Count, Decoded, NotInFlight, Codeword;
    var m, shards := e.local.manifest.value, LocalShards(e.local.manifest.value, e.local, e.self);
    WithRequestsKeeps(n, h, e.sent);
    LocalShardsGenuine(w, h, m, e.local, e.self);
    assert h !in n.active by { NotActive(n, h); }
    if Count(shards, 0) >= DATA_SHARDS { DecodesRight(w, h, shards); }
  }

  lemma GivenAtOnce(w: World, n: Node, e: Event, es: seq<Event>, n': Node, h: Hash)
    requires NodeSound(w, n) && Outstanding(n, h) == {} && Admits(OneAtATime(w), n, e) && IsDownload(e, h)
    requires e.local.manifest.Some? && h !in Step(n, e).active && NodeSound(w, Step(n, e))
    requires Path(OneAtATime(w), Step(n, e), es, n') && NoDownloadOf(es, h)
    ensures EndsAs(w, n, n', h, Missing(e), Missing(e) + Losses(Step(n, e), es, h), LastFails(Step(n, e), es, h))
  {
    hide NodeSound, Genuine, Enabled, NotInFlight, Step, Outstanding, Lacks, AnswersFor, Path, Losses, Count,
         LocalShards, Missing, HeldLocally, LastFails;
    KnownStarts(w, n, e, h);
    KnownTells(w, n, e, h);
    NoSearchAfter(w, n, e, h);
    OverPath(w, Step(n, e), es, n', h);
    SilentAlong(w, Step(n, e), es, n', h);
    OneMoreAnswer(n.replies, (h, Some(w[h])), h);
    assert Outstanding(Step(n, e), h) == e.sent.Keys;
  }
}
