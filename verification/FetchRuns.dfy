/** Whole runs of the download side: every order of commands and answers. */
module FetchRuns {
  import opened Basics
  import opened Wrappers
  import opened ErasureCoding
  import opened FetchProtocol
  import opened FetchSafety

  function Idle(): Node { Node(map[], map[], map[], []) }

  /** What is promised of the events of a run: nothing; that peers do not alter
      what they were given; or also that a file is downloaded once at a time. */
  datatype Rule = AnyEvents | GenuineEvents(w: World) | OneAtATime(w: World)

  /** No download of `h` is open and no search for its manifest. Requests of
      downloads that have been answered may still be under way. */
  ghost predicate NotInFlight(n: Node, h: Hash) {
    h !in n.active && forall q :: q in n.queries ==> n.queries[q] != h
  }

  ghost predicate Admits(rule: Rule, n: Node, e: Event) {
    && WellFormed(n) && Enabled(n, e)
    && (rule.GenuineEvents? || rule.OneAtATime? ==> Genuine(rule.w, n, e))
    && (rule.OneAtATime? && e.Downloads? ==> NotInFlight(n, e.hash))
  }

  /** From `n` the events `es`, each admitted when it comes, lead to `n'`. */
  ghost predicate Path(rule: Rule, n: Node, es: seq<Event>, n': Node)
    decreases |es|
  {
    if es == [] then n' == n else Admits(rule, n, es[0]) && Path(rule, Step(n, es[0]), es[1..], n')
  }

  lemma {:induction false} PathConcat(rule: Rule, n: Node, es: seq<Event>, mid: Node, fs: seq<Event>, n': Node)
    requires Path(rule, n, es, mid) && Path(rule, mid, fs, n')
    ensures Path(rule, n, es + fs, n')
    decreases |es|
  {
    hide Step, Enabled, Genuine, NotInFlight;
    if es == [] {
      assert es + fs == fs;
    } else {
      assert (es + fs)[1..] == es[1..] + fs;
      PathConcat(rule, Step(n, es[0]), es[1..], mid, fs, n');
    }
  }

  lemma OneEvent(rule: Rule, n: Node, e: Event)
    requires Admits(rule, n, e)
    ensures Path(rule, n, [e], Step(n, e))
  {
    assert [e][1..] == [];
    assert Path(rule, Step(n, e), [], Step(n, e));
  }

  lemma {:induction false} OneAtATimeIsGenuine(w: World, n: Node, es: seq<Event>, n': Node)
    requires Path(OneAtATime(w), n, es, n')
    ensures Path(GenuineEvents(w), n, es, n')
    decreases |es|
  {
    if es != [] { OneAtATimeIsGenuine(w, Step(n, es[0]), es[1..], n'); }
  }

  // ----- At most one answer -----

  function RepliesFor(replies: seq<(Hash, Option<Bytes>)>, h: Hash): nat {
    if replies == [] then 0
    else RepliesFor(replies[..|replies| - 1], h) + if replies[|replies| - 1].0 == h then 1 else 0
  }

  function Unanswered(n: Node, h: Hash): nat {
    if h in n.active && n.active[h].pending then 1 else 0
  }

  predicate IsDownload(e: Event, h: Hash) { e.Downloads? && e.hash == h }

  lemma OneMoreReply(replies: seq<(Hash, Option<Bytes>)>, told: (Hash, Option<Bytes>), h: Hash)
    ensures RepliesFor(replies + [told], h) == RepliesFor(replies, h) + if told.0 == h then 1 else 0
  {
    assert (replies + [told])[..|replies|] == replies;
  }

  /** No event answers a caller that is not waiting. */
  ghost predicate SpendsAtMost(n: Node, e: Event, n': Node, h: Hash) {
    RepliesFor(n'.replies, h) + Unanswered(n', h)
      <= RepliesFor(n.replies, h) + Unanswered(n, h) + if IsDownload(e, h) then 1 else 0
  }

  lemma FinishSpends(n: Node, g: Hash, answer: Option<Bytes>, h: Hash)
    requires g in n.active
    ensures RepliesFor(Finish(n, g, answer).replies, h) + Unanswered(Finish(n, g, answer), h)
            == RepliesFor(n.replies, h) + Unanswered(n, h)
  {
    OneMoreReply(n.replies, (g, answer), h);
  }

  lemma AcceptSpends(n: Node, g: Hash, index: nat, data: Bytes, h: Hash)
    requires WellFormed(n) && index < TOTAL_SHARDS
    ensures var n' := AcceptShard(n, g, index, data);
            RepliesFor(n'.replies, h) + Unanswered(n', h) == RepliesFor(n.replies, h) + Unanswered(n, h)
  {
    hide Decoded, Finish, RepliesFor;
    if g in n.active && n.active[g].shards[index].None? {
      var f := n.active[g];
      var f1 := f.(shards := f.shards[index := Some(data)], received := f.received + 1);
      if f1.received >= DATA_SHARDS {
        FinishSpends(n.(active := n.active[g := f1]), g, ToOption(Decoded(f1.shards, f1.originalSize)), h);
      }
    }
  }

  lemma FailureSpends(n: Node, g: Hash, h: Hash)
    ensures var n' := CountFailure(n, g);
            RepliesFor(n'.replies, h) + Unanswered(n', h) == RepliesFor(n.replies, h) + Unanswered(n, h)
  {
    hide Finish, RepliesFor;
    if g in n.active {
      FinishSpends(n.(active := n.active[g := n.active[g].(failed := n.active[g].failed + 1)]), g, None, h);
    }
  }

  lemma StepSpends(n: Node, e: Event, h: Hash)
    requires WellFormed(n) && Enabled(n, e)
    ensures SpendsAtMost(n, e, Step(n, e), h)
  {
    hide RepliesFor, AsksFor, AcceptShard, CountFailure, Decoded, Finish, LocalShards, WithRequests, Count;
    match e
    case Downloads(g, q, local, self, sent) =>
      if local.manifest.Some? {
        WithRequestsKeeps(n, g, sent);
        StartSpends(WithRequests(n, g, sent), g, local.manifest.value,
            LocalShards(local.manifest.value, local, self), h);
      }
    case ManifestComes(q, m, sent) =>
      if q in n.queries { ManifestSpends(n, q, m, sent, h); }
    case NoManifest(q) =>
      if q in n.queries && n.queries[q] in n.active {
        FinishSpends(n.(queries := n.queries - {q}), n.queries[q], None, h);
      }
    case ShardComes(r, data) =>
      if r in n.requests {
        SoundDrop(n, r);
        AcceptSpends(n.(requests := n.requests - {r}), n.requests[r].0, n.requests[r].1, data, h);
      }
    case ShardLost(r) =>
      if r in n.requests { FailureSpends(n.(requests := n.requests - {r}), n.requests[r].0, h); }
  }

  lemma StartSpends(n: Node, g: Hash, m: Manifest, shards: Received, h: Hash)
    requires |shards| == TOTAL_SHARDS
    ensures var n' := StartWith(n, g, m, shards);
            RepliesFor(n'.replies, h) + Unanswered(n', h)
            <= RepliesFor(n.replies, h) + Unanswered(n, h) + if g == h then 1 else 0
  {
    hide RepliesFor, Count, Decoded;
    if Count(shards, 0) >= DATA_SHARDS && Decoded(shards, m.size).Ok? {
      OneMoreReply(n.replies, (g, Some(Decoded(shards, m.size).value)), h);
    }
  }

  lemma ManifestSpends(n: Node, q: QueryId, m: Option<Manifest>, sent: map<RequestId, nat>, h: Hash)
    requires q in n.queries
    ensures var n' := ManifestArrives(n, q, m, sent);
            n'.replies == n.replies && Unanswered(n', h) == Unanswered(n, h)
  {
  }

  lemma SoundDrop(n: Node, r: RequestId)
    requires WellFormed(n)
    ensures WellFormed(n.(requests := n.requests - {r}))
  {
  }

  function DownloadsOf(es: seq<Event>, h: Hash): nat {
    if es == [] then 0 else (if IsDownload(es[0], h) then 1 else 0) + DownloadsOf(es[1..], h)
  }

  /** However answers are ordered, delayed or forged, and however downloads of one
      hash overlap: a hash has at most as many answers as it has had downloads. */
  lemma {:induction false} AnsweredAtMostOnce(rule: Rule, n: Node, es: seq<Event>, n': Node, h: Hash)
    requires Path(rule, n, es, n')
    ensures RepliesFor(n'.replies, h) + Unanswered(n', h)
              <= RepliesFor(n.replies, h) + Unanswered(n, h) + DownloadsOf(es, h)
    decreases |es|
  {
    hide Step, Enabled, Genuine, RepliesFor, Unanswered;
    if es != [] {
      StepSpends(n, es[0], h);
      AnsweredAtMostOnce(rule, Step(n, es[0]), es[1..], n', h);
    }
  }

  /** A download that is not answered at once takes the place of one of the same
      hash that is open: however many callers were waiting, from then on there are
      no more answers than new downloads, so the earlier ones get none. */
  lemma ReplacedNeverAnswered(rule: Rule, n: Node, e: Event, es: seq<Event>, n': Node, h: Hash)
    requires Admits(rule, n, e) && IsDownload(e, h)
    requires e.local.manifest.Some? ==>
               Count(LocalShards(e.local.manifest.value, e.local, e.self), 0) < DATA_SHARDS
    requires Path(rule, Step(n, e), es, n')
    ensures RepliesFor(n'.replies, h) + Unanswered(n', h) <= RepliesFor(n.replies, h) + 1 + DownloadsOf(es, h)
  {
    hide Enabled, Genuine, RepliesFor, Path, LocalShards, Count, WithRequests, NotInFlight;
    if e.local.manifest.Some? { WithRequestsKeeps(n, h, e.sent); }
    assert Step(n, e).replies == n.replies;
    AnsweredAtMostOnce(rule, Step(n, e), es, n', h);
  }

  // ----- Data -----

  lemma IdleSound(w: World)
    ensures NodeSound(w, Idle()) && QueriesSound(Idle()) && FewBegun(Idle()) && AllRight(w, Idle().replies)
  {
  }

  lemma {:induction false} PathKeepsSound(rule: Rule, n: Node, es: seq<Event>, n': Node)
    requires rule.GenuineEvents? || rule.OneAtATime?
    requires Path(rule, n, es, n') && NodeSound(rule.w, n)
    ensures NodeSound(rule.w, n')
    decreases |es|
  {
    hide Step, Enabled, Genuine, NodeSound;
    if es != [] {
      StepKeepsSound(rule.w, n, es[0]);
      PathKeepsSound(rule, Step(n, es[0]), es[1..], n');
    }
  }

  /** The event has its caller given `data` for `h`. */
  ghost predicate TellsData(n: Node, e: Event, h: Hash, data: Bytes)
    requires WellFormed(n)
  {
    Step(n, e).replies == n.replies + [(h, Some(data))]
  }

  /** In every run with unaltered peers, downloads overlapping or not: whoever is
      given data is given what was uploaded exactly if the length was known, which
      is to say if the manifest came before the thirtieth shard; otherwise it is
      an empty file. */
  lemma DataRightIff(w: World, es: seq<Event>, n: Node, e: Event, h: Hash, data: Bytes)
    requires Path(GenuineEvents(w), Idle(), es, n) && Admits(GenuineEvents(w), n, e) && TellsData(n, e, h, data)
    ensures Uploaded(w, h) && (data == w[h] <==> LengthKnown(n, e, h)) && (data == [] <==> !LengthKnown(n, e, h))
  {
    hide Step, Enabled, Genuine, NodeSound, LengthKnown, Path;
    IdleSound(w);
    PathKeepsSound(GenuineEvents(w), Idle(), es, n);
    StepKeepsSound(w, n, e);
    assert n.replies + [(h, Some(data))] != n.replies;
    var g, answer :| Step(n, e).replies == n.replies + [(g, answer)]
      && (answer.Some? ==> Uploaded(w, g) && answer.value == if LengthKnown(n, e, g) then w[g] else []);
    assert (n.replies + [(h, Some(data))])[|n.replies|] == (n.replies + [(g, answer)])[|n.replies|];
  }

  // ----- One download of a hash at a time -----

  /** A search is for a fetch that has no manifest yet, or for one that is over. */
  ghost predicate QueriesSound(n: Node) {
    && (forall q :: q in n.queries && n.queries[q] in n.active ==> n.active[n.queries[q]].manifest == None)
    && (forall p, q :: p in n.queries && q in n.queries && n.queries[p] == n.queries[q] ==> p == q)
  }

  lemma StepKeepsQueries(w: World, n: Node, e: Event)
    requires QueriesSound(n) && Admits(OneAtATime(w), n, e)
    ensures QueriesSound(Step(n, e))
  {
    hide Genuine, AsksFor, Decoded, Count, LocalShards, ShardArrives, ShardFails, WithRequests, NoShards;
    match e
    case Downloads(g, _, local, _, sent) => if local.manifest.Some? { WithRequestsKeeps(n, g, sent); }
    case ManifestComes(q, m, sent) => if q in n.queries && m.Some? { ManifestKeepsQueries(n, q, m.value, sent); }
    case NoManifest(q) =>
    case ShardComes(r, data) => ShardKeepsQueries(n, r, data);
    case ShardLost(r) => ShardKeepsQueries(n, r, []);
  }

  lemma ManifestKeepsQueries(n: Node, q: QueryId, m: Manifest, sent: map<RequestId, nat>)
    requires QueriesSound(n) && q in n.queries
    ensures QueriesSound(ManifestArrives(n, q, Some(m), sent))
  {
    hide WithRequests;
    var g, n1 := n.queries[q], n.(queries := n.queries - {q});
    var n2 := if g in n1.active
              then n1.(active := n1.active[g := n1.active[g].(manifest := Some(m), originalSize := m.size)]) else n1;
    WithRequestsKeeps(n2, g, sent);
  }

  lemma ShardKeepsQueries(n: Node, r: RequestId, data: Bytes)
    requires QueriesSound(n) && WellFormed(n)
    ensures QueriesSound(ShardArrives(n, r, data)) && QueriesSound(ShardFails(n, r))
  {
    hide Decoded;
  }

  lemma {:induction false} PathKeepsQueries(w: World, n: Node, es: seq<Event>, n': Node)
    requires Path(OneAtATime(w), n, es, n') && QueriesSound(n)
    ensures QueriesSound(n')
    decreases |es|
  {
    hide Step, Enabled, Genuine, NotInFlight, QueriesSound;
    if es != [] {
      StepKeepsQueries(w, n, es[0]);
      PathKeepsQueries(w, Step(n, es[0]), es[1..], n');
    }
  }

  /** The shards of `h` that some request is under way for. */
  function Awaited(n: Node, h: Hash): set<nat> {
    set r | r in n.requests && n.requests[r].0 == h :: n.requests[r].1
  }

  ghost predicate NoDownloadOf(es: seq<Event>, h: Hash) { forall e :: e in es ==> !IsDownload(e, h) }

  /** A download of `h` that has begun among requests for the shards `prior`: it is
      over, or it has its manifest, or all that it has and awaits is of `prior`. */
  ghost predicate BegunAmong(n: Node, h: Hash, prior: set<nat>) {
    h in n.active && n.active[h].manifest == None ==> Filled(n.active[h].shards) <= prior && Awaited(n, h) <= prior
  }

  lemma AwaitedLess(n: Node, r: RequestId, h: Hash)
    ensures Awaited(n.(requests := n.requests - {r}), h) <= Awaited(n, h)
  {
  }

  lemma AwaitedElsewhere(n: Node, g: Hash, sent: map<RequestId, nat>, h: Hash)
    requires g != h
    ensures Awaited(WithRequests(n, g, sent), h) <= Awaited(n, h)
  {
  }

  lemma AwaitedByRequests(n: Node, n': Node, h: Hash)
    requires n'.requests == n.requests
    ensures Awaited(n', h) == Awaited(n, h)
  {
  }

  lemma BegunUnchanged(n: Node, n': Node, h: Hash, prior: set<nat>)
    requires BegunAmong(n, h, prior) && Awaited(n', h) <= Awaited(n, h)
    requires h in n'.active ==>
               h in n.active && n'.active[h].shards == n.active[h].shards
               && n'.active[h].manifest == n.active[h].manifest
    ensures BegunAmong(n', h, prior)
  {
  }

  lemma ShardKeepsBegun(n: Node, r: RequestId, data: Bytes, h: Hash, prior: set<nat>)
    requires WellFormed(n) && BegunAmong(n, h, prior)
    ensures BegunAmong(ShardArrives(n, r, data), h, prior) && BegunAmong(ShardFails(n, r), h, prior)
  {
    hide Decoded, Awaited;
    if r in n.requests {
      AwaitedLess(n, r, h);
      var n0 := n.(requests := n.requests - {r});
      AwaitedByRequests(n0, ShardArrives(n, r, data), h);
      AwaitedByRequests(n0, ShardFails(n, r), h);
      assert n.requests[r].0 == h ==> n.requests[r].1 in Awaited(n, h) by { IsAwaited(n, r); }
    }
  }

  lemma IsAwaited(n: Node, r: RequestId)
    requires r in n.requests
    ensures n.requests[r].1 in Awaited(n, n.requests[r].0)
  {
  }

  lemma OtherKeepsBegun(w: World, n: Node, e: Event, h: Hash, prior: set<nat>)
    requires Admits(OneAtATime(w), n, e) && BegunAmong(n, h, prior) && !IsDownload(e, h)
               && !e.ShardComes? && !e.ShardLost?
    ensures BegunAmong(Step(n, e), h, prior)
  {
    hide Genuine, AsksFor, Decoded, Count, LocalShards, Awaited, Filled, WithRequests;
    var n' := Step(n, e);
    match e
    case Downloads(g, _, local, _, sent) =>
      if local.manifest.Some? {
        AwaitedElsewhere(n, g, sent, h);
        WithRequestsKeeps(n, g, sent);
        AwaitedByRequests(WithRequests(n, g, sent), n', h);
      } else {
        AwaitedByRequests(n, n', h);
      }
      BegunUnchanged(n, n', h, prior);
    case ManifestComes(q, m, sent) =>
      if q in n.queries && m.Some? {
        ManifestKeepsBegun(n, q, m.value, sent, h, prior);
      } else {
        AwaitedByRequests(n, n', h);
      }
    case NoManifest(q) => AwaitedByRequests(n, n', h);
  }

  lemma ManifestKeepsBegun(n: Node, q: QueryId, m: Manifest, sent: map<RequestId, nat>, h: Hash, prior: set<nat>)
    requires q in n.queries && BegunAmong(n, h, prior)
    ensures BegunAmong(ManifestArrives(n, q, Some(m), sent), h, prior)
  {
    hide Awaited, Filled, WithRequests;
    var g := n.queries[q];
    var n1 := n.(queries := n.queries - {q});
    var n2 := if g in n1.active
        then n1.(active := n1.active[g := n1.active[g].(manifest := Some(m), originalSize := m.size)]) else n1;
    WithRequestsKeeps(n2, g, sent);
    AwaitedByRequests(n, n2, h);
    if g != h { AwaitedElsewhere(n2, g, sent, h); }
  }

  lemma StepKeepsBegun(w: World, n: Node, e: Event, h: Hash, prior: set<nat>)
    requires Admits(OneAtATime(w), n, e) && BegunAmong(n, h, prior) && !IsDownload(e, h)
    ensures BegunAmong(Step(n, e), h, prior)
  {
    hide Enabled, Genuine, BegunAmong;
    match e
    case ShardComes(r, data) => ShardKeepsBegun(n, r, data, h, prior);
    case ShardLost(r) => ShardKeepsBegun(n, r, [], h, prior);
    case _ => OtherKeepsBegun(w, n, e, h, prior);
  }

  lemma {:induction false} PathKeepsBegun(w: World, n: Node, es: seq<Event>, n': Node, h: Hash, prior: set<nat>)
    requires Path(OneAtATime(w), n, es, n') && BegunAmong(n, h, prior) && NoDownloadOf(es, h)
    ensures BegunAmong(n', h, prior)
    decreases |es|
  {
    hide Step, Enabled, Genuine, NotInFlight, BegunAmong;
    if es != [] {
      StepKeepsBegun(w, n, es[0], h, prior);
      PathKeepsBegun(w, Step(n, es[0]), es[1..], n', h, prior);
    }
  }

  lemma BegunTooFew(w: World, n: Node, r: RequestId, data: Bytes, h: Hash, prior: set<nat>)
    requires NodeSound(w, n) && BegunAmong(n, h, prior) && |prior| < DATA_SHARDS
               && r in n.requests && n.requests[r].0 == h
    requires h in n.active && n.active[h].manifest == None
    ensures ShardArrives(n, r, data).replies == n.replies
  {
    hide Count, GenuineShard, Decoded, Awaited, Filled;
    var f, index := n.active[h], n.requests[r].1;
    assert FetchSound(w, h, f);
    IsAwaited(n, r);
    if f.shards[index].None? {
      var shards := f.shards[index := Some(data)];
      FillOne(f.shards, index, data);
      CountFilled(shards);
      FilledWith(f.shards, index, data);
      SubsetSize(Filled(shards), prior);
    }
  }

  lemma FilledWith(shards: Received, index: nat, data: Bytes)
    requires index < |shards|
    ensures Filled(shards[index := Some(data)]) == Filled(shards) + {index}
  {
  }

  lemma SilentOrNone(n: Node, e: Event, h: Hash, data: Bytes)
    requires WellFormed(n) && TellsData(n, e, h, data)
    ensures !e.ManifestComes? && !e.NoManifest? && !e.ShardLost?
    ensures e.ShardComes? ==> e.request in n.requests && n.requests[e.request].0 == h && h in n.active
  {
    hide Decoded, Download, WithRequests;
    var told := n.replies + [(h, Some(data))];
    assert told != n.replies && told[|n.replies|] == (h, Some(data));
    assert forall g :: (n.replies + [(g, None)])[|n.replies|] == (g, None);
    match e
    case ManifestComes(q, m, sent) => if q in n.queries { ManifestSpends(n, q, m, sent, h); }
    case ShardComes(r, d) =>
      if r in n.requests {
        var g := n.requests[r].0;
        assert forall a :: (n.replies + [(g, a)])[|n.replies|] == (g, a);
      }
    case _ =>
  }

  /** Until the manifest comes, fewer than thirty awaited shards are too few. */
  lemma BegunTellsRight(w: World, n: Node, e: Event, h: Hash, prior: set<nat>, data: Bytes)
    requires NodeSound(w, n) && Admits(OneAtATime(w), n, e) && BegunAmong(n, h, prior) && |prior| < DATA_SHARDS
    requires TellsData(n, e, h, data)
    ensures LengthKnown(n, e, h)
  {
    hide Enabled, NodeSound, BegunAmong, Genuine, NotInFlight, ShardArrives, ShardFails, Download, ManifestArrives;
    SilentOrNone(n, e, h, data);
    assert n.replies + [(h, Some(data))] != n.replies;
    if e.ShardComes? && n.active[h].manifest == None {
      BegunTooFew(w, n, e.request, e.data, h, prior);
    }
  }

  // ----- When a new download of a file is safe -----

  /** Some thirty different shards of `h` are under way, for the requests `rs`. */
  ghost predicate UnderWay(n: Node, h: Hash, rs: seq<RequestId>) {
    && (forall i :: 0 <= i < |rs| ==> rs[i] in n.requests && n.requests[rs[i]].0 == h)
    && (forall i, j :: 0 <= i < j < |rs| ==> n.requests[rs[i]].1 != n.requests[rs[j]].1)
  }

  lemma {:induction false} PickRequests(n: Node, h: Hash, indices: set<nat>, k: nat) returns (rs: seq<RequestId>)
    requires indices <= Awaited(n, h) && k <= |indices|
    ensures UnderWay(n, h, rs) && |rs| == k && forall i :: 0 <= i < k ==> n.requests[rs[i]].1 in indices
    decreases k
  {
    if k == 0 {
      rs := [];
    } else {
      var index :| index in indices;
      var r :| r in n.requests && n.requests[r].0 == h && n.requests[r].1 == index;
      var rest := PickRequests(n, h, indices - {index}, k - 1);
      rs := [r] + rest;
    }
  }

  /** A fetch without a manifest that has received nothing of what `rs` ask for. */
  ghost predicate Expecting(n: Node, h: Hash, rs: seq<RequestId>) {
    && UnderWay(n, h, rs) && h in n.active && n.active[h].manifest == None
    && n.active[h].received + |rs| == DATA_SHARDS
    && forall i :: 0 <= i < |rs| ==>
         n.requests[rs[i]].1 < |n.active[h].shards| && n.active[h].shards[n.requests[rs[i]].1].None?
  }

  /** Thirty answers in a row, none of them the manifest, give an empty file. */
  lemma {:induction false} AnsweredWithNothing(w: World, n: Node, h: Hash, rs: seq<RequestId>)
      returns (es: seq<Event>, last: Node, e: Event)
    requires NodeSound(w, n) && Uploaded(w, h) && Expecting(n, h, rs) && rs != []
    ensures Path(OneAtATime(w), n, es, last) && NoDownloadOf(es, h) && Admits(OneAtATime(w), last, e)
              && !IsDownload(e, h)
    ensures TellsData(last, e, h, [])
    decreases |rs|
  {
    hide NodeSound, Codeword, Expecting, Step, TellsData;
    SoundIsWellFormed(w, n);
    e := ShardComes(rs[0], FirstAnswer(w, n, h, rs));
    FirstAdmitted(w, n, h, rs);
    if |rs| == 1 {
      es, last := [], n;
      LastTells(w, n, h, rs);
    } else {
      var n' := Step(n, e);
      StepKeepsSound(w, n, e);
      MoreExpected(w, n, h, rs);
      var rest;
      var first := e;
      rest, last, e := AnsweredWithNothing(w, n', h, rs[1..]);
      es := [first] + rest;
      assert es[1..] == rest && forall x :: x in es ==> x == first || x in rest;
    }
  }

  ghost function FirstAnswer(w: World, n: Node, h: Hash, rs: seq<RequestId>): Bytes
    requires Uploaded(w, h) && WellFormed(n) && Expecting(n, h, rs) && rs != []
  {
    Codeword(w, h)[n.requests[rs[0]].1]
  }

  lemma FirstAdmitted(w: World, n: Node, h: Hash, rs: seq<RequestId>)
    requires Uploaded(w, h) && WellFormed(n) && Expecting(n, h, rs) && rs != []
    ensures Admits(OneAtATime(w), n, ShardComes(rs[0], FirstAnswer(w, n, h, rs)))
  {
    hide Codeword;
  }

  lemma MoreExpected(w: World, n: Node, h: Hash, rs: seq<RequestId>)
    requires NodeSound(w, n) && Uploaded(w, h) && WellFormed(n) && Expecting(n, h, rs) && |rs| > 1
    ensures Expecting(Step(n, ShardComes(rs[0], FirstAnswer(w, n, h, rs))), h, rs[1..])
  {
    hide Codeword, Decoded, Count, GenuineShard;
  }

  lemma LastTells(w: World, n: Node, h: Hash, rs: seq<RequestId>)
    requires NodeSound(w, n) && Uploaded(w, h) && WellFormed(n) && Expecting(n, h, rs) && |rs| == 1
    ensures TellsData(n, ShardComes(rs[0], FirstAnswer(w, n, h, rs)), h, [])
  {
    hide Codeword, Decoded, Count, AcceptShard;
    AcceptSound(w, n, n.(requests := n.requests - {rs[0]}), h, n.requests[rs[0]].1, FirstAnswer(w, n, h, rs));
  }

  /** Events after `n`, none of them a new download of `h`, at the end of which
      the caller is given `data`. */
  ghost predicate GivesAtLast(w: World, n: Node, h: Hash, es: seq<Event>, last: Node, e: Event, data: Bytes) {
    && Path(OneAtATime(w), n, es, last) && NoDownloadOf(es, h)
    && Admits(OneAtATime(w), last, e) && !IsDownload(e, h) && TellsData(last, e, h, data)
  }

  ghost predicate OnlyGives(w: World, n: Node, h: Hash, data: Bytes) {
    forall es, last, e, given :: GivesAtLast(w, n, h, es, last, e, given) ==> given == data
  }

  lemma JustBegun(w: World, n: Node, e: Event, h: Hash)
    requires Admits(OneAtATime(w), n, e) && IsDownload(e, h) && e.local.manifest == None
    ensures BegunAmong(Step(n, e), h, Awaited(n, h)) && Step(n, e).requests == n.requests
    ensures h in Step(n, e).active && Step(n, e).active[h] == Fetch(true, NoShards(), 0, 0, 0, None)
  {
    hide Genuine;
    AwaitedByRequests(n, Step(n, e), h);
    NoShardsCount();
  }

  lemma GivenRight(w: World, n: Node, h: Hash, prior: set<nat>, es: seq<Event>, last: Node, e: Event, data: Bytes)
    requires NodeSound(w, n) && BegunAmong(n, h, prior) && |prior| < DATA_SHARDS
               && GivesAtLast(w, n, h, es, last, e, data)
    ensures Uploaded(w, h) && data == w[h]
  {
    hide NodeSound, BegunAmong, Enabled, Genuine, NotInFlight, TellsData, Path;
    PathKeepsBegun(w, n, es, last, h, prior);
    PathKeepsSound(OneAtATime(w), n, es, last);
    BegunTellsRight(w, last, e, h, prior, data);
    TellsRight(w, last, e, h, data);
  }

  lemma TellsRight(w: World, n: Node, e: Event, h: Hash, data: Bytes)
    requires NodeSound(w, n) && Enabled(n, e) && Genuine(w, n, e) && WellFormed(n) && TellsData(n, e, h, data)
    ensures Uploaded(w, h) && data == if LengthKnown(n, e, h) then w[h] else []
  {
    hide NodeSound, Enabled, Genuine, LengthKnown, Step;
    StepKeepsSound(w, n, e);
    assert n.replies + [(h, Some(data))] != n.replies;
    var g, answer :| Step(n, e).replies == n.replies + [(g, answer)]
      && (answer.Some? ==> Uploaded(w, g) && answer.value == if LengthKnown(n, e, g) then w[g] else []);
    assert (n.replies + [(h, Some(data))])[|n.replies|] == (n.replies + [(g, answer)])[|n.replies|];
  }

  /** Any download, with none of the file open: whatever comes after it, what its
      caller may be given is the file, exactly if the manifest is at hand or the
      requests still under way are for fewer than thirty of its shards. */
  lemma DownloadRightIff(w: World, n: Node, e: Event, h: Hash)
    requires NodeSound(w, n) && Uploaded(w, h) && Admits(OneAtATime(w), n, e) && IsDownload(e, h)
    ensures OnlyGives(w, Step(n, e), h, w[h]) <==> e.local.manifest.Some? || |Awaited(n, h)| < DATA_SHARDS
  {
    hide NodeSound, Enabled, Genuine, NotInFlight, Step, GivesAtLast, Awaited, BegunAmong;
    StepKeepsSound(w, n, e);
    var n0 := Step(n, e);
    if e.local.manifest.Some? {
      KnownBegun(w, n, e, h);
      OnlyRight(w, n0, h, {});
    } else if |Awaited(n, h)| < DATA_SHARDS {
      JustBegun(w, n, e, h);
      OnlyRight(w, n0, h, Awaited(n, h));
    } else {
      JustBegun(w, n, e, h);
      var rs := PickRequests(n, h, Awaited(n, h), DATA_SHARDS);
      ExpectingAll(w, n, n0, h, rs);
      var es, last, x := AnsweredWithNothing(w, n0, h, rs);
      assert GivesAtLast(w, n0, h, es, last, x, []) by { GivesNothing(w, n0, h, es, last, x); }
    }
  }

  lemma OnlyRight(w: World, n: Node, h: Hash, prior: set<nat>)
    requires NodeSound(w, n) && Uploaded(w, h) && BegunAmong(n, h, prior) && |prior| < DATA_SHARDS
    ensures OnlyGives(w, n, h, w[h])
  {
    hide NodeSound, GivesAtLast, BegunAmong;
    forall es, last, x, given | GivesAtLast(w, n, h, es, last, x, given) ensures given == w[h] {
      GivenRight(w, n, h, prior, es, last, x, given);
    }
  }

  lemma GivesNothing(w: World, n: Node, h: Hash, es: seq<Event>, last: Node, e: Event)
    requires Path(OneAtATime(w), n, es, last) && NoDownloadOf(es, h)
    requires Admits(OneAtATime(w), last, e) && !IsDownload(e, h) && TellsData(last, e, h, [])
    ensures GivesAtLast(w, n, h, es, last, e, [])
  {
  }

  lemma ExpectingAll(w: World, n: Node, n0: Node, h: Hash, rs: seq<RequestId>)
    requires WellFormed(n) && UnderWay(n, h, rs) && |rs| == DATA_SHARDS && n0.requests == n.requests
    requires h in n0.active && n0.active[h] == Fetch(true, NoShards(), 0, 0, 0, None)
    ensures Expecting(n0, h, rs)
  {
    NoShardsCount();
  }

  // ----- Careful callers -----

  ghost predicate AllRight(w: World, replies: seq<(Hash, Option<Bytes>)>) {
    forall i :: 0 <= i < |replies| && replies[i].1.Some? ==>
        Uploaded(w, replies[i].0) && replies[i].1.value == w[replies[i].0]
  }

  /** No download without a manifest begins among requests for thirty shards. */
  ghost predicate Careful(n: Node, e: Event) {
    e.Downloads? && e.local.manifest == None ==> |Awaited(n, e.hash)| < DATA_SHARDS
  }

  ghost predicate CarefulPath(w: World, n: Node, es: seq<Event>, n': Node)
    decreases |es|
  {
    if es == [] then n' == n
    else Admits(OneAtATime(w), n, es[0]) && Careful(n, es[0]) && CarefulPath(w, Step(n, es[0]), es[1..], n')
  }

  ghost predicate FewBegun(n: Node) {
    forall h :: h in n.active ==> exists prior :: BegunAmong(n, h, prior) && |prior| < DATA_SHARDS
  }

  lemma CarefulKeepsFew(w: World, n: Node, e: Event)
    requires Admits(OneAtATime(w), n, e) && Careful(n, e) && FewBegun(n)
    ensures FewBegun(Step(n, e))
  {
    hide Enabled, Genuine, Awaited, Step, BegunAmong;
    forall h | h in Step(n, e).active
      ensures exists prior :: BegunAmong(Step(n, e), h, prior) && |prior| < DATA_SHARDS
    {
      if IsDownload(e, h) && e.local.manifest == None {
        JustBegun(w, n, e, h);
      } else if IsDownload(e, h) {
        KnownBegun(w, n, e, h);
        assert BegunAmong(Step(n, e), h, {});
      } else {
        StillActive(w, n, e, h);
        var prior :| BegunAmong(n, h, prior) && |prior| < DATA_SHARDS;
        StepKeepsBegun(w, n, e, h, prior);
      }
    }
  }

  lemma KnownBegun(w: World, n: Node, e: Event, h: Hash)
    requires Admits(OneAtATime(w), n, e) && IsDownload(e, h) && e.local.manifest.Some?
    ensures BegunAmong(Step(n, e), h, {})
  {
    hide Genuine, Awaited, Filled, Decoded, Count, LocalShards, AsksFor;
  }

  lemma StillActive(w: World, n: Node, e: Event, h: Hash)
    requires Admits(OneAtATime(w), n, e) && !IsDownload(e, h) && h in Step(n, e).active
    ensures h in n.active
  {
    hide Genuine, Decoded, Count, LocalShards, AsksFor;
  }

  lemma AllRightMore(w: World, n: Node, e: Event)
    requires NodeSound(w, n) && Admits(OneAtATime(w), n, e) && FewBegun(n) && AllRight(w, n.replies)
    ensures AllRight(w, Step(n, e).replies)
  {
    hide Enabled, Genuine, NodeSound, Step, LengthKnown, BegunAmong, TellsData;
    StepKeepsSound(w, n, e);
    if Step(n, e).replies != n.replies {
      var h, answer :| Step(n, e).replies == n.replies + [(h, answer)]
        && (answer.Some? ==> Uploaded(w, h) && answer.value == if LengthKnown(n, e, h) then w[h] else []);
      if answer.Some? { GivenKnown(w, n, e, h, answer.value); }
    }
  }

  lemma GivenKnown(w: World, n: Node, e: Event, h: Hash, data: Bytes)
    requires NodeSound(w, n) && Admits(OneAtATime(w), n, e) && FewBegun(n)
    requires Step(n, e).replies == n.replies + [(h, Some(data))]
    ensures LengthKnown(n, e, h)
  {
    hide Enabled, Genuine, NodeSound, Step, BegunAmong;
    SilentOrNone(n, e, h, data);
    if !e.Downloads? {
      var prior :| BegunAmong(n, h, prior) && |prior| < DATA_SHARDS;
      BegunTellsRight(w, n, e, h, prior, data);
    }
  }

  /** In every run in which a file is downloaded once at a time, and not while
      thirty of its shards are under way, all data that callers are given is what
      was uploaded, whatever the order of answers. */
  lemma {:induction false} DataRepliedIsDataUploaded(w: World, n: Node, es: seq<Event>, n': Node)
    requires CarefulPath(w, n, es, n') && NodeSound(w, n) && FewBegun(n) && AllRight(w, n.replies)
    ensures AllRight(w, n'.replies)
    decreases |es|
  {
    hide Enabled, Genuine, NodeSound, Step, FewBegun, AllRight, Careful, NotInFlight;
    if es != [] {
      StepKeepsSound(w, n, es[0]);
      CarefulKeepsFew(w, n, es[0]);
      AllRightMore(w, n, es[0]);
      DataRepliedIsDataUploaded(w, Step(n, es[0]), es[1..], n');
    }
  }
}
