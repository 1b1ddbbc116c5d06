/** What downloads tell their callers, for every order of commands and answers,
    downloads of one hash overlapping or not. */
module FetchSafety {
  import opened Wrappers
  import opened ErasureCoding
  import opened FetchProtocol

  /** What was uploaded under each hash. */
  type World = map<Hash, Bytes>

  ghost predicate Uploaded(w: World, h: Hash) { h in w && w[h] != [] }

  ghost function Codeword(w: World, h: Hash): (s: Shards)
    requires Uploaded(w, h)
    ensures |s| == TOTAL_SHARDS
  {
    Encoded(w[h]).value
  }

  function Filled(shards: Received): set<nat> {
    set i | 0 <= i < |shards| && shards[i].Some?
  }

  ghost predicate GenuineManifest(w: World, h: Hash, m: Manifest) {
    Uploaded(w, h) && m.size == |w[h]| && forall i :: i in m.shards <==> 0 <= i < TOTAL_SHARDS
  }

  ghost predicate GenuineShard(w: World, h: Hash, i: nat, data: Bytes) {
    Uploaded(w, h) && i < TOTAL_SHARDS && data == Codeword(w, h)[i]
  }

  /** What a node holds of a file, under a manifest that it holds too. */
  ghost predicate LocalGenuine(w: World, h: Hash, local: Local)
    requires local.manifest.Some?
  {
    && GenuineManifest(w, h, local.manifest.value)
    && forall i :: i in local.chunks && i < TOTAL_SHARDS ==> GenuineShard(w, h, i, local.chunks[i])
  }

  /** Peers may lose what they were given but do not alter it. */
  ghost predicate Genuine(w: World, n: Node, e: Event) {
    match e
    case Downloads(h, q, local, self, sent) => local.manifest.Some? ==> LocalGenuine(w, h, local)
    case ManifestComes(q, m, sent) => q in n.queries && m.Some? ==> GenuineManifest(w, n.queries[q], m.value)
    case ShardComes(r, data) => r in n.requests ==> GenuineShard(w, n.requests[r].0, n.requests[r].1, data)
    case _ => true
  }

  // ----- The invariant -----

  /** An open fetch has shards of its own file only, and counts them exactly; it
      knows the length from its manifest, and takes it for zero before. */
  ghost predicate FetchSound(w: World, h: Hash, f: Fetch) {
    && f.pending && |f.shards| == TOTAL_SHARDS && f.received == Count(f.shards, 0) < DATA_SHARDS
    && (forall i: nat :: i < |f.shards| && f.shards[i].Some? ==> GenuineShard(w, h, i, f.shards[i].value))
    && (if f.manifest.Some? then Uploaded(w, h) && f.originalSize == |w[h]| else f.originalSize == 0)
  }

  ghost predicate NodeSound(w: World, n: Node) {
    WellFormed(n) && forall h :: h in n.active ==> FetchSound(w, h, n.active[h])
  }

  // ----- Counting -----

  lemma {:induction false} CountIsFilled(shards: Received, from: nat)
    requires from <= |shards|
    ensures Count(shards, from) == |set i | i in Filled(shards) && i >= from|
    decreases |shards| - from
  {
    var here := set i | i in Filled(shards) && i >= from;
    if from == |shards| {
      assert here == {};
    } else {
      var rest := set i | i in Filled(shards) && i >= from + 1;
      CountIsFilled(shards, from + 1);
      assert here == if shards[from].Some? then rest + {from} else rest;
    }
  }

  lemma CountFilled(shards: Received)
    ensures Count(shards, 0) == |Filled(shards)|
  {
    hide Count;
    CountIsFilled(shards, 0);
    assert (set i | i in Filled(shards) && i >= 0) == Filled(shards);
  }

  lemma FillOne(shards: Received, index: nat, data: Bytes)
    requires index < |shards| && shards[index].None?
    ensures Count(shards[index := Some(data)], 0) == Count(shards, 0) + 1
  {
    hide Count;
    CountFilled(shards);
    CountFilled(shards[index := Some(data)]);
    assert Filled(shards[index := Some(data)]) == Filled(shards) + {index};
  }

  lemma NoShardsCount()
    ensures Count(NoShards(), 0) == 0 && |NoShards()| == TOTAL_SHARDS
    ensures forall i :: 0 <= i < TOTAL_SHARDS ==> NoShards()[i] == None
  {
    hide Count;
    CountFilled(NoShards());
    assert Filled(NoShards()) == {};
  }

  // ----- Decoding -----

  lemma DecodesRight(w: World, h: Hash, shards: Received)
    requires Uploaded(w, h) && SurvivorsOf(shards, Codeword(w, h)) && Count(shards, 0) >= DATA_SHARDS
    ensures ToOption(Decoded(shards, |w[h]|)) == Some(w[h])
  {
    hide Decoded, Encoded, Count;
    RoundTrip(w[h], shards);
  }

  lemma DecodesToNothing(w: World, h: Hash, shards: Received)
    requires Uploaded(w, h) && SurvivorsOf(shards, Codeword(w, h)) && Count(shards, 0) >= DATA_SHARDS
    ensures Decoded(shards, 0) == Ok([])
  {
    hide Count, Concat, Reconstruct, WithParity, Stripes;
    EnoughWindows(|w[h]|);
    ReconstructsCodeword(Stripes(w[h]), ShardSize(|w[h]|), shards);
  }

  /** What the thirtieth shard yields: the file if the length is known, and an
      empty one while it is taken for zero. */
  lemma ThirtiethDecodes(w: World, h: Hash, f: Fetch, index: nat, data: Bytes)
    requires FetchSound(w, h, f) && GenuineShard(w, h, index, data) && f.shards[index].None?
               && f.received + 1 == DATA_SHARDS
    ensures ToOption(Decoded(f.shards[index := Some(data)], f.originalSize))
              == Some(if f.manifest.Some? then w[h] else [])
  {
    hide Count, Codeword, Decoded;
    var shards := f.shards[index := Some(data)];
    FillOne(f.shards, index, data);
    forall i | 0 <= i < |shards| && shards[i].Some? ensures shards[i].value == Codeword(w, h)[i] {
      assert i != index ==> GenuineShard(w, h, i, f.shards[i].value);
    }
    if f.manifest.Some? { DecodesRight(w, h, shards); } else { DecodesToNothing(w, h, shards); }
  }

  // ----- One event -----

  /** Does the node know the file's length when the event comes? */
  ghost predicate LengthKnown(n: Node, e: Event, h: Hash) {
    e.Downloads? || (h in n.active && n.active[h].manifest.Some?)
  }

  /** What an event may tell a caller. */
  ghost predicate RepliesRight(w: World, n: Node, e: Event, n': Node) {
    n'.replies == n.replies ||
    exists h, answer ::
      && n'.replies == n.replies + [(h, answer)]
      && (answer.Some? ==> Uploaded(w, h) && answer.value == if LengthKnown(n, e, h) then w[h] else [])
  }

  lemma SoundIsWellFormed(w: World, n: Node)
    requires NodeSound(w, n)
    ensures WellFormed(n)
  {
  }

  lemma SoundFetch(w: World, n: Node, h: Hash)
    requires NodeSound(w, n) && h in n.active
    ensures FetchSound(w, h, n.active[h])
  {
  }

  /** Requests, queries and replies aside, fetches decide. */
  lemma SoundByFetches(w: World, n: Node, n': Node)
    requires NodeSound(w, n) && WellFormed(n')
    requires forall h :: h in n'.active ==>
               (h in n.active && n'.active[h] == n.active[h]) || FetchSound(w, h, n'.active[h])
    ensures NodeSound(w, n')
  {
    hide FetchSound, WellFormed;
  }

  lemma GrownSound(w: World, h: Hash, f: Fetch, index: nat, data: Bytes)
    requires FetchSound(w, h, f) && GenuineShard(w, h, index, data) && f.shards[index].None?
               && f.received + 1 < DATA_SHARDS
    ensures FetchSound(w, h, f.(shards := f.shards[index := Some(data)], received := f.received + 1))
  {
    hide Count, Codeword;
    FillOne(f.shards, index, data);
  }

  lemma ShardKeepsSound(w: World, n: Node, r: RequestId, data: Bytes)
    requires NodeSound(w, n) && Genuine(w, n, ShardComes(r, data))
    ensures NodeSound(w, ShardArrives(n, r, data)) && RepliesRight(w, n, ShardComes(r, data), ShardArrives(n, r, data))
  {
    hide NodeSound, FetchSound, Decoded;
    SoundIsWellFormed(w, n);
    ShardWellFormed(n, r, data);
    var n' := ShardArrives(n, r, data);
    if r in n.requests {
      var (h, index) := n.requests[r];
      if h in n.active && n.active[h].shards[index].None? {
        SoundFetch(w, n, h);
        AcceptSound(w, n, n.(requests := n.requests - {r}), h, index, data);
      } else {
        SoundByFetches(w, n, n');
      }
    }
  }

  lemma AcceptSound(w: World, n: Node, n0: Node, h: Hash, index: nat, data: Bytes)
    requires NodeSound(w, n) && n0.active == n.active && n0.replies == n.replies && WellFormed(n0)
    requires h in n.active && GenuineShard(w, h, index, data) && n.active[h].shards[index].None?
    ensures var n' := AcceptShard(n0, h, index, data);
            && NodeSound(w, n')
            && (n.active[h].received + 1 < DATA_SHARDS ==> n'.replies == n.replies && h in n'.active)
            && (n.active[h].received + 1 == DATA_SHARDS ==>
                  n'.replies == n.replies + [(h, Some(if n.active[h].manifest.Some? then w[h] else []))]
                      && h !in n'.active)
  {
    hide Decoded, Count, Codeword;
    var f := n.active[h];
    assert FetchSound(w, h, f);
    if f.received + 1 < DATA_SHARDS {
      GrownSound(w, h, f, index, data);
    } else {
      ThirtiethDecodes(w, h, f, index, data);
    }
  }

  lemma FailureKeepsSound(w: World, n: Node, r: RequestId)
    requires NodeSound(w, n)
    ensures NodeSound(w, ShardFails(n, r)) && RepliesRight(w, n, ShardLost(r), ShardFails(n, r))
  {
    hide Count, GenuineShard;
    if r in n.requests && n.requests[r].0 in n.active {
      var h, n' := n.requests[r].0, ShardFails(n, r);
      assert h !in n'.active ==> n'.replies == n.replies + [(h, None)];
    }
  }

  lemma ManifestKeepsSound(w: World, n: Node, q: QueryId, m: Option<Manifest>, sent: map<RequestId, nat>)
    requires NodeSound(w, n) && Genuine(w, n, ManifestComes(q, m, sent)) && Enabled(n, ManifestComes(q, m, sent))
    ensures NodeSound(w, ManifestArrives(n, q, m, sent)) && ManifestArrives(n, q, m, sent).replies == n.replies
  {
    hide Count, GenuineShard, AsksFor;
    StepWellFormed(n, ManifestComes(q, m, sent));
  }

  lemma NoManifestKeepsSound(w: World, n: Node, q: QueryId)
    requires NodeSound(w, n)
    ensures NodeSound(w, ManifestMissing(n, q)) && RepliesRight(w, n, NoManifest(q), ManifestMissing(n, q))
  {
    hide Count, GenuineShard;
    if q in n.queries && n.queries[q] in n.active {
      assert ManifestMissing(n, q).replies == n.replies + [(n.queries[q], None)];
    }
  }

  lemma LocalShardsGenuine(w: World, h: Hash, m: Manifest, local: Local, self: Peer)
    requires local.manifest == Some(m) && LocalGenuine(w, h, local)
    ensures SurvivorsOf(LocalShards(m, local, self), Codeword(w, h))
    ensures forall i: nat :: i < TOTAL_SHARDS && LocalShards(m, local, self)[i].Some? ==>
              GenuineShard(w, h, i, LocalShards(m, local, self)[i].value)
  {
    hide Codeword;
  }

  lemma StartKeepsSound(w: World, n: Node, h: Hash, m: Manifest, shards: Received)
    requires NodeSound(w, n) && Uploaded(w, h) && m.size == |w[h]| && SurvivorsOf(shards, Codeword(w, h))
    requires forall i: nat :: i < TOTAL_SHARDS && shards[i].Some? ==> GenuineShard(w, h, i, shards[i].value)
    ensures var n' := StartWith(n, h, m, shards);
            NodeSound(w, n') && (n'.replies == n.replies || n'.replies == n.replies + [(h, Some(w[h]))])
  {
    hide Count, Codeword, GenuineShard, Decoded;
    if Count(shards, 0) >= DATA_SHARDS { DecodesRight(w, h, shards); }
  }

  lemma DownloadKeepsSound(w: World, n: Node, e: Event)
    requires NodeSound(w, n) && e.Downloads? && Enabled(n, e) && Genuine(w, n, e)
    ensures NodeSound(w, Step(n, e)) && RepliesRight(w, n, e, Step(n, e))
  {
    hide Count, GenuineShard, AsksFor, LocalShards, StartWith, NoShards, FetchSound, WithRequests, HeldLocally;
    var h := e.hash;
    if e.local.manifest.Some? {
      var m := e.local.manifest.value;
      var n1 := WithRequests(n, h, e.sent);
      RequestsWellFormed(n, h, m, HeldLocally(m, e.self), e.sent);
      WithRequestsKeeps(n, h, e.sent);
      LocalShardsGenuine(w, h, m, e.local, e.self);
      StartKeepsSound(w, n1, h, m, LocalShards(m, e.local, e.self));
    } else {
      NoShardsCount();
      StepWellFormed(n, e);
      assert FetchSound(w, h, Step(n, e).active[h]) by { NewFetchSound(w, h); }
    }
  }

  lemma NewFetchSound(w: World, h: Hash)
    ensures FetchSound(w, h, Fetch(true, NoShards(), 0, 0, 0, None))
  {
    hide Count;
    NoShardsCount();
  }

  lemma WithRequestsKeeps(n: Node, h: Hash, sent: map<RequestId, nat>)
    ensures var n' := WithRequests(n, h, sent);
            n'.queries == n.queries && n'.replies == n.replies && n'.active == n.active
  {
  }

  lemma RequestsWellFormed(n: Node, h: Hash, m: Manifest, exempt: set<nat>, sent: map<RequestId, nat>)
    requires WellFormed(n) && ManifestInRange(m) && AsksFor(n, m, exempt, sent)
    ensures WellFormed(WithRequests(n, h, sent))
  {
  }

  /** Any event of unaltered peers keeps every fetch sound, and tells a caller
      only what is right. */
  lemma StepKeepsSound(w: World, n: Node, e: Event)
    requires NodeSound(w, n) && Enabled(n, e) && Genuine(w, n, e)
    ensures WellFormed(n) && NodeSound(w, Step(n, e)) && RepliesRight(w, n, e, Step(n, e))
  {
    hide NodeSound, Genuine, RepliesRight, Enabled;
    SoundIsWellFormed(w, n);
    match e
    case Downloads(_, _, _, _, _) => DownloadKeepsSound(w, n, e);
    case ManifestComes(q, m, sent) =>
      ManifestKeepsSound(w, n, q, m, sent);
      NoReply(w, n, e);
    case NoManifest(q) => NoManifestKeepsSound(w, n, q);
    case ShardComes(r, data) => ShardKeepsSound(w, n, r, data);
    case ShardLost(r) => FailureKeepsSound(w, n, r);
  }

  lemma NoReply(w: World, n: Node, e: Event)
    requires WellFormed(n) && Step(n, e).replies == n.replies
    ensures RepliesRight(w, n, e, Step(n, e))
  {
  }
}
