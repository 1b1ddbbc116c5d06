/** Runs of the download machine in which it does not do what one might expect,
    each from the idle node and with unaltered peers, for any file whatever. */
module FetchExamples {
  import opened Basics
  import opened Wrappers
  import opened ErasureCoding
  import opened FetchProtocol
  import opened FetchSafety
  import opened FetchRuns
  import opened FetchNone
  import opened FetchOutcome

  // ----- Stages of a run about one file -----

  /** One open fetch, with the requests `asks` under way. */
  function Busy(h: Hash, f: Fetch, asks: map<RequestId, nat>, replies: seq<(Hash, Option<Bytes>)>): Node {
    Node(map[h := f], map[], Asked(h, asks), replies)
  }

  function Quiet(h: Hash, asks: map<RequestId, nat>, replies: seq<(Hash, Option<Bytes>)>): Node {
    Node(map[], map[], Asked(h, asks), replies)
  }

  function NewFetch(): Fetch { Fetch(true, NoShards(), 0, 0, 0, None) }

  function WithTheManifest(f: Fetch, h: Hash, size: nat, k: nat): Fetch {
    f.(manifest := Some(SomeManifest(h, size, k)), originalSize := size)
  }

  /** `asks` has, from number `base` on, the requests for the shards from `a` to `b`. */
  ghost predicate AsksRange(asks: map<RequestId, nat>, base: nat, a: nat, b: nat) {
    forall r: nat :: base + a <= r < base + b ==> r in asks && asks[r] == r - base
  }

  ghost predicate InRange(asks: map<RequestId, nat>) { forall r :: r in asks ==> asks[r] < TOTAL_SHARDS }

  function Filling(f: Fetch, shards: Shards, a: nat, b: nat): Fetch
    requires a <= b && |shards| == |f.shards|
  {
    f.(shards := seq(|f.shards|, i requires 0 <= i < |f.shards| => if a <= i < b then Some(shards[i]) else f.shards[i]),
       received := f.received + (b - a))
  }

  lemma OneShard(w: World, h: Hash, f: Fetch, asks: map<RequestId, nat>, replies: seq<(Hash, Option<Bytes>)>,
                 r: RequestId)
    requires Uploaded(w, h) && InRange(asks) && |f.shards| == TOTAL_SHARDS && f.pending
    requires r in asks && f.shards[asks[r]].None? && f.received + 1 < DATA_SHARDS
    ensures var e := ShardComes(r, Codeword(w, h)[asks[r]]);
            && Admits(OneAtATime(w), Busy(h, f, asks, replies), e) && !IsDownload(e, h)
            && Step(Busy(h, f, asks, replies), e)
                 == Busy(h, Filling(f, Codeword(w, h), asks[r], asks[r] + 1), asks - {r}, replies)
  {
    hide Codeword, Decoded;
    AskedLess(h, asks, r);
    var index := asks[r];
    assert f.shards[index := Some(Codeword(w, h)[index])] == Filling(f, Codeword(w, h), index, index + 1).shards;
  }

  lemma AskedLess(h: Hash, asks: map<RequestId, nat>, r: RequestId)
    ensures Asked(h, asks) - {r} == Asked(h, asks - {r})
  {
  }

  lemma OneFailure(w: World, h: Hash, f: Fetch, asks: map<RequestId, nat>, replies: seq<(Hash, Option<Bytes>)>,
                   r: RequestId)
    requires InRange(asks) && |f.shards| == TOTAL_SHARDS && r in asks && f.failed + f.received + 1 < TOTAL_SHARDS
    ensures Admits(OneAtATime(w), Busy(h, f, asks, replies), ShardLost(r))
    ensures Step(Busy(h, f, asks, replies), ShardLost(r)) == Busy(h, f.(failed := f.failed + 1), asks - {r}, replies)
  {
    AskedLess(h, asks, r);
  }

  /** The shards from `a` to `b` come in order. */
  lemma {:induction false} ShardsCome(w: World, h: Hash, f: Fetch, asks: map<RequestId, nat>,
                                      replies: seq<(Hash, Option<Bytes>)>, base: nat, a: nat, b: nat)
    returns (es: seq<Event>)
    requires Uploaded(w, h) && InRange(asks) && |f.shards| == TOTAL_SHARDS && f.pending && a <= b <= TOTAL_SHARDS
    requires AsksRange(asks, base, a, b) && f.received + (b - a) < DATA_SHARDS
    requires forall i :: a <= i < b ==> f.shards[i].None?
    ensures Path(OneAtATime(w), Busy(h, f, asks, replies), es,
                 Busy(h, Filling(f, Codeword(w, h), a, b), asks - NatRange(base + a, b - a), replies))
    ensures NoDownloadOf(es, h)
    decreases b - a
  {
    hide Codeword, Step, Enabled, Genuine, NotInFlight, WellFormed, NatRange, Filling, Asked, InRange, AsksRange;
    var shards := Codeword(w, h);
    FilledFacts(f, shards, a);
    if a == b {
      es := [];
      assert asks - NatRange(base + a, 0) == asks;
    } else {
      var r := base + a;
      AsksLess(asks, base, a, b);
      OneShard(w, h, f, asks, replies, r);
      var e := ShardComes(r, shards[a]);
      OneEvent(OneAtATime(w), Busy(h, f, asks, replies), e);
      var f1, asks1 := Filling(f, shards, a, a + 1), asks - {r};
      var rest := ShardsCome(w, h, f1, asks1, replies, base, a + 1, b);
      es := [e] + rest;
      FilledOn(f, shards, a, b);
      RangeOn(asks, base, a, b);
      PathConcat(OneAtATime(w), Busy(h, f, asks, replies), [e], Busy(h, f1, asks1, replies), rest,
                 Busy(h, Filling(f, shards, a, b), asks - NatRange(base + a, b - a), replies));
    }
  }

  lemma FilledOn(f: Fetch, shards: Shards, a: nat, b: nat)
    requires a < b && |shards| == |f.shards|
    ensures Filling(Filling(f, shards, a, a + 1), shards, a + 1, b) == Filling(f, shards, a, b)
  {
    assert Filling(Filling(f, shards, a, a + 1), shards, a + 1, b).shards == Filling(f, shards, a, b).shards;
  }

  lemma FilledFacts(f: Fetch, shards: Shards, a: nat)
    requires |shards| == |f.shards|
    ensures Filling(f, shards, a, a) == f
    ensures var g := Filling(f, shards, a, a + 1);
            && |g.shards| == |f.shards| && g.received == f.received + 1 && g.pending == f.pending
            && forall i :: a < i < |f.shards| ==> g.shards[i] == f.shards[i]
  {
    assert Filling(f, shards, a, a).shards == f.shards;
  }

  lemma AsksLess(asks: map<RequestId, nat>, base: nat, a: nat, b: nat)
    requires InRange(asks) && AsksRange(asks, base, a, b) && a < b
    ensures base + a in asks && asks[base + a] == a
    ensures InRange(asks - {base + a}) && AsksRange(asks - {base + a}, base, a + 1, b)
  {
  }

  lemma RangeOn(asks: map<RequestId, nat>, base: nat, a: nat, b: nat)
    requires a < b
    ensures asks - {base + a} - NatRange(base + (a + 1), b - (a + 1)) == asks - NatRange(base + a, b - a)
  {
    hide NatRange;
  }

  /** The shards from `a` to `b` fail in order. */
  lemma {:induction false} ShardsFail(w: World, h: Hash, f: Fetch, asks: map<RequestId, nat>,
                                      replies: seq<(Hash, Option<Bytes>)>, base: nat, a: nat, b: nat)
    returns (es: seq<Event>)
    requires InRange(asks) && |f.shards| == TOTAL_SHARDS && a <= b
    requires AsksRange(asks, base, a, b) && f.failed + f.received + (b - a) < TOTAL_SHARDS
    ensures Path(OneAtATime(w), Busy(h, f, asks, replies), es,
                 Busy(h, f.(failed := f.failed + (b - a)), asks - NatRange(base + a, b - a), replies))
    ensures NoDownloadOf(es, h)
    decreases b - a
  {
    hide Step, Enabled, Genuine, NotInFlight, WellFormed, NatRange, Asked, InRange, AsksRange;
    if a == b {
      es := [];
      assert asks - NatRange(base + a, 0) == asks;
    } else {
      var r := base + a;
      AsksLess(asks, base, a, b);
      OneFailure(w, h, f, asks, replies, r);
      OneEvent(OneAtATime(w), Busy(h, f, asks, replies), ShardLost(r));
      var f1 := f.(failed := f.failed + 1);
      var rest := ShardsFail(w, h, f1, asks - {r}, replies, base, a + 1, b);
      es := [ShardLost(r)] + rest;
      RangeOn(asks, base, a, b);
      PathConcat(OneAtATime(w), Busy(h, f, asks, replies), [ShardLost(r)], Busy(h, f1, asks - {r}, replies), rest,
                 Busy(h, f.(failed := f.failed + (b - a)), asks - NatRange(base + a, b - a), replies));
    }
  }

  lemma AskedMore(h: Hash, asks: map<RequestId, nat>, sent: map<RequestId, nat>)
    ensures Asked(h, asks) + Asked(h, sent) == Asked(h, asks + sent)
  {
  }

  function Begin(h: Hash): Event { Downloads(h, 0, Local(None, map[]), "self", map[]) }

  lemma Begins(w: World, h: Hash, asks: map<RequestId, nat>, replies: seq<(Hash, Option<Bytes>)>)
    requires InRange(asks)
    ensures Admits(OneAtATime(w), Quiet(h, asks, replies), Begin(h))
    ensures Step(Quiet(h, asks, replies), Begin(h))
              == Quiet(h, asks, replies).(active := map[h := NewFetch()], queries := map[0 := h])
  {
  }

  /** A download begins and its manifest comes. */
  lemma Starts(w: World, h: Hash, asks: map<RequestId, nat>, replies: seq<(Hash, Option<Bytes>)>, base: nat, k: nat)
    returns (es: seq<Event>)
    requires Uploaded(w, h) && InRange(asks) && k == TOTAL_SHARDS && forall r :: r in asks ==> r < base
    ensures Path(OneAtATime(w), Quiet(h, asks, replies), es,
                 Busy(h, WithTheManifest(NewFetch(), h, |w[h]|, k), asks + Numbered(base, k), replies))
  {
    hide SomeManifest, Numbered, Genuine, NotInFlight, WellFormed, Enabled, AsksFor, NatRange, NewFetch, Step,
         WithTheManifest;
    var n, n1 := Quiet(h, asks, replies),
        Quiet(h, asks, replies).(active := map[h := NewFetch()], queries := map[0 := h]);
    Begins(w, h, asks, replies);
    OneEvent(OneAtATime(w), n, Begin(h));
    var m := ManifestComes(0, Some(SomeManifest(h, |w[h]|, k)), Numbered(base, k));
    NumberedAsks(n1, h, |w[h]|, base, k);
    NumberedFacts(base, h, |w[h]|, k);
    MayCome(w, h, n1, m, k);
    OneEvent(OneAtATime(w), n1, m);
    ManifestStep(h, asks, replies, m, |w[h]|, k);
    es := [Begin(h)] + [m];
    PathConcat(OneAtATime(w), n, [Begin(h)], n1, [m], Step(n1, m));
  }

  lemma ManifestStep(h: Hash, asks: map<RequestId, nat>, replies: seq<(Hash, Option<Bytes>)>, e: Event, size: nat,
                     k: nat)
    requires e.ManifestComes? && e.query == 0 && e.manifest == Some(SomeManifest(h, size, k))
    requires var n := Quiet(h, asks, replies).(active := map[h := NewFetch()], queries := map[0 := h]); WellFormed(n)
    ensures var n := Quiet(h, asks, replies).(active := map[h := NewFetch()], queries := map[0 := h]);
            Step(n, e) == Busy(h, WithTheManifest(NewFetch(), h, size, k), asks + e.sent, replies)
  {
    hide NewFetch, Asked, SomeManifest;
    NumberedFacts(0, h, size, k);
    AskedMore(h, asks, e.sent);
    var n1 := Quiet(h, asks, replies).(active := map[h := NewFetch()]);
    assert map[0 := h] - {0} == map[];
    assert n1.active[h := WithTheManifest(NewFetch(), h, size, k)] == map[h := WithTheManifest(NewFetch(), h, size, k)];
  }

  lemma MayCome(w: World, h: Hash, n: Node, e: Event, k: nat)
    requires Uploaded(w, h) && k == TOTAL_SHARDS && n.queries == map[0 := h] && n.active == map[h := NewFetch()]
    requires e.ManifestComes? && e.query == 0 && e.manifest == Some(SomeManifest(h, |w[h]|, k))
               && AsksFor(n, e.manifest.value, {}, e.sent)
    requires forall r :: r in n.requests ==> n.requests[r].1 < TOTAL_SHARDS
    ensures Admits(OneAtATime(w), n, e)
  {
    hide SomeManifest, AsksFor;
    NumberedFacts(0, h, |w[h]|, k);
    NoShardsCount();
  }

  /** The thirtieth shard comes. */
  lemma Ends(w: World, h: Hash, f: Fetch, asks: map<RequestId, nat>, replies: seq<(Hash, Option<Bytes>)>, r: RequestId)
    returns (e: Event)
    requires Uploaded(w, h) && InRange(asks) && FetchSound(w, h, f) && f.manifest.Some?
    requires r in asks && f.shards[asks[r]].None? && f.received + 1 == DATA_SHARDS
    ensures Path(OneAtATime(w), Busy(h, f, asks, replies), [e], Quiet(h, asks - {r}, replies + [(h, Some(w[h]))]))
              && !IsDownload(e, h)
  {
    hide Codeword, Decoded, FetchSound, AcceptShard;
    var n := Busy(h, f, asks, replies);
    e := ShardComes(r, Codeword(w, h)[asks[r]]);
    SizeOfFetch(w, h, f);
    AskedLess(h, asks, r);
    var n0 := Busy(h, f, asks - {r}, replies);
    AcceptSound(w, n, n0, h, asks[r], Codeword(w, h)[asks[r]]);
    Emptied(n0, h, asks[r], Codeword(w, h)[asks[r]]);
    OneEvent(OneAtATime(w), n, e);
  }

  lemma SizeOfFetch(w: World, h: Hash, f: Fetch)
    requires FetchSound(w, h, f)
    ensures |f.shards| == TOTAL_SHARDS && f.pending
  {
  }

  lemma Emptied(n: Node, h: Hash, index: nat, data: Bytes)
    requires WellFormed(n) && index < TOTAL_SHARDS && n.active.Keys == {h}
    ensures var n' := AcceptShard(n, h, index, data);
            n'.requests == n.requests && n'.queries == n.queries && (h !in n'.active ==> n'.active == map[])
  {
    hide Decoded;
    assert forall g :: g in n.active ==> g == h;
  }

  /** A sound fetch stays so as it fills. */
  lemma FilledSound(w: World, h: Hash, f: Fetch, a: nat, b: nat)
    requires FetchSound(w, h, f) && Uploaded(w, h) && a <= b <= TOTAL_SHARDS && f.received + (b - a) < DATA_SHARDS
    requires forall i :: a <= i < b ==> f.shards[i].None?
    ensures FetchSound(w, h, Filling(f, Codeword(w, h), a, b))
    decreases b - a
  {
    hide Codeword, Count, GenuineShard;
    var shards := Codeword(w, h);
    FilledFacts(f, shards, a);
    if a < b {
      var f1 := Filling(f, shards, a, a + 1);
      assert GenuineShard(w, h, a, shards[a]) by { ShardIsGenuine(w, h, a); }
      GrownSound(w, h, f, a, shards[a]);
      assert f1 == f.(shards := f.shards[a := Some(shards[a])], received := f.received + 1) by {
        assert f1.shards == f.shards[a := Some(shards[a])];
      }
      FilledSound(w, h, f1, a + 1, b);
      FilledOn(f, shards, a, b);
    }
  }

  lemma ShardIsGenuine(w: World, h: Hash, i: nat)
    requires Uploaded(w, h) && i < TOTAL_SHARDS
    ensures GenuineShard(w, h, i, Codeword(w, h)[i])
  {
  }

  /** One failure too many. */
  lemma GivesUp(w: World, h: Hash, f: Fetch, asks: map<RequestId, nat>, replies: seq<(Hash, Option<Bytes>)>,
                r: RequestId)
    requires InRange(asks) && |f.shards| == TOTAL_SHARDS && f.pending && r in asks
               && f.failed + f.received + 1 >= TOTAL_SHARDS
    ensures var n, e := Busy(h, f, asks, replies), ShardLost(r);
            && Admits(OneAtATime(w), n, e) && TellsNone(n, e, h)
            && Step(n, e) == Quiet(h, asks - {r}, replies + [(h, None)])
  {
    AskedLess(h, asks, r);
  }

  lemma OutstandingOf(n: Node, h: Hash, asks: map<RequestId, nat>)
    requires n.requests == Asked(h, asks)
    ensures Outstanding(n, h) == asks.Keys
  {
  }

  lemma NewIsSound(w: World, h: Hash, size: nat, k: nat)
    requires Uploaded(w, h) && size == |w[h]|
    ensures var f := WithTheManifest(NewFetch(), h, size, k);
            FetchSound(w, h, f) && f.received == f.failed == 0 && f.manifest.Some?
                && forall i :: 0 <= i < TOTAL_SHARDS ==> f.shards[i].None?
  {
    hide Count;
    NoShardsCount();
  }

  // ----- The runs -----

  /** The requests of one download, and how they go on. */
  lemma AllAsked(asks: map<RequestId, nat>, base: nat, k: nat)
    requires InRange(asks) && k == TOTAL_SHARDS && forall r :: r in asks ==> r < base
    ensures var all := asks + Numbered(base, k);
            && InRange(all) && AsksRange(all, base, 0, k)
                 && (forall r: nat :: r in all <==> r in asks || base <= r < base + k)
            && forall r :: r in asks ==> all[r] == asks[r]
  {
    hide Numbered;
    NumberedFacts(base, "", 0, k);
  }

  lemma Remaining(asks: map<RequestId, nat>, base: nat, a: nat, b: nat)
    requires InRange(asks) && a <= b
    ensures var rest := asks - NatRange(base + a, b - a);
            && InRange(rest) && (forall r: nat :: r in rest <==> r in asks && !(base + a <= r < base + b))
            && forall r :: r in rest ==> rest[r] == asks[r]
  {
    hide NatRange;
  }

  lemma IdleIsQuiet(h: Hash)
    ensures Idle() == Quiet(h, map[], [])
  {
  }

  /** Sixteen shards fail and then the other twenty-nine come: every answer is in,
      the caller has none, and will not get one. */
  lemma HangsForEver(w: World, h: Hash) returns (es: seq<Event>, n: Node)
    requires Uploaded(w, h)
    ensures Path(OneAtATime(w), Idle(), es, n) && Stuck(n, h) && n.active[h].received == 29 && n.active[h].failed == 16
  {
    hide Codeword, Filling, Path, NatRange, Numbered, WithTheManifest, NewFetch, Asked;
    var k: nat := TOTAL_SHARDS;
    IdleIsQuiet(h);
    es := Starts(w, h, map[], [], 0, k);
    var f, asks := WithTheManifest(NewFetch(), h, |w[h]|, k), map[] + Numbered(0, k);
    NewIsSound(w, h, |w[h]|, k);
    SizeOfFetch(w, h, f);
    AllAsked(map[], 0, k);
    var failing := ShardsFail(w, h, f, asks, [], 0, 0, 16);
    var f1, asks1 := f.(failed := f.failed + 16), asks - NatRange(0, 16);
    Remaining(asks, 0, 0, 16);
    PathConcat(OneAtATime(w), Idle(), es, Busy(h, f, asks, []), failing, Busy(h, f1, asks1, []));
    var coming := ShardsCome(w, h, f1, asks1, [], 0, 16, 45);
    n := Busy(h, Filling(f1, Codeword(w, h), 16, 45), asks1 - NatRange(16, 29), []);
    Remaining(asks1, 0, 16, 45);
    PathConcat(OneAtATime(w), Idle(), es + failing, Busy(h, f1, asks1, []), coming, n);
    es := es + failing + coming;
    OutstandingOf(n, h, asks1 - NatRange(16, 29));
    assert (asks1 - NatRange(16, 29)).Keys == {};
    FilledCounts(f1, Codeword(w, h), 16, 45);
  }

  lemma FilledCounts(f: Fetch, shards: Shards, a: nat, b: nat)
    requires a <= b && |shards| == |f.shards|
    ensures var g := Filling(f, shards, a, b);
            && g.received == f.received + (b - a) && g.failed == f.failed
                 && g.pending == f.pending && g.manifest == f.manifest
            && |g.shards| == |f.shards|
                 && forall i :: 0 <= i < |f.shards| && !(a <= i < b) ==> g.shards[i] == f.shards[i]
  {
  }

  /** A run goes on with shards that leave the fetch open. */
  lemma MoreShards(w: World, h: Hash, es: seq<Event>, f: Fetch, asks: map<RequestId, nat>,
                   replies: seq<(Hash, Option<Bytes>)>, base: nat, a: nat, b: nat)
    returns (es': seq<Event>, f': Fetch, asks': map<RequestId, nat>)
    requires Path(OneAtATime(w), Idle(), es, Busy(h, f, asks, replies))
    requires Uploaded(w, h) && InRange(asks) && FetchSound(w, h, f) && a <= b <= TOTAL_SHARDS
    requires AsksRange(asks, base, a, b) && f.received + (b - a) < DATA_SHARDS
    requires |f.shards| == TOTAL_SHARDS && forall i :: a <= i < b ==> f.shards[i].None?
    ensures Path(OneAtATime(w), Idle(), es', Busy(h, f', asks', replies))
    ensures FetchSound(w, h, f') && f'.received == f.received + (b - a) && f'.manifest == f.manifest
    ensures |f'.shards| == TOTAL_SHARDS
              && forall i :: 0 <= i < TOTAL_SHARDS && !(a <= i < b) ==> f'.shards[i] == f.shards[i]
    ensures InRange(asks') && (forall r: nat :: r in asks' <==> r in asks && !(base + a <= r < base + b))
    ensures forall r :: r in asks' ==> asks'[r] == asks[r]
  {
    hide Codeword, Filling, Path, NatRange, FetchSound;
    SizeOfFetch(w, h, f);
    f', asks' := Filling(f, Codeword(w, h), a, b), asks - NatRange(base + a, b - a);
    var coming := ShardsCome(w, h, f, asks, replies, base, a, b);
    Remaining(asks, base, a, b);
    FilledCounts(f, Codeword(w, h), a, b);
    FilledSound(w, h, f, a, b);
    PathConcat(OneAtATime(w), Idle(), es, Busy(h, f, asks, replies), coming, Busy(h, f', asks', replies));
    es' := es + coming;
  }

  /** A download that is answered by its first thirty shards: fifteen requests
      stay under way. */
  lemma FirstDownload(w: World, h: Hash) returns (es: seq<Event>, asks: map<RequestId, nat>)
    requires Uploaded(w, h)
    ensures Path(OneAtATime(w), Idle(), es, Quiet(h, asks, [(h, Some(w[h]))]))
    ensures InRange(asks) && AsksRange(asks, 0, 30, 45) && forall r: nat :: r in asks <==> 30 <= r < 45
  {
    hide Codeword, Filling, Path, NatRange, Numbered, WithTheManifest, NewFetch, Asked, FetchSound;
    var k: nat := TOTAL_SHARDS;
    IdleIsQuiet(h);
    es := Starts(w, h, map[], [], 0, k);
    var f, asks0 := WithTheManifest(NewFetch(), h, |w[h]|, k), map[] + Numbered(0, k);
    NewIsSound(w, h, |w[h]|, k);
    SizeOfFetch(w, h, f);
    AllAsked(map[], 0, k);
    var f1, asks1;
    es, f1, asks1 := MoreShards(w, h, es, f, asks0, [], 0, 0, 29);
    var last := Ends(w, h, f1, asks1, [], 29);
    asks := asks1 - {29};
    assert [] + [(h, Some(w[h]))] == [(h, Some(w[h]))];
    PathConcat(OneAtATime(w), Idle(), es, Busy(h, f1, asks1, []), [last], Quiet(h, asks, [(h, Some(w[h]))]));
    es := es + [last];
  }

  /** The fifteen requests left from the first download fail into the second. */
  lemma LeftoversFail(w: World, h: Hash)
      returns (es: seq<Event>, f: Fetch, asks: map<RequestId, nat>, replies: seq<(Hash, Option<Bytes>)>)
    requires Uploaded(w, h)
    ensures Path(OneAtATime(w), Idle(), es, Busy(h, f, asks, replies))
    ensures f.received == 0 && f.failed == 15 && f.pending && f.manifest.Some? && |f.shards| == TOTAL_SHARDS
    ensures forall i :: 0 <= i < TOTAL_SHARDS ==> f.shards[i].None?
    ensures InRange(asks) && AsksRange(asks, 45, 0, 45) && forall r: nat :: r in asks <==> 45 <= r < 90
  {
    hide Path, NatRange, Numbered, WithTheManifest, NewFetch, Asked, FetchSound;
    var k: nat := TOTAL_SHARDS;
    var left;
    es, left := FirstDownload(w, h);
    replies := [(h, Some(w[h]))];
    var start := Starts(w, h, left, replies, 45, k);
    var f0, asks0 := WithTheManifest(NewFetch(), h, |w[h]|, k), left + Numbered(45, k);
    NewIsSound(w, h, |w[h]|, k);
    SizeOfFetch(w, h, f0);
    AllAsked(left, 45, k);
    PathConcat(OneAtATime(w), Idle(), es, Quiet(h, left, replies), start, Busy(h, f0, asks0, replies));
    var failing := ShardsFail(w, h, f0, asks0, replies, 0, 30, 45);
    f, asks := f0.(failed := f0.failed + 15), asks0 - NatRange(30, 15);
    Remaining(asks0, 0, 30, 45);
    PathConcat(OneAtATime(w), Idle(), es + start, Busy(h, f0, asks0, replies), failing, Busy(h, f, asks, replies));
    es := es + start + failing;
  }

  /** Strictly one download after the other: fifteen failures of the first one's
      requests, twenty-nine shards and one failure of its own, and the second
      gives up, with fifteen of its requests unanswered. */
  lemma GivesUpTooSoon(w: World, h: Hash) returns (es: seq<Event>, n: Node, e: Event)
    requires Uploaded(w, h)
    ensures Path(OneAtATime(w), Idle(), es, n) && Admits(OneAtATime(w), n, e) && Collecting(n, h) && TellsNone(n, e, h)
    ensures n.active[h].received == 29 && |Outstanding(Step(n, e), h)| == 15
  {
    hide Codeword, Filling, Path, NatRange, Asked, Outstanding, TellsNone, Admits, Step;
    var f, asks, replies;
    es, f, asks, replies := LeftoversFail(w, h);
    var coming := ShardsCome(w, h, f, asks, replies, 45, 0, 29);
    var f1, asks1 := Filling(f, Codeword(w, h), 0, 29), asks - NatRange(45, 29);
    Remaining(asks, 45, 0, 29);
    FilledCounts(f, Codeword(w, h), 0, 29);
    n := Busy(h, f1, asks1, replies);
    PathConcat(OneAtATime(w), Idle(), es, Busy(h, f, asks, replies), coming, n);
    es := es + coming;
    e := ShardLost(74);
    GivesUp(w, h, f1, asks1, replies, 74);
    OutstandingOf(Step(n, e), h, asks1 - {74});
    assert (asks1 - {74}).Keys == NatRange(75, 15);
  }

  /** The second download takes fifteen shards from the first one's requests and
      fifteen of its own: thirty stay under way. */
  lemma SecondDownload(w: World, h: Hash)
    returns (es: seq<Event>, asks: map<RequestId, nat>, replies: seq<(Hash, Option<Bytes>)>)
    requires Uploaded(w, h)
    ensures Path(OneAtATime(w), Idle(), es, Quiet(h, asks, replies))
    ensures InRange(asks) && AsksRange(asks, 45, 15, 45) && forall r: nat :: r in asks <==> 60 <= r < 90
  {
    hide Codeword, Filling, Path, NatRange, Numbered, WithTheManifest, NewFetch, Asked, FetchSound;
    var k: nat := TOTAL_SHARDS;
    var left;
    es, left := FirstDownload(w, h);
    var told := [(h, Some(w[h]))];
    var start := Starts(w, h, left, told, 45, k);
    var f, asks0 := WithTheManifest(NewFetch(), h, |w[h]|, k), left + Numbered(45, k);
    NewIsSound(w, h, |w[h]|, k);
    SizeOfFetch(w, h, f);
    AllAsked(left, 45, k);
    PathConcat(OneAtATime(w), Idle(), es, Quiet(h, left, told), start, Busy(h, f, asks0, told));
    var f1, asks1, f2, asks2;
    es, f1, asks1 := MoreShards(w, h, es + start, f, asks0, told, 0, 30, 45);
    es, f2, asks2 := MoreShards(w, h, es, f1, asks1, told, 45, 0, 14);
    var last := Ends(w, h, f2, asks2, told, 59);
    asks, replies := asks2 - {59}, told + [(h, Some(w[h]))];
    PathConcat(OneAtATime(w), Idle(), es, Busy(h, f2, asks2, told), [last], Quiet(h, asks, replies));
    es := es + [last];
  }

  lemma ExpectingRange(h: Hash, n: Node, asks: map<RequestId, nat>, base: nat, a: nat) returns (rs: seq<RequestId>)
    requires n.active == map[h := NewFetch()] && n.requests == Asked(h, asks)
    requires AsksRange(asks, base, a, a + DATA_SHARDS) && a + DATA_SHARDS <= TOTAL_SHARDS
    ensures Expecting(n, h, rs) && rs != []
  {
    NoShardsCount();
    rs := seq(DATA_SHARDS, i => base + a + i);
    assert |rs| == DATA_SHARDS;
  }

  /** Strictly one download after the other, and the third is given an empty file:
      the thirty shards left under way come before its manifest. */
  lemma GivesAnEmptyFile(w: World, h: Hash) returns (es: seq<Event>, n: Node, e: Event)
    requires Uploaded(w, h)
    ensures Path(OneAtATime(w), Idle(), es, n) && Admits(OneAtATime(w), n, e) && TellsData(n, e, h, [])
  {
    hide Path, NatRange, Numbered, NewFetch, Asked, Expecting, NodeSound, Step;
    var asks, replies, first;
    first, asks, replies := SecondDownload(w, h);
    var n0 := Quiet(h, asks, replies);
    Begins(w, h, asks, replies);
    OneEvent(OneAtATime(w), n0, Begin(h));
    var n1 := Step(n0, Begin(h));
    PathConcat(OneAtATime(w), Idle(), first, n0, [Begin(h)], n1);
    IdleSound(w);
    PathKeepsSound(OneAtATime(w), Idle(), first + [Begin(h)], n1);
    var rs := ExpectingRange(h, n1, asks, 45, 15);
    var rest;
    rest, n, e := AnsweredWithNothing(w, n1, h, rs);
    PathConcat(OneAtATime(w), Idle(), first + [Begin(h)], n1, rest, n);
    es := first + [Begin(h)] + rest;
  }

  // ----- Downloads with the manifest at hand -----

  /** A manifest that places the shards from `own` on "self". */
  function PartlyOwn(h: Hash, size: nat, own: nat): Manifest {
    Manifest(h, size, map i | i in FirstNats(TOTAL_SHARDS) :: if i < own then "peer" else "self")
  }

  /** A download with such a manifest and none of the shards at hand. */
  function BeginWith(h: Hash, size: nat, own: nat): Event {
    Downloads(h, 0, Local(Some(PartlyOwn(h, size, own)), map[]), "self", Numbered(0, own))
  }

  function NewFetchWith(h: Hash, size: nat, own: nat): Fetch {
    Fetch(true, NoShards(), 0, 0, size, Some(PartlyOwn(h, size, own)))
  }

  lemma OwnFacts(h: Hash, size: nat, own: nat)
    requires own <= TOTAL_SHARDS
    ensures var m := PartlyOwn(h, size, own);
            && (forall i: nat :: i in m.shards <==> i < TOTAL_SHARDS) && m.size == size
            && (forall i: nat :: i in HeldLocally(m, "self") <==> own <= i < TOTAL_SHARDS)
            && m.shards.Keys - HeldLocally(m, "self") == FirstNats(own)
  {
  }

  lemma OwnAsks(h: Hash, size: nat, own: nat)
    requires own <= TOTAL_SHARDS
    ensures AsksFor(Idle(), PartlyOwn(h, size, own), HeldLocally(PartlyOwn(h, size, own), "self"), Numbered(0, own))
  {
    hide PartlyOwn, Numbered, HeldLocally, FirstNats, AsksFor;
    var sent, k: nat := Numbered(0, own), own;
    OwnFacts(h, size, own);
    NumberedFacts(0, h, size, own);
    forall i | i in FirstNats(k) ensures exists r :: r in sent && sent[r] == i {
      assert i in sent && sent[i] == i;
    }
    AsksExactly(PartlyOwn(h, size, own), HeldLocally(PartlyOwn(h, size, own), "self"), sent, FirstNats(k));
  }

  lemma AsksExactly(m: Manifest, exempt: set<nat>, sent: map<RequestId, nat>, asked: set<nat>)
    requires m.shards.Keys - exempt == asked
    requires forall r, s :: r in sent && s in sent && r != s ==> sent[r] != sent[s]
    requires forall r :: r in sent ==> sent[r] in asked
    requires forall i :: i in asked ==> exists r :: r in sent && sent[r] == i
    ensures AsksFor(Idle(), m, exempt, sent)
  {
  }

  lemma NoneLocal(h: Hash, size: nat, own: nat)
    ensures LocalShards(PartlyOwn(h, size, own), Local(Some(PartlyOwn(h, size, own)), map[]), "self") == NoShards()
  {
  }

  lemma BeginsWith(w: World, h: Hash, own: nat)
    requires Uploaded(w, h) && own <= TOTAL_SHARDS
    ensures Admits(OneAtATime(w), Idle(), BeginWith(h, |w[h]|, own))
    ensures Step(Idle(), BeginWith(h, |w[h]|, own)) == Busy(h, NewFetchWith(h, |w[h]|, own), Numbered(0, own), [])
  {
    hide PartlyOwn, Numbered, HeldLocally, Step, AsksFor;
    OwnFacts(h, |w[h]|, own);
    OwnAsks(h, |w[h]|, own);
    StepWith(h, |w[h]|, own);
    assert Genuine(w, Idle(), BeginWith(h, |w[h]|, own)) by { ItsManifest(w, h, PartlyOwn(h, |w[h]|, own)); }
  }

  lemma StepWith(h: Hash, size: nat, own: nat)
    requires own <= TOTAL_SHARDS
    ensures Step(Idle(), BeginWith(h, size, own)) == Busy(h, NewFetchWith(h, size, own), Numbered(0, own), [])
  {
    hide PartlyOwn, Numbered, LocalShards, Count, NoShards, Asked;
    NoneLocal(h, size, own);
    NoShardsCount();
    assert PartlyOwn(h, size, own).size == size by { OwnFacts(h, size, own); }
    var n, f := WithRequests(Idle(), h, Numbered(0, own)), NewFetchWith(h, size, own);
    assert n.requests == Asked(h, Numbered(0, own));
    assert n.active[h := f] == map[h := f];
  }

  /** A download that is stuck from its first moment: all shards are placed on this
      peer, which has none of them. */
  lemma StuckFromTheStart(w: World, h: Hash)
    requires Uploaded(w, h)
    ensures var e := BeginWith(h, |w[h]|, 0);
            && Admits(OneAtATime(w), Idle(), e) && Careful(Idle(), e) && Stuck(Step(Idle(), e), h)
            && Step(Idle(), e).active[h].received == Step(Idle(), e).active[h].failed == 0
  {
    hide PartlyOwn, NoShards, Step, Genuine, Enabled, NotInFlight, Awaited;
    BeginsWith(w, h, 0);
    assert Numbered(0, 0) == map[];
  }

  /** One shard is placed on this peer and missing, and all other requests fail: the
      last failure ends nothing, and the caller is never told that there is nothing. */
  lemma LastFailureEndsNothing(w: World, h: Hash) returns (es: seq<Event>, n: Node, r: RequestId)
    requires Uploaded(w, h)
    ensures Path(OneAtATime(w), Idle(), es, n) && Collecting(n, h) && Outstanding(n, h) == {r}
    ensures Admits(OneAtATime(w), n, ShardLost(r)) && Stuck(Step(n, ShardLost(r)), h)
  {
    hide PartlyOwn, NoShards, Path, NatRange, Numbered, Asked, Outstanding, Admits, Step, Stuck, AsksRange;
    var own: nat := 44;
    var begin, f, asks := BeginWith(h, |w[h]|, own), NewFetchWith(h, |w[h]|, own), Numbered(0, own);
    BeginsWith(w, h, own);
    OneEvent(OneAtATime(w), Idle(), begin);
    NoShardsCount();
    assert forall s: nat :: s in asks <==> s < own by { NumberedFacts(0, h, |w[h]|, own); }
    assert InRange(asks) && AsksRange(asks, 0, 0, 43) by { RangeOfNumbered(own); }
    var failing := ShardsFail(w, h, f, asks, [], 0, 0, 43);
    var f1, asks1 := f.(failed := 43), asks - NatRange(0, 43);
    Remaining(asks, 0, 0, 43);
    assert asks1.Keys == {43};
    n, r := Busy(h, f1, asks1, []), 43;
    PathConcat(OneAtATime(w), Idle(), [begin], Busy(h, f, asks, []), failing, n);
    es := [begin] + failing;
    assert Outstanding(n, h) == {r} by { OutstandingOf(n, h, asks1); }
    FailureSticks(w, h, f1, asks1, r);
  }

  lemma RangeOfNumbered(own: nat)
    requires own == 44
    ensures InRange(Numbered(0, own)) && AsksRange(Numbered(0, own), 0, 0, 43)
  {
    hide NatRange;
    var sent := Numbered(0, own);
    forall r | r in sent ensures sent[r] < TOTAL_SHARDS { assert r in NatRange(0, own); }
    forall r: nat | r < 43 ensures r in sent && sent[r] == r { assert r in NatRange(0, own); }
  }

  /** The last failure when too few have been counted to give up. */
  lemma FailureSticks(w: World, h: Hash, f: Fetch, asks: map<RequestId, nat>, r: RequestId)
    requires InRange(asks) && asks.Keys == {r} && |f.shards| == TOTAL_SHARDS && f.pending
    requires f.failed + f.received + 1 < TOTAL_SHARDS
    ensures var n := Busy(h, f, asks, []);
            Admits(OneAtATime(w), n, ShardLost(r)) && Stuck(Step(n, ShardLost(r)), h)
  {
    hide Asked, Step, Outstanding, Admits;
    OneFailure(w, h, f, asks, [], r);
    OutstandingOf(Step(Busy(h, f, asks, []), ShardLost(r)), h, asks - {r});
    assert (asks - {r}).Keys == {};
  }

  /** A manifest that cannot be read is no answer to the caller. */
  lemma UnreadableManifestSticks(w: World, h: Hash)
    ensures var e, m := Begin(h), ManifestComes(0, None, map[]);
            && Admits(OneAtATime(w), Idle(), e) && Admits(OneAtATime(w), Step(Idle(), e), m)
            && Stuck(Step(Step(Idle(), e), m), h)
  {
    hide NoShards;
    IdleIsQuiet(h);
    Begins(w, h, map[], []);
    NoShardsCount();
    assert map[0 := h] - {0} == map[];
  }

  lemma Overlaps(w: World, h: Hash, f: Fetch, asks: map<RequestId, nat>)
    requires |f.shards| == TOTAL_SHARDS && InRange(asks)
    ensures var n := Busy(h, f, asks, []);
            && Admits(GenuineEvents(w), n, Begin(h))
            && Step(n, Begin(h)) == Node(map[h := NewFetch()], map[0 := h], Asked(h, asks), [])
  {
    hide NoShards, Asked;
    assert map[h := f][h := NewFetch()] == map[h := NewFetch()];
    assert forall r :: r in Asked(h, asks) ==> Asked(h, asks)[r].1 < TOTAL_SHARDS by { AskedInRange(h, asks); }
  }

  lemma AskedInRange(h: Hash, asks: map<RequestId, nat>)
    requires InRange(asks)
    ensures forall r :: r in Asked(h, asks) ==> Asked(h, asks)[r].1 < TOTAL_SHARDS
  {
  }

  /** A second download while the first is open: the first caller will never be
      answered, whatever comes, and the second is given an empty file by the first
      one's answers. */
  lemma OverlappingDownloadsGoWrong(w: World, h: Hash)
      returns (es: seq<Event>, busy: Node, second: Event, fs: seq<Event>, n: Node, e: Event)
    requires Uploaded(w, h)
    ensures Path(GenuineEvents(w), Idle(), es, busy) && h in busy.active
    ensures Admits(GenuineEvents(w), busy, second) && IsDownload(second, h)
              && Path(GenuineEvents(w), Step(busy, second), fs, n)
    ensures Admits(GenuineEvents(w), n, e) && TellsData(n, e, h, [])
    ensures RepliesFor(busy.replies, h) == 0
    ensures forall later, n' :: Path(GenuineEvents(w), Step(busy, second), later, n') && NoDownloadOf(later, h) ==>
                RepliesFor(n'.replies, h) <= 1
  {
    hide Path, NatRange, Numbered, NewFetch, Asked, Expecting, NodeSound, Step, WithTheManifest, NoDownloadOf;
    var k: nat := TOTAL_SHARDS;
    IdleIsQuiet(h);
    es := Starts(w, h, map[], [], 0, k);
    var f, asks := WithTheManifest(NewFetch(), h, |w[h]|, k), map[] + Numbered(0, k);
    AllAsked(map[], 0, k);
    NewIsSound(w, h, |w[h]|, k);
    SizeOfFetch(w, h, f);
    busy, second := Busy(h, f, asks, []), Begin(h);
    OneAtATimeIsGenuine(w, Idle(), es, busy);
    Overlaps(w, h, f, asks);
    var n1 := Step(busy, second);
    IdleSound(w);
    PathKeepsSound(GenuineEvents(w), Idle(), es, busy);
    StepKeepsSound(w, busy, second);
    var rs := ExpectingRange(h, n1, asks, 0, 0);
    fs, n, e := AnsweredWithNothing(w, n1, h, rs);
    OneAtATimeIsGenuine(w, n1, fs, n);
    forall later, n' | Path(GenuineEvents(w), n1, later, n') && NoDownloadOf(later, h)
      ensures RepliesFor(n'.replies, h) <= 1
    {
      ReplacedNeverAnswered(GenuineEvents(w), busy, second, later, n', h);
      NoneDownloaded(later, h);
    }
  }
}
