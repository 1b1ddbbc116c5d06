/** A whole storage network: peers with their stores and event loops, and what is
    under way between them. Peers upload, keep, copy, lose, serve and download;
    none of them alters what it was given. */
module StorageSystem {
  import opened Wrappers
  import opened ErasureCoding
  import opened FetchProtocol
  import opened FetchSafety
  import opened FetchRuns
  import opened FetchNone
  import opened FetchOutcome
  import opened ShardStore

  datatype PeerState = PeerState(node: Node, store: Store)

  /** Which peer was asked for which shard. */
  datatype Asking = Asking(to: Peer, hash: Hash, index: nat)

  datatype ShardMessage = ShardMessage(to: Peer, hash: Hash, index: nat, data: Bytes)

  datatype Answer = Answer(asker: Peer, request: RequestId, data: Option<Bytes>)

  /** Messages stay: each may come late, again, or never. */
  datatype System = System(
    peers: map<Peer, PeerState>,
    uploads: World,
    shardsSent: set<ShardMessage>,
    manifestsSent: set<(Hash, Manifest)>,
    asked: map<(Peer, RequestId), Asking>,
    answers: set<Answer>)

  function Start(names: set<Peer>): System {
    System(map p | p in names :: PeerState(Idle(), Store(map[], map[], false)), map[], {}, {}, map[], {})
  }

  datatype Action =
    | Uploads(peer: Peer, data: Bytes, targets: seq<Peer>, placed: Store, sends: seq<(Peer, nat, Bytes)>)
    | CopiesShard(from: Peer, to: Peer, hash: Hash, index: nat)
    | CopiesManifest(from: Peer, hash: Hash)
    | KeepsShard(message: ShardMessage)
    | KeepsManifest(peer: Peer, hash: Hash, manifest: Manifest)
    | Changes(peer: Peer, store: Store)
    | Serves(asker: Peer, request: RequestId)
    | Handles(peer: Peer, event: Event)

  /** What callers observe: nothing; not to download a file that they are already
      downloading; or also not to do so among requests for thirty of its shards. */
  datatype Callers = AnyCallers | OnceAtATime | CarefulCallers

  ghost predicate Keep(callers: Callers, n: Node, e: Event) {
    && (!callers.AnyCallers? && e.Downloads? ==> NotInFlight(n, e.hash))
    && (callers.CarefulCallers? ==> Careful(n, e))
  }

  /** Requests that an event sends, and to whom. */
  function Asks(n: Node, e: Event): map<RequestId, Asking> {
    match e
    case Downloads(h, _, local, _, sent) => if local.manifest.Some? then AsksOf(h, local.manifest.value, sent)
        else map[]
    case ManifestComes(q, m, sent) => if q in n.queries && m.Some? then AsksOf(n.queries[q], m.value, sent) else map[]
    case _ => map[]
  }

  function AsksOf(h: Hash, m: Manifest, sent: map<RequestId, nat>): map<RequestId, Asking> {
    map r | r in sent && sent[r] in m.shards :: Asking(m.shards[sent[r]], h, sent[r])
  }

  /** A store with nothing that the other does not have. */
  ghost predicate SubStore(s: Store, whole: Store) {
    && (forall k :: k in s.chunks ==> k in whole.chunks && s.chunks[k] == whole.chunks[k])
    && (forall h :: h in s.manifests ==> h in whole.manifests && s.manifests[h] == whole.manifests[h])
  }

  /** Where an event of a peer comes from. */
  ghost predicate Comes(s: System, p: Peer, e: Event)
    requires p in s.peers
  {
    var n := s.peers[p].node;
    match e
    case Downloads(h, _, local, self, _) => self == p && local == LocalOf(s.peers[p].store, h)
    case ManifestComes(q, m, _) => q in n.queries && m.Some? ==> (n.queries[q], m.value) in s.manifestsSent
    case ShardComes(r, data) => Answer(p, r, Some(data)) in s.answers
    case _ => true
  }

  ghost predicate Allowed(digest: Bytes -> Hash, callers: Callers, s: System, a: Action) {
    match a
    case Uploads(p, data, targets, placed, sends) =>
      p in s.peers && (data != [] ==>
        && (digest(data) in s.uploads ==> s.uploads[digest(data)] == data)
        && |Encoded(data).value| == TOTAL_SHARDS
        && Delivered(digest(data), Encoded(data).value, Targets(targets, p), p,
             TOTAL_SHARDS, s.peers[p].store, placed, sends))
    case CopiesShard(from, to, h, i) => from in s.peers && (h, i) in s.peers[from].store.chunks
    case CopiesManifest(from, h) => from in s.peers && h in s.peers[from].store.manifests
    case KeepsShard(m) => m.to in s.peers && m in s.shardsSent
    case KeepsManifest(p, h, m) => p in s.peers && (h, m) in s.manifestsSent
    case Changes(p, store) => p in s.peers && SubStore(store, s.peers[p].store)
    case Serves(p, r) => (p, r) in s.asked && s.asked[(p, r)].to in s.peers
    case Handles(p, e) =>
      && p in s.peers && WellFormed(s.peers[p].node) && Enabled(s.peers[p].node, e) && Comes(s, p, e)
      && (forall r :: r in Asks(s.peers[p].node, e) ==> (p, r) !in s.asked)
      && Keep(callers, s.peers[p].node, e)
  }

  function WithStore(s: System, p: Peer, store: Store): System
    requires p in s.peers
  {
    s.(peers := s.peers[p := s.peers[p].(store := store)])
  }

  function SentShards(h: Hash, sends: seq<(Peer, nat, Bytes)>): set<ShardMessage> {
    set x | x in sends :: ShardMessage(x.0, h, x.1, x.2)
  }

  function AskedBy(p: Peer, asks: map<RequestId, Asking>): map<(Peer, RequestId), Asking> {
    map k | k in (set r | r in asks :: (p, r)) :: asks[k.1]
  }

  ghost function Next(digest: Bytes -> Hash, s: System, a: Action): System
    requires Allowed(digest, AnyCallers, s, a)
  {
    match a
    case Uploads(p, data, targets, placed, sends) =>
      if data == [] then s
      else
        var h := digest(data);
        var s1 := WithStore(s, p, ShardStore.WithManifest(placed, h, PlacedOn(h, |data|, Targets(targets, p))));
        s1.(uploads := s.uploads[h := data], shardsSent := s.shardsSent + SentShards(h, sends))
    case CopiesShard(from, to, h, i) =>
      s.(shardsSent := s.shardsSent + {ShardMessage(to, h, i, s.peers[from].store.chunks[(h, i)])})
    case CopiesManifest(from, h) => s.(manifestsSent := s.manifestsSent + {(h, s.peers[from].store.manifests[h])})
    case KeepsShard(m) => WithStore(s, m.to, WithChunk(s.peers[m.to].store, m.hash, m.index, m.data))
    case KeepsManifest(p, h, m) => WithStore(s, p, ShardStore.WithManifest(s.peers[p].store, h, m))
    case Changes(p, store) => WithStore(s, p, store)
    case Serves(p, r) =>
      var ask := s.asked[(p, r)];
      s.(answers := s.answers + {Answer(p, r, ChunkAt(s.peers[ask.to].store, ask.hash, ask.index))})
    case Handles(p, e) =>
      s.(peers := s.peers[p := s.peers[p].(node := Step(s.peers[p].node, e))],
         asked := s.asked + AskedBy(p, Asks(s.peers[p].node, e)))
  }

  lemma AllowedToAny(digest: Bytes -> Hash, callers: Callers, s: System, a: Action)
    requires Allowed(digest, callers, s, a)
    ensures Allowed(digest, AnyCallers, s, a)
    ensures a.Handles? ==> a.peer in s.peers && WellFormed(s.peers[a.peer].node)
  {
    hide Delivered, Encoded, Enabled, WellFormed, Comes;
  }

  /** From `s` the actions `acts`, each allowed when it is taken, lead to `s'`. */
  ghost predicate Run(digest: Bytes -> Hash, callers: Callers, s: System, acts: seq<Action>, s': System)
    decreases |acts|
  {
    if acts == [] then s' == s
    else
      && Allowed(digest, callers, s, acts[0])
      && (AllowedToAny(digest, callers, s, acts[0]); Run(digest, callers, Next(digest, s, acts[0]), acts[1..], s'))
  }

  // ----- Growing worlds -----

  ghost predicate Extends(w: World, w': World) { forall h :: h in w ==> h in w' && w'[h] == w[h] }

  lemma ShardStaysGenuine(w: World, w': World, h: Hash, i: nat, data: Bytes)
    requires Extends(w, w') && GenuineShard(w, h, i, data)
    ensures GenuineShard(w', h, i, data)
  {
    hide Encoded;
  }

  lemma FetchStaysSound(w: World, w': World, h: Hash, f: Fetch)
    requires Extends(w, w') && FetchSound(w, h, f)
    ensures FetchSound(w', h, f)
  {
    hide GenuineShard, Count;
    forall i: nat | i < |f.shards| && f.shards[i].Some? ensures GenuineShard(w', h, i, f.shards[i].value) {
      ShardStaysGenuine(w, w', h, i, f.shards[i].value);
    }
  }

  lemma NodeStaysSound(w: World, w': World, n: Node)
    requires Extends(w, w') && NodeSound(w, n)
    ensures NodeSound(w', n)
  {
    hide FetchSound, WellFormed;
    forall h | h in n.active ensures FetchSound(w', h, n.active[h]) { FetchStaysSound(w, w', h, n.active[h]); }
  }

  lemma EventStaysGenuine(w: World, w': World, n: Node, e: Event)
    requires Extends(w, w') && Genuine(w, n, e)
    ensures Genuine(w', n, e)
  {
    hide GenuineShard;
    match e
    case Downloads(h, _, local, _, _) =>
      if local.manifest.Some? {
        forall i | i in local.chunks && i < TOTAL_SHARDS ensures GenuineShard(w', h, i, local.chunks[i]) {
          ShardStaysGenuine(w, w', h, i, local.chunks[i]);
        }
      }
    case ShardComes(r, data) =>
      if r in n.requests { ShardStaysGenuine(w, w', n.requests[r].0, n.requests[r].1, data); }
    case _ =>
  }

  // ----- The invariant -----

  ghost predicate StoreSound(w: World, s: Store) {
    && (forall k :: k in s.chunks ==> GenuineShard(w, k.0, k.1, s.chunks[k]))
    && (forall h :: h in s.manifests ==> GenuineManifest(w, h, s.manifests[h]))
  }

  ghost predicate PeersSound(s: System) {
    forall p :: p in s.peers ==> NodeSound(s.uploads, s.peers[p].node) && StoreSound(s.uploads, s.peers[p].store)
  }

  ghost predicate MessagesSound(s: System) {
    && (forall m :: m in s.shardsSent ==> GenuineShard(s.uploads, m.hash, m.index, m.data))
    && (forall x :: x in s.manifestsSent ==> GenuineManifest(s.uploads, x.0, x.1))
  }

  /** Requests are under way as they were sent, and answered from the store. */
  ghost predicate RequestsSound(s: System) {
    && (forall p, r :: p in s.peers && r in s.peers[p].node.requests ==> IsAsked(s, p, r, s.peers[p].node.requests[r]))
    && (forall a :: a in s.answers && a.data.Some? ==> AnswerSound(s, a))
  }

  predicate IsAsked(s: System, p: Peer, r: RequestId, what: (Hash, nat)) {
    (p, r) in s.asked && s.asked[(p, r)].hash == what.0 && s.asked[(p, r)].index == what.1
  }

  ghost predicate AnswerSound(s: System, a: Answer)
    requires a.data.Some?
  {
    (a.asker, a.request) in s.asked && GenuineShard(s.uploads, s.asked[(a.asker, a.request)].hash,
        s.asked[(a.asker, a.request)].index, a.data.value)
  }

  ghost predicate Sound(s: System) {
    PeersSound(s) && MessagesSound(s) && RequestsSound(s)
  }

  lemma StartSound(names: set<Peer>)
    ensures Sound(Start(names))
  {
    IdleSound(map[]);
  }

  /** Whatever reaches a peer is genuine: manifests and shards from the network and
      from its own store are those of what was uploaded. */
  lemma EventsAreGenuine(digest: Bytes -> Hash, callers: Callers, s: System, p: Peer, e: Event)
    requires Sound(s) && Allowed(digest, callers, s, Handles(p, e))
    ensures Genuine(s.uploads, s.peers[p].node, e)
  {
    hide GenuineShard, GenuineManifest, NodeSound, Enabled, Keep;
    match e
    case ShardComes(r, data) => assert AnswerSound(s, Answer(p, r, Some(data)));
    case _ =>
  }

  // ----- Every action keeps the invariant -----

  lemma SameWorld(w: World)
    ensures Extends(w, w)
  {
  }

  lemma StoreStaysSound(w: World, w': World, s: Store)
    requires Extends(w, w') && StoreSound(w, s)
    ensures StoreSound(w', s)
  {
    hide GenuineShard;
    forall k | k in s.chunks
      ensures GenuineShard(w', k.0, k.1, s.chunks[k])
    {
      ShardStaysGenuine(w, w', k.0, k.1, s.chunks[k]);
    }
  }

  lemma MessagesStaySound(s: System, w': World)
    requires Extends(s.uploads, w') && MessagesSound(s)
    ensures MessagesSound(s.(uploads := w'))
  {
    hide GenuineShard;
    forall m | m in s.shardsSent ensures GenuineShard(w', m.hash, m.index, m.data) {
      ShardStaysGenuine(s.uploads, w', m.hash, m.index, m.data);
    }
  }

  lemma RequestsStaySound(s: System, s': System)
    requires RequestsSound(s) && Extends(s.uploads, s'.uploads) && s'.asked == s.asked && s'.answers == s.answers
    requires s'.peers.Keys == s.peers.Keys && forall p :: p in s.peers ==> s'.peers[p].node == s.peers[p].node
    ensures RequestsSound(s')
  {
    hide GenuineShard;
    forall a | a in s'.answers && a.data.Some? ensures AnswerSound(s', a) {
      assert AnswerSound(s, a);
      ShardStaysGenuine(s.uploads, s'.uploads, s.asked[(a.asker, a.request)].hash,
          s.asked[(a.asker, a.request)].index, a.data.value);
    }
  }

  /** A peer's store changes, and nothing else. */
  lemma StoreKeepsSound(s: System, p: Peer, store: Store)
    requires Sound(s) && p in s.peers && StoreSound(s.uploads, store)
    ensures Sound(WithStore(s, p, store))
  {
    hide NodeSound, StoreSound, MessagesSound;
    var s' := WithStore(s, p, store);
    SameWorld(s.uploads);
    RequestsStaySound(s, s');
    assert MessagesSound(s') by { MessagesBy(s, s'); }
  }

  lemma MessagesBy(s: System, s': System)
    requires MessagesSound(s) && s'.uploads == s.uploads && s'.shardsSent == s.shardsSent
               && s'.manifestsSent == s.manifestsSent
    ensures MessagesSound(s')
  {
    hide GenuineShard, GenuineManifest;
  }

  lemma UploadIsGenuine(w: World, h: Hash, data: Bytes, targets: seq<Peer>, p: Peer, before: Store, placed: Store,
                        sends: seq<(Peer, nat, Bytes)>)
    requires h in w && w[h] == data != [] && targets != [] && |Encoded(data).value| == TOTAL_SHARDS
               && StoreSound(w, before)
    requires Delivered(h, Encoded(data).value, targets, p, TOTAL_SHARDS, before, placed, sends)
    ensures StoreSound(w, ShardStore.WithManifest(placed, h, PlacedOn(h, |data|, targets)))
    ensures forall x :: x in sends ==> GenuineShard(w, h, x.1, x.2)
  {
    hide Encoded;
    forall k | k in placed.chunks ensures GenuineShard(w, k.0, k.1, placed.chunks[k]) {
      assert ChunkAt(placed, k.0, k.1) == Some(placed.chunks[k]);
      if !(k.0 == h && k.1 < TOTAL_SHARDS && Target(targets, k.1) == p && !before.full) {
        assert ChunkAt(before, k.0, k.1) == ChunkAt(placed, k.0, k.1);
      }
    }
  }

  lemma UploadKeepsSound(digest: Bytes -> Hash, s: System, a: Action)
    requires Sound(s) && a.Uploads? && a.data != [] && Allowed(digest, AnyCallers, s, a)
    ensures Sound(Next(digest, s, a)) && Extends(s.uploads, Next(digest, s, a).uploads)
  {
    hide Encoded, Delivered, GenuineShard, StoreSound, NodeSound, MessagesSound, RequestsSound, PlacedOn, SentShards;
    var h, p, s' := digest(a.data), a.peer, Next(digest, s, a);
    var w' := s.uploads[h := a.data];
    StoreStaysSound(s.uploads, w', s.peers[p].store);
    UploadIsGenuine(w', h, a.data, Targets(a.targets, p), p, s.peers[p].store, a.placed, a.sends);
    forall q | q in s.peers ensures NodeSound(w', s.peers[q].node) && StoreSound(w', s.peers[q].store) {
      NodeStaysSound(s.uploads, w', s.peers[q].node);
      StoreStaysSound(s.uploads, w', s.peers[q].store);
    }
    assert PeersSound(s');
    RequestsStaySound(s, s');
    MessagesStaySound(s, w');
    SendsSound(s.(uploads := w'), h, a.sends);
    MessagesBy(s.(uploads := w', shardsSent := s.shardsSent + SentShards(h, a.sends)), s');
  }

  lemma SendsSound(s: System, h: Hash, sends: seq<(Peer, nat, Bytes)>)
    requires MessagesSound(s) && forall x :: x in sends ==> GenuineShard(s.uploads, h, x.1, x.2)
    ensures MessagesSound(s.(shardsSent := s.shardsSent + SentShards(h, sends)))
  {
    hide GenuineShard, GenuineManifest;
  }

  lemma KeepsAreGenuine(s: System, a: Action)
    requires Sound(s)
    ensures a.KeepsShard? && a.message.to in s.peers && a.message in s.shardsSent ==>
              StoreSound(s.uploads,
                  WithChunk(s.peers[a.message.to].store, a.message.hash, a.message.index, a.message.data))
    ensures a.KeepsManifest? && a.peer in s.peers && (a.hash, a.manifest) in s.manifestsSent ==>
              StoreSound(s.uploads, ShardStore.WithManifest(s.peers[a.peer].store, a.hash, a.manifest))
    ensures a.Changes? && a.peer in s.peers && SubStore(a.store, s.peers[a.peer].store) ==>
              StoreSound(s.uploads, a.store)
  {
    hide GenuineShard, GenuineManifest, NodeSound;
  }

  lemma CopiesKeepSound(digest: Bytes -> Hash, s: System, a: Action)
    requires Sound(s) && (a.CopiesShard? || a.CopiesManifest?) && Allowed(digest, AnyCallers, s, a)
    ensures Sound(Next(digest, s, a))
  {
    hide GenuineShard, GenuineManifest, NodeSound;
    SameWorld(s.uploads);
    RequestsStaySound(s, Next(digest, s, a));
  }

  lemma ServesKeepsSound(digest: Bytes -> Hash, s: System, a: Action)
    requires Sound(s) && a.Serves? && Allowed(digest, AnyCallers, s, a)
    ensures Sound(Next(digest, s, a))
  {
    hide GenuineShard, GenuineManifest, NodeSound;
  }

  lemma HandlesKeepsPeers(digest: Bytes -> Hash, s: System, a: Action)
    requires Sound(s) && a.Handles? && Allowed(digest, AnyCallers, s, a)
    ensures PeersSound(Next(digest, s, a)) && MessagesSound(Next(digest, s, a))
  {
    hide StoreSound, NodeSound, MessagesSound, RequestsSound, Enabled, Step, Comes, Asks, Genuine;
    EventsAreGenuine(digest, AnyCallers, s, a.peer, a.event);
    StepKeepsSound(s.uploads, s.peers[a.peer].node, a.event);
    MessagesBy(s, Next(digest, s, a));
  }

  /** What is requested was requested before, or is asked now. */
  ghost predicate OnlyAsks(n: Node, n': Node, asks: map<RequestId, Asking>) {
    forall r :: r in n'.requests ==>
      if r in n.requests then n'.requests[r] == n.requests[r]
      else r in asks && n'.requests[r] == (asks[r].hash, asks[r].index)
  }

  lemma WithRequestsAsks(n: Node, h: Hash, m: Manifest, exempt: set<nat>, sent: map<RequestId, nat>)
    requires AsksFor(n, m, exempt, sent)
    ensures OnlyAsks(n, WithRequests(n, h, sent), AsksOf(h, m, sent))
  {
  }

  lemma OnlyAsksBy(n: Node, n0: Node, n1: Node, n': Node, asks: map<RequestId, Asking>)
    requires OnlyAsks(n0, n1, asks) && n0.requests == n.requests && n'.requests == n1.requests
    ensures OnlyAsks(n, n', asks)
  {
  }

  lemma NothingAskedMore(n: Node, n': Node, asks: map<RequestId, Asking>)
    requires forall r :: r in n'.requests ==> r in n.requests && n'.requests[r] == n.requests[r]
    ensures OnlyAsks(n, n', asks)
  {
  }

  lemma DownloadOnlyAsks(n: Node, e: Event)
    requires WellFormed(n) && Enabled(n, e) && e.Downloads?
    ensures OnlyAsks(n, Step(n, e), Asks(n, e))
  {
    hide Decoded, Count, LocalShards, HeldLocally, AsksFor, AsksOf, WithRequests, OnlyAsks, WellFormed;
    match e
    case Downloads(h, q, local, self, sent) =>
      if local.manifest.Some? {
        var m := local.manifest.value;
        WithRequestsAsks(n, h, m, HeldLocally(m, self), sent);
        OnlyAsksBy(n, n, WithRequests(n, h, sent), Step(n, e), AsksOf(h, m, sent));
      } else {
        NothingAskedMore(n, Step(n, e), Asks(n, e));
      }
  }

  lemma ManifestOnlyAsks(n: Node, e: Event)
    requires WellFormed(n) && Enabled(n, e) && e.ManifestComes? && e.query in n.queries && e.manifest.Some?
    ensures OnlyAsks(n, Step(n, e), Asks(n, e))
  {
    hide AsksFor, AsksOf, WithRequests, OnlyAsks, WellFormed;
    var h, m, n0 := n.queries[e.query], e.manifest.value, FetchNone.WithManifest(n, e.query, e.manifest.value);
    ManifestAsks(n, e.query, m, e.sent);
    assert AsksFor(n0, m, {}, e.sent) by { AsksByRequests(n, n0, m, {}, e.sent); }
    WithRequestsAsks(n0, h, m, {}, e.sent);
    OnlyAsksBy(n, n0, WithRequests(n0, h, e.sent), Step(n, e), AsksOf(h, m, e.sent));
  }

  lemma AsksByRequests(n: Node, n0: Node, m: Manifest, exempt: set<nat>, sent: map<RequestId, nat>)
    requires AsksFor(n, m, exempt, sent) && n0.requests == n.requests
    ensures AsksFor(n0, m, exempt, sent)
  {
  }

  lemma StepOnlyAsks(n: Node, e: Event)
    requires WellFormed(n) && Enabled(n, e)
    ensures OnlyAsks(n, Step(n, e), Asks(n, e))
  {
    hide Enabled, Decoded, OnlyAsks, AsksOf, WellFormed, AcceptShard, Download;
    match e
    case Downloads(_, _, _, _, _) => DownloadOnlyAsks(n, e);
    case ManifestComes(q, m, _) =>
      if q in n.queries && m.Some? { ManifestOnlyAsks(n, e); } else { NothingAskedMore(n, Step(n, e), Asks(n, e)); }
    case NoManifest(_) => NothingAskedMore(n, Step(n, e), Asks(n, e));
    case ShardComes(r, data) => ShardAsksNothing(n, r, data);
    case ShardLost(_) => NothingAskedMore(n, Step(n, e), Asks(n, e));
  }

  lemma ShardAsksNothing(n: Node, r: RequestId, data: Bytes)
    requires WellFormed(n)
    ensures OnlyAsks(n, ShardArrives(n, r, data), map[])
  {
    hide Decoded, OnlyAsks;
    NothingAskedMore(n, ShardArrives(n, r, data), map[]);
  }

  lemma HandlesKeepsRequests(digest: Bytes -> Hash, s: System, a: Action)
    requires Sound(s) && a.Handles? && Allowed(digest, AnyCallers, s, a)
    ensures RequestsSound(Next(digest, s, a))
  {
    hide StoreSound, NodeSound, MessagesSound, Enabled, Step, Comes, Asks, Genuine, GenuineShard, AskedBy;
    var p, n, s' := a.peer, s.peers[a.peer].node, Next(digest, s, a);
    AskedByFacts(p, Asks(n, a.event));
    forall q, r | q in s'.peers && r in s'.peers[q].node.requests
      ensures IsAsked(s', q, r, s'.peers[q].node.requests[r])
    {
      if q == p { StepOnlyAsks(n, a.event); }
    }
    forall x | x in s'.answers && x.data.Some? ensures AnswerSound(s', x) { assert AnswerSound(s, x); }
  }

  lemma AskedByFacts(p: Peer, asks: map<RequestId, Asking>)
    ensures forall q, r :: (q, r) in AskedBy(p, asks) <==> q == p && r in asks
    ensures forall r :: r in asks ==> AskedBy(p, asks)[(p, r)] == asks[r]
  {
  }

  /** Every action keeps the whole network sound, and no upload is forgotten. */
  lemma NextKeepsSound(digest: Bytes -> Hash, s: System, a: Action)
    requires Sound(s) && Allowed(digest, AnyCallers, s, a)
    ensures Sound(Next(digest, s, a)) && Extends(s.uploads, Next(digest, s, a).uploads)
  {
    hide Sound, StoreSound, SubStore, Enabled, Comes, Delivered, Encoded, WithChunk, PlacedOn, Step, Asks, GenuineShard;
    KeepsAreGenuine(s, a);
    match a
    case Uploads(_, _, _, _, _) => if a.data != [] { UploadKeepsSound(digest, s, a); }
    case CopiesShard(_, _, _, _) => CopiesKeepSound(digest, s, a);
    case CopiesManifest(_, _) => CopiesKeepSound(digest, s, a);
    case KeepsShard(m) => StoreKeepsSound(s, m.to, WithChunk(s.peers[m.to].store, m.hash, m.index, m.data));
    case KeepsManifest(p, h, m) => StoreKeepsSound(s, p, ShardStore.WithManifest(s.peers[p].store, h, m));
    case Changes(p, store) => StoreKeepsSound(s, p, store);
    case Serves(_, _) => ServesKeepsSound(digest, s, a);
    case Handles(_, _) =>
      HandlesKeepsPeers(digest, s, a);
      HandlesKeepsRequests(digest, s, a);
      assert Sound(Next(digest, s, a)) by { SoundByParts(Next(digest, s, a)); }
  }

  lemma SoundByParts(s: System)
    requires PeersSound(s) && MessagesSound(s) && RequestsSound(s)
    ensures Sound(s)
  {
  }

  // ----- Runs, and what each peer sees of them -----

  lemma NextPeers(digest: Bytes -> Hash, s: System, a: Action, p: Peer)
    requires Allowed(digest, AnyCallers, s, a)
    ensures Next(digest, s, a).peers.Keys == s.peers.Keys
    ensures p in s.peers && !(a.Handles? && a.peer == p) ==> Next(digest, s, a).peers[p].node == s.peers[p].node
    ensures p in s.peers && a.Handles? && a.peer == p ==>
              Next(digest, s, a).peers[p].node == Step(s.peers[p].node, a.event)
  {
    hide Step, Asks, Encoded, Delivered, Enabled, Comes, SubStore, WithChunk, PlacedOn;
  }

  lemma {:induction false} RunKeepsSound(digest: Bytes -> Hash, callers: Callers, s: System, acts: seq<Action>,
                                         s': System)
    requires Sound(s) && Run(digest, callers, s, acts, s')
    ensures Sound(s') && Extends(s.uploads, s'.uploads) && s'.peers.Keys == s.peers.Keys
    decreases |acts|
  {
    hide Sound, Allowed, Next;
    if acts != [] {
      AllowedToAny(digest, callers, s, acts[0]);
      NextKeepsSound(digest, s, acts[0]);
      forall p { NextPeers(digest, s, acts[0], p); }
      RunKeepsSound(digest, callers, Next(digest, s, acts[0]), acts[1..], s');
    }
  }

  /** What `p` sees of the actions. */
  function EventsOf(p: Peer, acts: seq<Action>): seq<Event> {
    if acts == [] then []
    else if acts[0].Handles? && acts[0].peer == p then [acts[0].event] + EventsOf(p, acts[1..])
    else EventsOf(p, acts[1..])
  }

  function RuleOf(callers: Callers, w: World): Rule {
    if callers == AnyCallers then GenuineEvents(w) else OneAtATime(w)
  }

  lemma HandledIsAdmitted(digest: Bytes -> Hash, callers: Callers, s: System, p: Peer, e: Event, w: World)
    requires Sound(s) && Allowed(digest, callers, s, Handles(p, e)) && Extends(s.uploads, w)
    ensures Admits(RuleOf(callers, w), s.peers[p].node, e)
  {
    hide Genuine, Enabled, Comes, Sound, WellFormed, NotInFlight, Careful;
    EventsAreGenuine(digest, callers, s, p, e);
    EventStaysGenuine(s.uploads, w, s.peers[p].node, e);
  }

  /** A run of the network, seen from one peer, is a run of its download side. */
  lemma {:induction false} Projects(digest: Bytes -> Hash, callers: Callers, s: System, acts: seq<Action>, s': System,
                                    p: Peer)
    requires Sound(s) && Run(digest, callers, s, acts, s') && p in s.peers
    ensures p in s'.peers && Path(RuleOf(callers, s'.uploads), s.peers[p].node, EventsOf(p, acts), s'.peers[p].node)
    ensures callers == CarefulCallers ==> CarefulPath(s'.uploads, s.peers[p].node, EventsOf(p, acts), s'.peers[p].node)
    decreases |acts|
  {
    hide Sound, Next, Admits, Step, Careful, Allowed;
    RunKeepsSound(digest, callers, s, acts, s');
    if acts != [] {
      AllowedToAny(digest, callers, s, acts[0]);
      var s1 := Next(digest, s, acts[0]);
      NextKeepsSound(digest, s, acts[0]);
      NextPeers(digest, s, acts[0], p);
      Projects(digest, callers, s1, acts[1..], s', p);
      if acts[0].Handles? && acts[0].peer == p {
        HandledIsAdmitted(digest, callers, s, p, acts[0].event, s'.uploads);
        HandledCarefully(digest, callers, s, p, acts[0].event);
        var es := EventsOf(p, acts);
        assert es[0] == acts[0].event && es[1..] == EventsOf(p, acts[1..]);
      }
    }
  }

  lemma HandledCarefully(digest: Bytes -> Hash, callers: Callers, s: System, p: Peer, e: Event)
    requires Allowed(digest, callers, s, Handles(p, e))
    ensures callers == CarefulCallers ==> Careful(s.peers[p].node, e)
  {
    hide Careful, Enabled, Comes, NotInFlight;
  }

  lemma FromStart(digest: Bytes -> Hash, callers: Callers, names: set<Peer>, acts: seq<Action>, s: System, p: Peer)
    requires Run(digest, callers, Start(names), acts, s) && p in s.peers
    ensures Sound(s) && Path(RuleOf(callers, s.uploads), Idle(), EventsOf(p, acts), s.peers[p].node)
    ensures callers == CarefulCallers ==> CarefulPath(s.uploads, Idle(), EventsOf(p, acts), s.peers[p].node)
  {
    hide Run, Sound, Path;
    StartSound(names);
    RunKeepsSound(digest, callers, Start(names), acts, s);
    Projects(digest, callers, Start(names), acts, s, p);
  }

  // ----- What downloads tell -----

  /** In every run of the network: a caller that is given data is given what was
      uploaded exactly if the manifest came before the thirtieth shard; otherwise
      it is given an empty file. */
  lemma GivenIsUploadedIff(digest: Bytes -> Hash, names: set<Peer>, acts: seq<Action>, s: System, p: Peer, e: Event,
                           h: Hash, data: Bytes)
    requires Run(digest, AnyCallers, Start(names), acts, s) && Allowed(digest, AnyCallers, s, Handles(p, e))
    requires TellsData(s.peers[p].node, e, h, data)
    ensures Uploaded(s.uploads, h)
    ensures var known := LengthKnown(s.peers[p].node, e, h);
            (data == s.uploads[h] <==> known) && (data == [] <==> !known)
  {
    hide Run, Sound, Path, Admits, Next, Step, LengthKnown;
    FromStart(digest, AnyCallers, names, acts, s, p);
    SameWorld(s.uploads);
    HandledIsAdmitted(digest, AnyCallers, s, p, e, s.uploads);
    DataRightIff(s.uploads, EventsOf(p, acts), s.peers[p].node, e, h, data);
  }

  /** With careful callers, all data that any caller is ever given is what was
      uploaded under the hash that it asked for. */
  lemma CarefulCallersGetTheUploads(digest: Bytes -> Hash, names: set<Peer>, acts: seq<Action>, s: System, p: Peer)
    requires Run(digest, CarefulCallers, Start(names), acts, s) && p in s.peers
    ensures AllRight(s.uploads, s.peers[p].node.replies)
  {
    hide Run, Sound, CarefulPath, Path, NodeSound, FewBegun, AllRight;
    FromStart(digest, CarefulCallers, names, acts, s, p);
    IdleSound(s.uploads);
    DataRepliedIsDataUploaded(s.uploads, Idle(), EventsOf(p, acts), s.peers[p].node);
  }

  /** The state of a peer in a run with callers that download a file once at a time. */
  lemma PeerSound(digest: Bytes -> Hash, names: set<Peer>, acts: seq<Action>, s: System, p: Peer)
    requires Run(digest, OnceAtATime, Start(names), acts, s) && p in s.peers
    ensures Sound(s) && NodeSound(s.uploads, s.peers[p].node) && QueriesSound(s.peers[p].node)
  {
    hide Run, Path, NodeSound, StoreSound, MessagesSound, RequestsSound, QueriesSound;
    FromStart(digest, OnceAtATime, names, acts, s, p);
    IdleSound(s.uploads);
    PathKeepsQueries(s.uploads, Idle(), EventsOf(p, acts), s.peers[p].node);
  }

  /** In `s`, the event comes to `p`; then `more` lead to `s'`, with no download of
      `h` by `p` among them. */
  ghost predicate Follows(digest: Bytes -> Hash, s: System, p: Peer, e: Event, more: seq<Action>, s': System, h: Hash) {
    && Allowed(digest, OnceAtATime, s, Handles(p, e))
    && (AllowedToAny(digest, OnceAtATime, s, Handles(p, e)); Run(digest, OnceAtATime,
         Next(digest, s, Handles(p, e)), more, s'))
    && NoDownloadOf(EventsOf(p, more), h)
  }

  /** A download that begins with no request for the file under way, its manifest
      at hand or not: "none" is told of it, once its manifest is known, only if no
      shard was missing at the peer itself, when all 45 answers are in and fewer
      than thirty are shards. */
  lemma NoneOnlyWhenAllTried(digest: Bytes -> Hash, names: set<Peer>, acts: seq<Action>, s: System, p: Peer, e: Event,
                             more: seq<Action>, s': System, x: Event, h: Hash)
    requires Run(digest, OnceAtATime, Start(names), acts, s) && Follows(digest, s, p, e, more, s', h)
               && IsDownload(e, h)
    requires Outstanding(s.peers[p].node, h) == {}
    requires Allowed(digest, OnceAtATime, s', Handles(p, x)) && Collecting(s'.peers[p].node, h)
               && TellsNone(s'.peers[p].node, x, h)
    ensures Outstanding(Step(s'.peers[p].node, x), h) == {} && Missing(e) == 0
    ensures var f := s'.peers[p].node.active[h]; f.received + f.failed + 1 == TOTAL_SHARDS && f.received < DATA_SHARDS
  {
    hide Run, Path, NodeSound, Sound, QueriesSound, Outstanding, Step, TellsNone, Collecting, Admits, Follows, Allowed;
    DownloadProjects(digest, names, acts, s, p, e, more, s', h);
    SameWorld(s'.uploads);
    HandledIsAdmitted(digest, OnceAtATime, s', p, x, s'.uploads);
    NoneAfter(s'.uploads, s.peers[p].node, e, EventsOf(p, more), s'.peers[p].node, x, h);
  }

  /** The same for one peer's own events. */
  lemma NoneAfter(w: World, n: Node, e: Event, es: seq<Event>, last: Node, x: Event, h: Hash)
    requires NodeSound(w, n) && QueriesSound(n) && Admits(OneAtATime(w), n, e)
               && IsDownload(e, h) && Outstanding(n, h) == {}
    requires Path(OneAtATime(w), Step(n, e), es, last) && NoDownloadOf(es, h)
    requires Admits(OneAtATime(w), last, x) && Collecting(last, h) && TellsNone(last, x, h)
    ensures Outstanding(Step(last, x), h) == {} && Missing(e) == 0
    ensures last.active[h].received + last.active[h].failed + 1 == TOTAL_SHARDS && last.active[h].received < DATA_SHARDS
  {
    hide Path, NodeSound, QueriesSound, Outstanding, Step, TellsNone, Genuine, Enabled, Clean, EndsInNone,
         NotInFlight, Missing;
    StartsClean(w, n, e, h);
    SoundThen(w, n, e);
    EndsBy(w, Step(n, e), h, es, last, x);
    CleanComplete(w, Step(n, e), h, Missing(e), es, last, x);
  }

  lemma DownloadProjects(digest: Bytes -> Hash, names: set<Peer>, acts: seq<Action>, s: System, p: Peer, e: Event,
                         more: seq<Action>, s': System, h: Hash)
    requires Run(digest, OnceAtATime, Start(names), acts, s) && Follows(digest, s, p, e, more, s', h)
               && IsDownload(e, h)
    ensures p in s.peers && WellFormed(s.peers[p].node) && Sound(s') && p in s'.peers
    ensures NodeSound(s'.uploads, s.peers[p].node) && QueriesSound(s.peers[p].node)
    ensures Admits(OneAtATime(s'.uploads), s.peers[p].node, e)
    ensures Path(OneAtATime(s'.uploads), Step(s.peers[p].node, e), EventsOf(p, more), s'.peers[p].node)
    ensures NoDownloadOf(EventsOf(p, more), h)
  {
    hide Run, Path, NodeSound, Sound, QueriesSound, Step, Admits, Next, NoDownloadOf;
    AllowedToAny(digest, OnceAtATime, s, Handles(p, e));
    var s1 := Next(digest, s, Handles(p, e));
    HandledPeer(digest, s, p, e);
    PeerSound(digest, names, acts, s, p);
    NextKeepsSound(digest, s, Handles(p, e));
    RunKeepsSound(digest, OnceAtATime, s1, more, s');
    NodeStaysSound(s.uploads, s'.uploads, s.peers[p].node);
    HandledIsAdmitted(digest, OnceAtATime, s, p, e, s'.uploads);
    Projects(digest, OnceAtATime, s1, more, s', p);
  }

  lemma HandledPeer(digest: Bytes -> Hash, s: System, p: Peer, e: Event)
    requires Allowed(digest, AnyCallers, s, Handles(p, e))
    ensures p in s.peers && Next(digest, s, Handles(p, e)).peers.Keys == s.peers.Keys
    ensures Next(digest, s, Handles(p, e)).peers[p].node == Step(s.peers[p].node, e)
  {
    hide Step, Asks, Enabled, Comes;
  }

  lemma EndsBy(w: World, n: Node, h: Hash, es: seq<Event>, last: Node, e: Event)
    requires Path(OneAtATime(w), n, es, last) && NoDownloadOf(es, h)
    requires Admits(OneAtATime(w), last, e) && Collecting(last, h) && TellsNone(last, e, h)
    ensures EndsInNone(w, n, h, es, last, e)
  {
  }

  lemma SoundThen(w: World, n: Node, e: Event)
    requires NodeSound(w, n) && QueriesSound(n) && Admits(OneAtATime(w), n, e)
    ensures NodeSound(w, Step(n, e)) && QueriesSound(Step(n, e))
  {
    hide NodeSound, QueriesSound, Genuine, Enabled, Step;
    StepKeepsSound(w, n, e);
    StepKeepsQueries(w, n, e);
  }

  /** Upload, then download: how a download ends that begins with none of the file
      open or under way at its peer, the manifest in its store or not, once nothing
      of it is under way any more. The caller has been given what was uploaded
      exactly if a manifest was had and at most fifteen shards have failed or were
      missing in the peer's own store; the other ends are those of one peer. */
  lemma DownloadGivesTheUpload(digest: Bytes -> Hash, names: set<Peer>, acts: seq<Action>, s: System, p: Peer, e: Event,
                               more: seq<Action>, s': System, h: Hash)
    requires Run(digest, OnceAtATime, Start(names), acts, s) && Follows(digest, s, p, e, more, s', h)
               && IsDownload(e, h)
    requires p in s'.peers && Outstanding(s.peers[p].node, h) == {} && AllIn(s'.peers[p].node, h)
    ensures WellFormed(s.peers[p].node)
    ensures var n, n', n0, es := s.peers[p].node, s'.peers[p].node, Step(s.peers[p].node, e), EventsOf(p, more);
            var search := if e.local.manifest.Some? then Found else Fate(n0, es, h);
            EndsBySearch(s'.uploads, n, n', h, search, Missing(e), Missing(e) + Losses(n0, es, h), LastFails(n0, es, h))
  {
    hide Run, Path, NodeSound, Sound, QueriesSound, Outstanding, Step, Admits, Next, NoDownloadOf, Allowed, Losses,
         EndsBySearch, Fate, LastFails, Missing, Follows, AllIn;
    DownloadProjects(digest, names, acts, s, p, e, more, s', h);
    DownloadEnds(s'.uploads, s.peers[p].node, e, EventsOf(p, more), s'.peers[p].node, h);
  }

  // ----- What is kept is served -----

  /** A shard that a peer holds stays there unaltered until its store drops it. */
  lemma HeldStays(digest: Bytes -> Hash, s: System, a: Action, p: Peer, h: Hash, i: nat)
    requires Sound(s) && Allowed(digest, AnyCallers, s, a) && p in s.peers && ChunkAt(s.peers[p].store, h, i).Some?
    requires !(a.Changes? && a.peer == p)
    ensures p in Next(digest, s, a).peers
              && ChunkAt(Next(digest, s, a).peers[p].store, h, i) == ChunkAt(s.peers[p].store, h, i)
  {
    hide GenuineShard, NodeSound, Step, Asks, Enabled, Comes, Encoded, Delivered, MessagesSound, RequestsSound,
         StoreSound, PlacedOn;
    NextKeepsSound(digest, s, a);
    NextPeers(digest, s, a, p);
    StoreAfter(digest, s, a, p, h, i);
    HeldIsGenuine(s.uploads, s.peers[p].store, h, i);
    HeldIsGenuine(Next(digest, s, a).uploads, Next(digest, s, a).peers[p].store, h, i);
    ShardStaysGenuine(s.uploads, Next(digest, s, a).uploads, h, i, ChunkAt(s.peers[p].store, h, i).value);
    OneShardOnly(Next(digest, s, a).uploads, h, i, ChunkAt(s.peers[p].store, h, i).value,
        ChunkAt(Next(digest, s, a).peers[p].store, h, i).value);
  }

  lemma OneShardOnly(w: World, h: Hash, i: nat, a: Bytes, b: Bytes)
    requires GenuineShard(w, h, i, a) && GenuineShard(w, h, i, b)
    ensures a == b
  {
  }

  lemma HeldIsGenuine(w: World, s: Store, h: Hash, i: nat)
    requires StoreSound(w, s) && ChunkAt(s, h, i).Some?
    ensures GenuineShard(w, h, i, ChunkAt(s, h, i).value)
  {
    hide GenuineShard, GenuineManifest;
  }

  lemma StoreAfter(digest: Bytes -> Hash, s: System, a: Action, p: Peer, h: Hash, i: nat)
    requires Allowed(digest, AnyCallers, s, a) && p in s.peers && ChunkAt(s.peers[p].store, h, i).Some?
    requires !(a.Changes? && a.peer == p)
    ensures p in Next(digest, s, a).peers && ChunkAt(Next(digest, s, a).peers[p].store, h, i).Some?
  {
    hide Step, Asks, Enabled, Comes, Encoded, PlacedOn, Targets, Target, SentShards;
    if a.Uploads? && a.peer == p && a.data != [] {
      PlacedKeeps(digest(a.data), Encoded(a.data).value, Targets(a.targets, p), p,
          s.peers[p].store, a.placed, a.sends, h, i);
    }
  }

  lemma PlacedKeeps(g: Hash, shards: Shards, targets: seq<Peer>, p: Peer, before: Store, placed: Store,
                    sends: seq<(Peer, nat, Bytes)>, h: Hash, i: nat)
    requires targets != [] && |shards| == TOTAL_SHARDS
               && Delivered(g, shards, targets, p, TOTAL_SHARDS, before, placed, sends)
    requires ChunkAt(before, h, i).Some?
    ensures ChunkAt(placed, h, i).Some?
  {
  }

  /** Every shard of an upload is here, or on its way to the peer that the manifest
      names; a peer with room that takes it in holds it. */
  lemma UploadPlacesAll(digest: Bytes -> Hash, s: System, a: Action, i: nat)
    requires Sound(s) && Allowed(digest, AnyCallers, s, a) && a.Uploads? && a.data != [] && i < TOTAL_SHARDS
    ensures var s', h, t := Next(digest, s, a), digest(a.data), Target(Targets(a.targets, a.peer), i);
            && Uploaded(s'.uploads, h) && s'.uploads[h] == a.data
            && (t == a.peer && !s.peers[t].store.full ==>
                 ChunkAt(s'.peers[t].store, h, i) == Some(Codeword(s'.uploads, h)[i]))
            && (t != a.peer ==> ShardMessage(t, h, i, Codeword(s'.uploads, h)[i]) in s'.shardsSent)
  {
    hide Encoded, PlacedOn, Target;
  }

  lemma KeptIsHeld(digest: Bytes -> Hash, s: System, m: ShardMessage)
    requires Allowed(digest, AnyCallers, s, KeepsShard(m)) && !s.peers[m.to].store.full
    ensures ChunkAt(Next(digest, s, KeepsShard(m)).peers[m.to].store, m.hash, m.index) == Some(m.data)
  {
  }

  /** A peer that is asked for a shard answers with the uploaded one if it holds it,
      and with nothing otherwise. */
  lemma ServedIffHeld(digest: Bytes -> Hash, s: System, p: Peer, r: RequestId)
    requires Sound(s) && Allowed(digest, AnyCallers, s, Serves(p, r))
    ensures var ask, s' := s.asked[(p, r)], Next(digest, s, Serves(p, r));
            var held := ChunkAt(s.peers[ask.to].store, ask.hash, ask.index);
            && Answer(p, r, held) in s'.answers
                 && (held.Some? ==> GenuineShard(s.uploads, ask.hash, ask.index, held.value))
            && forall x :: x in s'.answers && x !in s.answers ==> x == Answer(p, r, held)
  {
    hide GenuineShard, NodeSound, MessagesSound, RequestsSound, StoreSound;
    var ask := s.asked[(p, r)];
    if ChunkAt(s.peers[ask.to].store, ask.hash, ask.index).Some? {
      HeldIsGenuine(s.uploads, s.peers[ask.to].store, ask.hash, ask.index);
    }
  }
}
