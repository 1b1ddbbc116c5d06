/** The download side of the storage node's event loop, as functions on values:
    a fetch collects shards in whatever order they come, and answers its caller. */
module FetchProtocol {
  import opened Wrappers
  import opened ErasureCoding

  type Hash = string
  type Peer = string
  type QueryId = nat
  type RequestId = nat

  datatype Manifest = Manifest(fileHash: Hash, size: nat, shards: map<nat, Peer>)

  /** `pending` while the caller has not been answered. */
  datatype Fetch = Fetch(
    pending: bool, shards: Received, received: nat, failed: nat,
    originalSize: nat, manifest: Option<Manifest>)

  function NoShards(): Received { seq(TOTAL_SHARDS, _ => None) }

  datatype Node = Node(
    active: map<Hash, Fetch>,
    queries: map<QueryId, Hash>,
    requests: map<RequestId, (Hash, nat)>,
    replies: seq<(Hash, Option<Bytes>)>)

  /** Shard indices are positions in a vector of 45. */
  ghost predicate WellFormed(n: Node) {
    && (forall h :: h in n.active ==> |n.active[h].shards| == TOTAL_SHARDS)
    && (forall r :: r in n.requests ==> n.requests[r].1 < TOTAL_SHARDS)
  }

  /** Answers the caller, if it has not been, and closes the fetch. */
  function Finish(n: Node, h: Hash, answer: Option<Bytes>): Node
    requires h in n.active
  {
    n.(active := n.active - {h},
       replies := if n.active[h].pending then n.replies + [(h, answer)] else n.replies)
  }

  function ToOption(r: Result<Bytes>): Option<Bytes> {
    if r.Ok? then Some(r.value) else None
  }

  function AcceptShard(n: Node, h: Hash, index: nat, data: Bytes): Node
    requires WellFormed(n) && index < TOTAL_SHARDS
  {
    if h !in n.active || n.active[h].shards[index].Some? then n
    else
      var f := n.active[h];
      var f1 := f.(shards := f.shards[index := Some(data)], received := f.received + 1);
      if f1.received >= DATA_SHARDS
      then Finish(n.(active := n.active[h := f1]), h, ToOption(Decoded(f1.shards, f1.originalSize)))
      else n.(active := n.active[h := f1])
  }

  function CountFailure(n: Node, h: Hash): Node {
    if h !in n.active then n
    else
      var f1 := n.active[h].(failed := n.active[h].failed + 1);
      var n1 := n.(active := n.active[h := f1]);
      if f1.failed + f1.received >= TOTAL_SHARDS then Finish(n1, h, None) else n1
  }

  /** Requests for shards of `h`: which request asks for which shard. */
  function WithRequests(n: Node, h: Hash, sent: map<RequestId, nat>): Node {
    n.(requests := n.requests + Asked(h, sent))
  }

  function Asked(h: Hash, sent: map<RequestId, nat>): map<RequestId, (Hash, nat)> {
    map r | r in sent :: (h, sent[r])
  }

  /** What the node knows of a file without asking anyone. */
  datatype Local = Local(manifest: Option<Manifest>, chunks: map<nat, Bytes>)

  /** The chunks that the manifest places on `self` and that are there. */
  function LocalShards(m: Manifest, local: Local, self: Peer): (r: Received)
    ensures |r| == TOTAL_SHARDS
  {
    seq(TOTAL_SHARDS, i requires 0 <= i < TOTAL_SHARDS =>
          if i in m.shards && m.shards[i] == self && i in local.chunks then Some(local.chunks[i]) else None)
  }

  /** A fetch that begins with the shards at hand, and may be over at once. */
  function StartWith(n: Node, h: Hash, m: Manifest, shards: Received): Node
    requires |shards| == TOTAL_SHARDS
  {
    if Count(shards, 0) < DATA_SHARDS
    then n.(active := n.active[h := Fetch(true, shards, Count(shards, 0), 0, m.size, Some(m))])
    else match Decoded(shards, m.size)
      case Ok(d) => n.(replies := n.replies + [(h, Some(d))])
      case Err(_) => n
  }

  function Download(n: Node, h: Hash, query: QueryId, local: Local, self: Peer, sent: map<RequestId, nat>): Node {
    match local.manifest
    case None =>
      n.(queries := n.queries[query := h],
         active := n.active[h := Fetch(true, NoShards(), 0, 0, 0, None)])
    case Some(m) =>
      StartWith(WithRequests(n, h, sent), h, m, LocalShards(m, local, self))
  }

  function ManifestArrives(n: Node, query: QueryId, manifest: Option<Manifest>, sent: map<RequestId, nat>): Node {
    if query !in n.queries then n
    else
      var h := n.queries[query];
      var n1 := n.(queries := n.queries - {query});
      match manifest
      case None => n1
      case Some(m) =>
        var n2 := if h in n1.active
                  then n1.(active := n1.active[h := n1.active[h].(manifest := Some(m), originalSize := m.size)])
                  else n1;
        WithRequests(n2, h, sent)
  }

  function ManifestMissing(n: Node, query: QueryId): Node {
    if query !in n.queries then n
    else
      var h := n.queries[query];
      var n1 := n.(queries := n.queries - {query});
      if h in n1.active then Finish(n1, h, None) else n1
  }

  function ShardArrives(n: Node, request: RequestId, data: Bytes): Node
    requires WellFormed(n)
  {
    if request !in n.requests then n
    else
      var (h, index) := n.requests[request];
      AcceptShard(n.(requests := n.requests - {request}), h, index, data)
  }

  function ShardFails(n: Node, request: RequestId): Node {
    if request !in n.requests then n
    else CountFailure(n.(requests := n.requests - {request}), n.requests[request].0)
  }

  datatype Event =
    | Downloads(hash: Hash, query: QueryId, local: Local, self: Peer, sent: map<RequestId, nat>)
    | ManifestComes(query: QueryId, manifest: Option<Manifest>, sent: map<RequestId, nat>)
    | NoManifest(query: QueryId)
    | ShardComes(request: RequestId, data: Bytes)
    | ShardLost(request: RequestId)

  /** Each shard that `m` places elsewhere is asked for once, under a new id; a
      node asks even itself when the manifest came from the network. */
  ghost predicate AsksFor(n: Node, m: Manifest, exempt: set<nat>, sent: map<RequestId, nat>) {
    && sent.Keys !! n.requests.Keys
    && (forall r, s :: r in sent && s in sent && r != s ==> sent[r] != sent[s])
    && (forall r :: r in sent ==> sent[r] in m.shards.Keys - exempt)
    && (forall i :: i in m.shards.Keys - exempt ==> exists r :: r in sent && sent[r] == i)
  }

  function HeldLocally(m: Manifest, self: Peer): set<nat> { set i | i in m.shards && m.shards[i] == self }

  /** What the network layer guarantees of the ids it hands out. */
  ghost predicate Enabled(n: Node, e: Event) {
    match e
    case Downloads(h, q, local, self, sent) =>
      && q !in n.queries
      && (local.manifest.Some? ==>
            ManifestInRange(local.manifest.value)
                && AsksFor(n, local.manifest.value, HeldLocally(local.manifest.value, self), sent))
    case ManifestComes(q, m, sent) => q in n.queries && m.Some? ==>
        ManifestInRange(m.value) && AsksFor(n, m.value, {}, sent)
    case _ => true
  }

  ghost predicate ManifestInRange(m: Manifest) {
    forall i :: i in m.shards ==> i < TOTAL_SHARDS
  }

  function Step(n: Node, e: Event): Node
    requires WellFormed(n)
  {
    match e
    case Downloads(h, q, local, self, sent) => Download(n, h, q, local, self, sent)
    case ManifestComes(q, m, sent) => ManifestArrives(n, q, m, sent)
    case NoManifest(q) => ManifestMissing(n, q)
    case ShardComes(r, data) => ShardArrives(n, r, data)
    case ShardLost(r) => ShardFails(n, r)
  }

  lemma DownloadWellFormed(n: Node, h: Hash, q: QueryId, local: Local, self: Peer, sent: map<RequestId, nat>)
    requires WellFormed(n) && Enabled(n, Downloads(h, q, local, self, sent))
    ensures WellFormed(Download(n, h, q, local, self, sent))
  {
    hide Decoded, Count, LocalShards;
  }

  lemma ManifestWellFormed(n: Node, q: QueryId, m: Option<Manifest>, sent: map<RequestId, nat>)
    requires WellFormed(n) && Enabled(n, ManifestComes(q, m, sent))
    ensures WellFormed(ManifestArrives(n, q, m, sent))
  {
  }

  lemma ShardWellFormed(n: Node, r: RequestId, data: Bytes)
    requires WellFormed(n)
    ensures WellFormed(ShardArrives(n, r, data)) && WellFormed(ShardFails(n, r))
  {
    hide Decoded;
  }

  lemma StepWellFormed(n: Node, e: Event)
    requires WellFormed(n) && Enabled(n, e)
    ensures WellFormed(Step(n, e))
  {
    hide Download, ManifestArrives, ShardArrives, ShardFails, AsksFor;
    match e
    case Downloads(h, q, local, self, sent) => DownloadWellFormed(n, h, q, local, self, sent);
    case ManifestComes(q, m, sent) => ManifestWellFormed(n, q, m, sent);
    case NoManifest(q) =>
    case ShardComes(r, data) => ShardWellFormed(n, r, data);
    case ShardLost(r) => ShardWellFormed(n, r, []);
  }
}
