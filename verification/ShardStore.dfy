/** The record store of a storage node: shards by file and index, and manifests;
    and where an upload puts them. */
module ShardStore {
  import opened Wrappers
  import opened ErasureCoding
  import opened FetchProtocol

  type Chunks = map<(Hash, nat), Bytes>

  /** A full store refuses every put, and no caller asks whether it did. */
  datatype Store = Store(chunks: Chunks, manifests: map<Hash, Manifest>, full: bool)

  function WithChunk(s: Store, h: Hash, i: nat, data: Bytes): Store {
    if s.full then s else s.(chunks := s.chunks[(h, i) := data])
  }

  function WithManifest(s: Store, h: Hash, m: Manifest): Store {
    if s.full then s else s.(manifests := s.manifests[h := m])
  }

  function ChunkAt(s: Store, h: Hash, i: nat): Option<Bytes> {
    if (h, i) in s.chunks then Some(s.chunks[(h, i)]) else None
  }

  function ManifestAt(s: Store, h: Hash): Option<Manifest> {
    if h in s.manifests then Some(s.manifests[h]) else None
  }

  /** What the node knows of a file without asking anyone. */
  function LocalOf(s: Store, h: Hash): Local {
    Local(ManifestAt(s, h), map k | k in s.chunks && k.0 == h :: k.1 := s.chunks[k])
  }

  /** Deleting a file drops its manifest and the shards that the manifest names. */
  function Deleted(s: Store, h: Hash): Store {
    if h !in s.manifests then s
    else s.(chunks := s.chunks - (set i | i in s.manifests[h].shards :: (h, i)), manifests := s.manifests - {h})
  }

  function Targets(peers: seq<Peer>, self: Peer): (t: seq<Peer>)
    ensures t != []
  {
    if peers == [] then [self] else peers
  }

  function PlacedOn(h: Hash, size: nat, targets: seq<Peer>): Manifest
    requires targets != []
  {
    Manifest(h, size, map i: nat | i < TOTAL_SHARDS :: targets[i % |targets|])
  }

  function Target(targets: seq<Peer>, i: nat): Peer
    requires targets != []
  {
    targets[i % |targets|]
  }

  /** Each of the first `n` shards has been put here or sent to its target peer,
      and nothing else has been put or sent. */
  ghost predicate Delivered(h: Hash, shards: Shards, targets: seq<Peer>, self: Peer, n: nat,
                            before: Store, after: Store, sends: seq<(Peer, nat, Bytes)>)
    requires targets != [] && n <= |shards|
  {
    && after.full == before.full && after.manifests == before.manifests
    && (forall i: nat :: i < n && Target(targets, i) == self && !before.full ==>
         ChunkAt(after, h, i) == Some(shards[i]))
    && (forall g, i: nat :: !(g == h && i < n && Target(targets, i) == self && !before.full) ==>
         ChunkAt(after, g, i) == ChunkAt(before, g, i))
    && (forall i: nat :: i < n && Target(targets, i) != self ==> (Target(targets, i), i, shards[i]) in sends)
    && (forall s :: s in sends ==> s.1 < n && s.0 == Target(targets, s.1) != self && s.2 == shards[s.1])
  }

  lemma NothingDelivered(h: Hash, shards: Shards, targets: seq<Peer>, self: Peer, store: Store)
    requires targets != []
    ensures Delivered(h, shards, targets, self, 0, store, store, [])
  {
  }

  lemma DeliverOne(h: Hash, shards: Shards, targets: seq<Peer>, self: Peer, i: nat,
                   before: Store, after: Store, sends: seq<(Peer, nat, Bytes)>)
    requires targets != [] && i < |shards| && Delivered(h, shards, targets, self, i, before, after, sends)
    ensures if Target(targets, i) == self
            then Delivered(h, shards, targets, self, i + 1, before, WithChunk(after, h, i, shards[i]), sends)
            else Delivered(h, shards, targets, self, i + 1, before, after, sends + [(Target(targets, i), i, shards[i])])
  {
    hide Target;
  }
}
