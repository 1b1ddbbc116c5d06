/** What an upload is for: the file outlives its peers. After an upload to distinct
    peers that take in what they are sent, any loss of peers that the placement
    tolerates leaves shards that decode to the file. */
module Durability {
  import opened Basics
  import opened Wrappers
  import opened ErasureCoding
  import opened Placement
  import opened FetchProtocol
  import opened FetchSafety
  import opened ShardStore
  import opened StorageSystem

  /** `p` has room, keeps what it has, and takes in the shards of `h` that it is sent. */
  ghost predicate Reliable(s: System, a: Action, acts: seq<Action>, p: Peer, h: Hash)
    requires a.Uploads? && a.targets != []
  {
    && p in s.peers && !s.peers[p].store.full
    && (forall x :: x in acts ==> !(x.Changes? && x.peer == p))
    && (p != a.peer ==>
         forall i: nat :: i < 45 && a.targets[i % |a.targets|] == p ==>
           exists x :: x in acts && TakesIn(x, p, h, i))
  }

  predicate TakesIn(x: Action, p: Peer, h: Hash, i: nat) {
    x.KeepsShard? && x.message.to == p && x.message.hash == h && x.message.index == i
  }

  /** The shards of `h` that are still where the manifest says, without the peers in
      `lost`. */
  function Left(s: System, h: Hash, m: Manifest, lost: set<Peer>): (r: Received)
    ensures |r| == 45
  {
    seq(45, i requires 0 <= i < 45 =>
          if i in m.shards && m.shards[i] !in lost && m.shards[i] in s.peers
          then ChunkAt(s.peers[m.shards[i]].store, h, i) else None)
  }

  // ----- What reliable peers hold -----

  lemma RoomStays(digest: Bytes -> Hash, s: System, a: Action, p: Peer)
    requires Allowed(digest, AnyCallers, s, a) && p in s.peers && !(a.Changes? && a.peer == p)
    ensures p in Next(digest, s, a).peers && Next(digest, s, a).peers[p].store.full == s.peers[p].store.full
  {
    hide Step, Asks, Encoded, Enabled, Comes, SubStore, PlacedOn;
  }

  ghost predicate Holds(s: System, p: Peer, h: Hash, i: nat) {
    p in s.peers && ChunkAt(s.peers[p].store, h, i).Some?
  }

  lemma TakenIn(digest: Bytes -> Hash, s: System, a: Action, p: Peer, h: Hash, i: nat)
    requires Allowed(digest, AnyCallers, s, a) && TakesIn(a, p, h, i) && p in s.peers && !s.peers[p].store.full
    ensures Holds(Next(digest, s, a), p, h, i)
  {
    KeptIsHeld(digest, s, a.message);
  }

  /** Once held, or taken in on the way, a shard is there at the end. */
  lemma {:induction false} HeldAlong(digest: Bytes -> Hash, callers: Callers, s: System, acts: seq<Action>, s': System,
                                     p: Peer, h: Hash, i: nat)
    requires Sound(s) && Run(digest, callers, s, acts, s') && p in s.peers && !s.peers[p].store.full
    requires forall x :: x in acts ==> !(x.Changes? && x.peer == p)
    requires Holds(s, p, h, i) || exists x :: x in acts && TakesIn(x, p, h, i)
    ensures Holds(s', p, h, i)
    decreases |acts|
  {
    hide Sound, Allowed, Next;
    if acts != [] {
      AllowedToAny(digest, callers, s, acts[0]);
      var s1 := Next(digest, s, acts[0]);
      NextKeepsSound(digest, s, acts[0]);
      RoomStays(digest, s, acts[0], p);
      if Holds(s, p, h, i) {
        HeldStays(digest, s, acts[0], p, h, i);
      } else if TakesIn(acts[0], p, h, i) {
        TakenIn(digest, s, acts[0], p, h, i);
      } else {
        var x :| x in acts && TakesIn(x, p, h, i);
        assert x in acts[1..];
      }
      HeldAlong(digest, callers, s1, acts[1..], s', p, h, i);
    }
  }

  /** What an upload leaves: the manifest in plain terms, and the uploader's own
      shards. */
  lemma AfterUpload(digest: Bytes -> Hash, s: System, a: Action)
    requires Sound(s) && Allowed(digest, AnyCallers, s, a) && a.Uploads? && a.data != [] && a.targets != []
    requires !s.peers[a.peer].store.full
    ensures var s1, h := Next(digest, s, a), digest(a.data);
            && Sound(s1) && s1.peers.Keys == s.peers.Keys && h in s1.uploads && s1.uploads[h] == a.data
            && (forall p :: p in s.peers ==> s1.peers[p].store.full == s.peers[p].store.full)
            && a.peer in s1.peers && h in s1.peers[a.peer].store.manifests
            && s1.peers[a.peer].store.manifests[h]
                 == Manifest(h, |a.data|, map i: nat | i < 45 :: a.targets[i % |a.targets|])
            && forall i: nat :: i < 45 && a.targets[i % |a.targets|] == a.peer ==> Holds(s1, a.peer, h, i)
  {
    hide Sound, Encoded;
    NextKeepsSound(digest, s, a);
    forall p | p in s.peers ensures Next(digest, s, a).peers[p].store.full == s.peers[p].store.full {
      RoomStays(digest, s, a, p);
    }
    forall i: nat | i < 45 && a.targets[i % |a.targets|] == a.peer
      ensures Holds(Next(digest, s, a), a.peer, digest(a.data), i)
    {
      UploadPlacesAll(digest, s, a, i);
    }
  }

  // ----- Counting -----

  function Positions(targets: seq<Peer>, lost: set<Peer>): set<nat> {
    set j | 0 <= j < |targets| && targets[j] in lost
  }

  lemma {:induction false} FewPositions(targets: seq<Peer>, lost: set<Peer>)
    requires forall i, j :: 0 <= i < j < |targets| ==> targets[i] != targets[j]
    ensures |Positions(targets, lost)| <= |lost|
    decreases |lost|
  {
    if lost == {} {
      assert Positions(targets, lost) == {};
    } else {
      var p :| p in lost;
      FewPositions(targets, lost - {p});
      if j :| 0 <= j < |targets| && targets[j] == p {
        assert Positions(targets, lost) == Positions(targets, lost - {p}) + {j};
      } else {
        assert Positions(targets, lost) == Positions(targets, lost - {p});
      }
    }
  }

  lemma LossGrows(n: nat, j: nat, k: nat)
    requires n > 0 && j <= k
    ensures WorstLoss(n, j) <= WorstLoss(n, k)
  {
    Distribute(j, k - j, TOTAL_SHARDS / n);
  }

  lemma LossBound(n: nat, positions: set<nat>, k: nat)
    requires n > 0 && |positions| <= k && forall j :: j in positions ==> j < n
    ensures |Lost(positions, n)| <= WorstLoss(n, k)
  {
    hide Lost, WorstLoss;
    LostAtMost(n, positions);
    LossGrows(n, |positions|, k);
  }

  lemma LostAtMost(n: nat, positions: set<nat>)
    requires n > 0 && forall j :: j in positions ==> j < n
    ensures |Lost(positions, n)| <= WorstLoss(n, |positions|)
  {
    hide Lost;
    LostExactly(positions, n);
    SubsetSize(Below(positions, TOTAL_SHARDS % n), positions);
    SizeBelow(Below(positions, TOTAL_SHARDS % n), TOTAL_SHARDS % n);
  }

  /** If only what went down with lost peers is missing, thirty shards are left. */
  lemma EnoughLeft(r: Received, targets: seq<Peer>, lost: set<Peer>)
    requires |r| == TOTAL_SHARDS && targets != []
    requires forall i, j :: 0 <= i < j < |targets| ==> targets[i] != targets[j]
    requires WorstLoss(|targets|, |lost|) <= PARITY_SHARDS
    requires forall i: nat :: i < TOTAL_SHARDS && targets[i % |targets|] !in lost ==> r[i].Some?
    ensures Count(r, 0) >= DATA_SHARDS
  {
    hide WorstLoss, Count;
    var k: nat := TOTAL_SHARDS;
    var positions, all := Positions(targets, lost), FirstNats(k);
    FewPositions(targets, lost);
    LossBound(|targets|, positions, |lost|);
    CountFilled(r);
    assert all <= Filled(r) + Lost(positions, |targets|);
    SubsetSize(all, Filled(r) + Lost(positions, |targets|));
  }

  // ----- The file outlives its peers -----

  /** After an upload to distinct peers, whatever else goes on: if all peers but those
      in `lost` have room, keep what they have and take in what they are sent, and
      the loss of as many peers is one that the placement tolerates, then what is
      left where the manifest says decodes to the file. */
  lemma UploadSurvives(digest: Bytes -> Hash, callers: Callers, s: System, a: Action, acts: seq<Action>, s2: System,
                       lost: set<Peer>)
    requires Sound(s) && Allowed(digest, AnyCallers, s, a) && a.Uploads? && a.data != [] && a.targets != []
    requires forall i, j :: 0 <= i < j < |a.targets| ==> a.targets[i] != a.targets[j]
    requires !s.peers[a.peer].store.full && Run(digest, callers, Next(digest, s, a), acts, s2)
    requires forall j :: 0 <= j < |a.targets| && a.targets[j] !in lost ==>
               Reliable(s, a, acts, a.targets[j], digest(a.data))
    requires WorstLoss(|a.targets|, |lost|) <= PARITY_SHARDS
    ensures var s1, h := Next(digest, s, a), digest(a.data);
            && a.peer in s1.peers && h in s1.peers[a.peer].store.manifests
            && Decoded(Left(s2, h, s1.peers[a.peer].store.manifests[h], lost), |a.data|) == Ok(a.data)
  {
    hide Sound, Allowed, Next, Run, Encoded, Decoded, WorstLoss, Count, GenuineShard, Holds, Left;
    var s1, h, targets := Next(digest, s, a), digest(a.data), a.targets;
    AfterUpload(digest, s, a);
    var m := s1.peers[a.peer].store.manifests[h];
    RunKeepsSound(digest, callers, s1, acts, s2);
    forall i: nat | i < TOTAL_SHARDS && targets[i % |targets|] !in lost
      ensures Holds(s2, targets[i % |targets|], h, i)
    {
      assert Reliable(s, a, acts, targets[i % |targets|], h);
      HeldAlong(digest, callers, s1, acts, s2, targets[i % |targets|], h, i);
    }
    var r := Left(s2, h, m, lost);
    LeftIs(s2, h, targets, |a.data|, lost);
    EnoughLeft(r, targets, lost);
    LeftIsGenuine(s2, h, m, lost, a.data);
    RoundTrip(a.data, r);
  }

  lemma LeftIs(s: System, h: Hash, targets: seq<Peer>, size: nat, lost: set<Peer>)
    requires targets != []
    requires forall i: nat :: i < TOTAL_SHARDS && targets[i % |targets|] !in lost ==>
               Holds(s, targets[i % |targets|], h, i)
    ensures var r := Left(s, h, Manifest(h, size, map i: nat | i < 45 :: targets[i % |targets|]), lost);
            forall i: nat :: i < TOTAL_SHARDS && targets[i % |targets|] !in lost ==> r[i].Some?
  {
  }

  lemma LeftIsGenuine(s: System, h: Hash, m: Manifest, lost: set<Peer>, data: Bytes)
    requires Sound(s) && h in s.uploads && s.uploads[h] == data != []
    ensures SurvivorsOf(Left(s, h, m, lost), Encoded(data).value)
  {
    hide Encoded, GenuineManifest, NodeSound, MessagesSound, RequestsSound;
    var r := Left(s, h, m, lost);
    var shards := Codeword(s.uploads, h);
    forall i | 0 <= i < |r| && r[i].Some? ensures r[i].value == shards[i] {
      HeldIsGenuine(s.uploads, s.peers[m.shards[i]].store, h, i);
    }
  }
}
