/** The storage node's event loop over its own tables, updated in place; every
    handler is proved to take the step of FetchProtocol. */
module StorageNode {
  import opened Wrappers
  import opened ErasureCoding
  import opened FetchProtocol
  import opened FetchSafety
  import opened ShardStore
  import opened Placement

  class FetchState {
    var pending: bool
    var shards: Received
    var received: nat
    var failed: nat
    var originalSize: nat
    var manifest: Option<Manifest>

    constructor (shards: Received, received: nat, originalSize: nat, manifest: Option<Manifest>)
      ensures Value() == Fetch(true, shards, received, 0, originalSize, manifest)
    {
      pending, failed := true, 0;
      this.shards, this.received, this.originalSize, this.manifest := shards, received, originalSize, manifest;
    }

    function Value(): Fetch
      reads this
    {
      Fetch(pending, shards, received, failed, originalSize, manifest)
    }
  }

  /** The network layer numbers requests in sequence. */
  ghost predicate IdsOf(sent: map<RequestId, nat>, from: RequestId, next: RequestId) {
    from <= next && forall r :: r in sent ==> from <= r < next
  }

  /** One request for each of `indices` and for nothing else. */
  ghost predicate AsksExactly(sent: map<RequestId, nat>, indices: set<nat>) {
    && (forall r, s :: r in sent && s in sent && r != s ==> sent[r] != sent[s])
    && (forall r :: r in sent ==> sent[r] in indices)
    && (forall i :: i in indices ==> exists r :: r in sent && sent[r] == i)
  }

  lemma AskOneMore(sent: map<RequestId, nat>, from: RequestId, next: RequestId, indices: set<nat>, index: nat)
    requires IdsOf(sent, from, next) && AsksExactly(sent, indices) && index !in indices
    ensures IdsOf(sent[next := index], from, next + 1) && AsksExactly(sent[next := index], indices + {index})
  {
    var sent' := sent[next := index];
    forall i | i in indices + {index} ensures exists r :: r in sent' && sent'[r] == i {
      if i == index {
        assert next in sent' && sent'[next] == i;
      } else {
        var r :| r in sent && sent[r] == i;
        assert r in sent' && sent'[r] == i;
      }
    }
  }

  lemma AskedOneMore(before: map<RequestId, (Hash, nat)>, h: Hash, sent: map<RequestId, nat>, next: RequestId,
                     index: nat)
    ensures (before + Asked(h, sent))[next := (h, index)] == before + Asked(h, sent[next := index])
  {
  }

  lemma RequestsAdded(was: Node, now: Node, h: Hash, m: Manifest, exempt: set<nat>, sent: map<RequestId, nat>,
                      from: RequestId, next: RequestId)
    requires WellFormed(was) && ManifestInRange(m) && forall r :: r in was.requests ==> r < from
    requires IdsOf(sent, from, next) && AsksExactly(sent, m.shards.Keys - exempt)
    requires now == was.(requests := was.requests + Asked(h, sent))
    ensures AsksFor(was, m, exempt, sent) && now == WithRequests(was, h, sent)
    ensures WellFormed(now) && forall r :: r in now.requests ==> r < next
  {
  }

  /** The node when a shard has come in. */
  function Completed(n: Node, h: Hash): Node {
    if h in n.active && n.active[h].received >= DATA_SHARDS
    then Finish(n, h, ToOption(Decoded(n.active[h].shards, n.active[h].originalSize))) else n
  }

  lemma AcceptInTwo(n: Node, h: Hash, index: nat, data: Bytes)
    requires WellFormed(n) && index < TOTAL_SHARDS
    ensures h in n.active ==> |n.active[h].shards| == TOTAL_SHARDS
    ensures AcceptShard(n, h, index, data) ==
            if h !in n.active || n.active[h].shards[index].Some? then n
            else
              var f := n.active[h];
              Completed(n.(active := n.active[h := f.(shards := f.shards[index := Some(data)],
                  received := f.received + 1)]), h)
  {
    hide Decoded, Finish;
  }

  lemma OpenWellFormed(n: Node, h: Hash, f: Fetch)
    requires WellFormed(n) && |f.shards| == TOTAL_SHARDS
    ensures WellFormed(n.(active := n.active[h := f]))
  {
  }

  lemma FinishWellFormed(n: Node, h: Hash, answer: Option<Bytes>)
    requires WellFormed(n) && h in n.active
    ensures WellFormed(Finish(n, h, answer))
  {
  }

  class EventLoop {
    const self: Peer
    /** SHA-256 in hexadecimal. */
    const digest: Bytes -> Hash
    /** The node's own record store: shards by file and index, and manifests. */
    var chunks: Chunks
    var manifests: map<Hash, Manifest>
    var storageFull: bool
    var activeFetches: map<Hash, FetchState>
    var manifestQueries: map<QueryId, Hash>
    var reqRespToFetch: map<RequestId, (Hash, nat)>
    /** What callers have been sent, in order. */
    var replies: seq<(Hash, Option<Bytes>)>
    /** The network layer numbers queries and requests in sequence. */
    var nextQuery: QueryId
    var nextRequest: RequestId
    /** Whom each request went to. */
    var sentTo: map<RequestId, Peer>

    constructor (self: Peer, digest: Bytes -> Hash)
      ensures Valid() && this.self == self && this.digest == digest
      ensures Abs() == Node(map[], map[], map[], []) && StoreValue() == Store(map[], map[], false)
    {
      this.self, this.digest := self, digest;
      chunks, manifests, storageFull := map[], map[], false;
      activeFetches, manifestQueries, reqRespToFetch, replies := map[], map[], map[], [];
      nextQuery, nextRequest, sentTo := 0, 0, map[];
    }

    function StoreValue(): Store
      reads `chunks, `manifests, `storageFull
    {
      Store(chunks, manifests, storageFull)
    }

    ghost predicate Valid()
      reads this, activeFetches.Values
    {
      && (forall g, h :: g in activeFetches && h in activeFetches && g != h ==> activeFetches[g] != activeFetches[h])
      && WellFormed(Abs())
      && (forall q :: q in manifestQueries ==> q < nextQuery)
      && (forall r :: r in reqRespToFetch ==> r < nextRequest)
    }

    ghost function Abs(): Node
      reads this, activeFetches.Values
    {
      Node(map h | h in activeFetches :: activeFetches[h].Value(), manifestQueries, reqRespToFetch, replies)
    }

    method SendReply(h: Hash, state: FetchState, answer: Option<Bytes>)
      requires Valid() && h in activeFetches && activeFetches[h] == state
      modifies this`replies, this`activeFetches, state`pending
      ensures Valid() && activeFetches == old(activeFetches) - {h}
      ensures Abs() == Finish(old(Abs()), h, answer)
    {
      assert state.Value() == Abs().active[h];
      FinishWellFormed(Abs(), h, answer);
      hide WellFormed;
      if state.pending {
        state.pending := false;
        replies := replies + [(h, answer)];
      }
      activeFetches := activeFetches - {h};
      assert Abs().active == old(Abs()).active - {h};
    }

    method ShardData(request: RequestId, data: Bytes)
      requires Valid()
      modifies this`reqRespToFetch, this`replies, this`activeFetches, activeFetches.Values
      ensures Valid() && Abs() == Step(old(Abs()), ShardComes(request, data))
    {
      hide AcceptShard;
      if request in reqRespToFetch {
        var (h, index) := reqRespToFetch[request];
        reqRespToFetch := reqRespToFetch - {request};
        assert Abs().active == old(Abs()).active;
        Accept(h, index, data);
      }
    }

    method Accept(h: Hash, index: nat, data: Bytes)
      requires Valid() && index < TOTAL_SHARDS
      modifies this`replies, this`activeFetches, activeFetches.Values
      ensures Valid() && Abs() == AcceptShard(old(Abs()), h, index, data)
    {
      AcceptInTwo(Abs(), h, index, data);
      hide Decoded, Finish, WellFormed, AcceptShard, Completed;
      if h in activeFetches {
        var state := activeFetches[h];
        assert state.Value() == Abs().active[h];
        if state.shards[index].None? {
          FillSlot(h, state, index, data);
          Complete(h, state);
        }
      }
    }

    /** Decodes and answers when there are shards enough. */
    method Complete(h: Hash, state: FetchState)
      requires Valid() && h in activeFetches && activeFetches[h] == state
      modifies this`replies, this`activeFetches, state`pending
      ensures Valid() && Abs() == Completed(old(Abs()), h)
    {
      hide Decoded, Finish, WellFormed;
      assert state.Value() == Abs().active[h];
      if state.received >= DATA_SHARDS {
        var decoded := DecodeData(state.shards, state.originalSize);
        SendReply(h, state, ToOption(decoded));
      }
    }

    method FillSlot(h: Hash, state: FetchState, index: nat, data: Bytes)
      requires Valid() && h in activeFetches && activeFetches[h] == state && index < |state.shards|
      modifies state`shards, state`received
      ensures Valid()
      ensures var f := old(state.Value());
              var f1 := f.(shards := f.shards[index := Some(data)], received := f.received + 1);
              Abs() == old(Abs()).(active := old(Abs()).active[h := f1])
    {
      assert Abs().active[h].shards == state.shards;
      state.shards := state.shards[index := Some(data)];
      state.received := state.received + 1;
      assert Abs().active == old(Abs()).active[h := state.Value()];
    }

    /** A peer without the shard, or a request that failed. */
    method ShardUnavailable(request: RequestId)
      requires Valid()
      modifies this`reqRespToFetch, this`replies, this`activeFetches, activeFetches.Values
      ensures Valid() && Abs() == Step(old(Abs()), ShardLost(request))
    {
      hide CountFailure;
      if request in reqRespToFetch {
        var (h, _) := reqRespToFetch[request];
        reqRespToFetch := reqRespToFetch - {request};
        assert Abs().active == old(Abs()).active;
        Fail(h);
      }
    }

    method Fail(h: Hash)
      requires Valid()
      modifies this`replies, this`activeFetches, activeFetches.Values
      ensures Valid() && Abs() == CountFailure(old(Abs()), h)
    {
      hide Finish, WellFormed;
      if h in activeFetches {
        var state := activeFetches[h];
        assert state.Value() == Abs().active[h];
        FailSlot(h, state);
        if state.failed + state.received >= TOTAL_SHARDS {
          SendReply(h, state, None);
        }
      }
    }

    method FailSlot(h: Hash, state: FetchState)
      requires Valid() && h in activeFetches && activeFetches[h] == state
      modifies state`failed
      ensures Valid() && Abs().active[h] == state.Value() == old(state.Value()).(failed := old(state.failed) + 1)
      ensures Abs() == old(Abs()).(active := old(Abs()).active[h := old(state.Value()).(failed := old(state.failed)
                + 1)])
    {
      assert Abs().active[h].shards == state.shards;
      state.failed := state.failed + 1;
      assert Abs().active == old(Abs()).active[h := state.Value()];
    }

    method ManifestNotFound(query: QueryId)
      requires Valid()
      modifies this`manifestQueries, this`replies, this`activeFetches, activeFetches.Values
      ensures Valid() && Abs() == Step(old(Abs()), NoManifest(query))
    {
      hide Finish;
      if query in manifestQueries {
        var h := manifestQueries[query];
        manifestQueries := manifestQueries - {query};
        assert Abs().active == old(Abs()).active;
        if h in activeFetches {
          SendReply(h, activeFetches[h], None);
        }
      }
    }
  
    /** Since `before`, exactly the shards `indices` of `h` have been asked for. */
    ghost predicate AskedSince(before: map<RequestId, (Hash, nat)>, from: RequestId, h: Hash, m: Manifest,
                               sent: map<RequestId, nat>, indices: set<nat>)
      reads `reqRespToFetch, `nextRequest, `sentTo
    {
      && reqRespToFetch == before + Asked(h, sent) && IdsOf(sent, from, nextRequest) && AsksExactly(sent, indices)
      && ToThePlaced(m, sent)
    }

    /** Each request went to the peer on which the manifest places the shard. */
    ghost predicate ToThePlaced(m: Manifest, sent: map<RequestId, nat>)
      reads `sentTo
    {
      forall r :: r in sent ==> sent[r] in m.shards && r in sentTo && sentTo[r] == m.shards[sent[r]]
    }

    method Ask(h: Hash, m: Manifest, index: nat, ghost before: map<RequestId, (Hash, nat)>, ghost from: RequestId,
               ghost sent: map<RequestId, nat>, ghost indices: set<nat>) returns (ghost sent': map<RequestId, nat>)
      requires AskedSince(before, from, h, m, sent, indices) && index !in indices && index in m.shards
      modifies this`reqRespToFetch, this`nextRequest, this`sentTo
      ensures AskedSince(before, from, h, m, sent', indices + {index})
    {
      hide AsksExactly, Asked;
      AskOneMore(sent, from, nextRequest, indices, index);
      AskedOneMore(before, h, sent, nextRequest, index);
      reqRespToFetch := reqRespToFetch[nextRequest := (h, index)];
      sentTo := sentTo[nextRequest := m.shards[index]];
      sent' := sent[nextRequest := index];
      nextRequest := nextRequest + 1;
    }

    /** One request to every peer that the manifest names, in whatever order. */
    method AskAll(h: Hash, m: Manifest) returns (ghost sent: map<RequestId, nat>)
      modifies this`reqRespToFetch, this`nextRequest, this`sentTo
      ensures AskedSince(old(reqRespToFetch), old(nextRequest), h, m, sent, m.shards.Keys)
    {
      hide AskedSince;
      var indices := m.shards.Keys;
      var todo := indices;
      sent := map[];
      ghost var before, from := reqRespToFetch, nextRequest;
      NothingAsked(h, m, before, indices - todo);
      while todo != {}
        invariant todo <= indices && AskedSince(before, from, h, m, sent, indices - todo)
      {
        var index :| index in todo;
        sent := Ask(h, m, index, before, from, sent, indices - todo);
        assert indices - todo + {index} == indices - (todo - {index});
        todo := todo - {index};
      }
      assert indices - todo == indices;
    }

    lemma NothingAsked(h: Hash, m: Manifest, before: map<RequestId, (Hash, nat)>, indices: set<nat>)
      requires before == reqRespToFetch && indices == {}
      ensures AskedSince(before, nextRequest, h, m, map[], indices)
    {
    }

    method SetManifest(h: Hash, state: FetchState, m: Manifest)
      requires Valid() && h in activeFetches && activeFetches[h] == state
      modifies state`manifest, state`originalSize
      ensures Valid()
      ensures Abs() == old(Abs()).(active := old(Abs()).active[h := old(state.Value()).(manifest := Some(m),
                originalSize := m.size)])
    {
      assert Abs().active[h].shards == state.shards;
      state.manifest, state.originalSize := Some(m), m.size;
      assert Abs().active == old(Abs()).active[h := state.Value()];
    }

    /** Takes the shards that are placed here and are here, and asks for those
        that are placed elsewhere. */
    method Gather(h: Hash, m: Manifest) returns (shards: Received, received: nat, ghost sent: map<RequestId, nat>)
      requires ManifestInRange(m)
      modifies this`reqRespToFetch, this`nextRequest, this`sentTo
      ensures shards == LocalShards(m, LocalOf(StoreValue(), h), self) && received == Count(shards, 0)
      ensures AskedSince(old(reqRespToFetch), old(nextRequest), h, m, sent, m.shards.Keys - HeldLocally(m, self))
    {
      hide AskedSince, Count, GatheredFrom, LocalShards, HeldLocally, NoShards;
      var todo, local := m.shards.Keys, LocalOf(StoreValue(), h);
      shards, received, sent := NoShards(), 0, map[];
      ghost var before, from, asked := reqRespToFetch, nextRequest, {};
      NothingGathered(m, local, self);
      NothingAsked(h, m, before, asked);
      while todo != {}
        invariant todo <= m.shards.Keys
        invariant asked == m.shards.Keys - todo - HeldLocally(m, self) && AskedSince(before, from, h, m, sent, asked)
        invariant |shards| == TOTAL_SHARDS && received == Count(shards, 0)
        invariant GatheredFrom(shards, m, local, self, todo)
      {
        var index :| index in todo;
        IsHeld(m, self, index);
        GatherOne(shards, m, local, self, todo, index);
        if m.shards[index] == self {
          if index in local.chunks {
            FillOne(shards, index, local.chunks[index]);
            shards := shards[index := Some(local.chunks[index])];
            received := received + 1;
          }
        } else {
          sent := Ask(h, m, index, before, from, sent, asked);
          asked := asked + {index};
        }
        todo := todo - {index};
      }
      GatheredAll(shards, m, local, self);
      assert asked == m.shards.Keys - HeldLocally(m, self);
    }

    method Download(h: Hash) returns (ghost query: QueryId, ghost sent: map<RequestId, nat>)
      requires Valid() && (h in manifests ==> ManifestInRange(manifests[h]))
      modifies this`reqRespToFetch, this`nextRequest, this`sentTo, this`manifestQueries, this`nextQuery,
          this`replies, this`activeFetches
      ensures Valid() && Enabled(old(Abs()), Downloads(h, query, LocalOf(StoreValue(), h), self, sent))
      ensures Abs() == Step(old(Abs()), Downloads(h, query, LocalOf(StoreValue(), h), self, sent))
      ensures h in manifests ==> forall r :: r in sent ==>
                sent[r] in manifests[h].shards && r in sentTo && sentTo[r] == manifests[h].shards[sent[r]] != self
    {
      hide Decoded, Count, LocalShards, AsksFor, HeldLocally, NoShards, StartWith, WithRequests, WellFormed;
      query, sent := nextQuery, map[];
      if h in manifests {
        sent := FetchKnown(h, manifests[h]);
        AsksOthers(old(Abs()), manifests[h], self, sent);
        PlacedMeans(manifests[h], sent);
      } else {
        Search(h);
        NoShardsCount();
        Open(h, NoShards(), 0, 0, None);
      }
    }

    lemma AsksOthers(n: Node, m: Manifest, self: Peer, sent: map<RequestId, nat>)
      requires AsksFor(n, m, HeldLocally(m, self), sent)
      ensures forall r :: r in sent ==> sent[r] in m.shards && m.shards[sent[r]] != self
    {
    }

    method Search(h: Hash)
      requires Valid()
      modifies this`manifestQueries, this`nextQuery
      ensures Valid() && old(nextQuery) !in old(manifestQueries)
      ensures Abs() == old(Abs()).(queries := old(manifestQueries)[old(nextQuery) := h])
    {
      manifestQueries := manifestQueries[nextQuery := h];
      nextQuery := nextQuery + 1;
      assert Abs().active == old(Abs()).active;
    }

    method FetchKnown(h: Hash, m: Manifest) returns (ghost sent: map<RequestId, nat>)
      requires Valid() && ManifestInRange(m)
      modifies this`reqRespToFetch, this`nextRequest, this`sentTo, this`replies, this`activeFetches
      ensures Valid() && AsksFor(old(Abs()), m, HeldLocally(m, self), sent) && ToThePlaced(m, sent)
      ensures Abs() == StartWith(WithRequests(old(Abs()), h, sent), h, m,
                LocalShards(m, LocalOf(StoreValue(), h), self))
    {
      hide Count, LocalShards, AsksFor, HeldLocally, StartWith, WithRequests;
      var shards, received;
      shards, received, sent := GatherFrom(h, m);
      Begin(h, m, shards, received);
    }

    method GatherFrom(h: Hash, m: Manifest) returns (shards: Received, received: nat, ghost sent: map<RequestId, nat>)
      requires Valid() && ManifestInRange(m)
      modifies this`reqRespToFetch, this`nextRequest, this`sentTo
      ensures Valid() && AsksFor(old(Abs()), m, HeldLocally(m, self), sent) && ToThePlaced(m, sent)
      ensures Abs() == WithRequests(old(Abs()), h, sent)
      ensures shards == LocalShards(m, LocalOf(StoreValue(), h), self) && received == Count(shards, 0)
    {
      hide Count, LocalShards, AsksFor, AsksExactly, HeldLocally, IdsOf, WithRequests, LocalOf, WellFormed;
      shards, received, sent := Gather(h, m);
      assert Abs().active == old(Abs()).active;
      RequestsAdded(old(Abs()), Abs(), h, m, HeldLocally(m, self), sent, old(nextRequest), nextRequest);
    }

    method Open(h: Hash, shards: Received, received: nat, size: nat, m: Option<Manifest>)
      requires Valid() && |shards| == TOTAL_SHARDS
      modifies this`activeFetches
      ensures Valid()
      ensures Abs() == old(Abs()).(active := old(Abs()).active[h := Fetch(true, shards, received, 0, size, m)])
    {
      OpenWellFormed(Abs(), h, Fetch(true, shards, received, 0, size, m));
      hide WellFormed;
      ghost var was := Abs();
      var state := new FetchState(shards, received, size, m);
      assert Abs() == was;
      activeFetches := activeFetches[h := state];
      assert Abs().active == was.active[h := state.Value()];
    }

    method Begin(h: Hash, m: Manifest, shards: Received, received: nat)
      requires Valid() && |shards| == TOTAL_SHARDS && received == Count(shards, 0)
      modifies this`replies, this`activeFetches
      ensures Valid() && Abs() == StartWith(old(Abs()), h, m, shards)
    {
      hide Decoded, Count;
      if received >= DATA_SHARDS {
        var decoded := DecodeData(shards, m.size);
        if decoded.Ok? {
          replies := replies + [(h, Some(decoded.value))];
        }
        assert Abs().active == old(Abs()).active;
      } else {
        Open(h, shards, received, m.size, Some(m));
      }
    }

    method PutChunk(h: Hash, index: nat, data: Bytes)
      modifies this`chunks
      ensures StoreValue() == WithChunk(old(StoreValue()), h, index, data)
    {
      if !storageFull {
        chunks := chunks[(h, index) := data];
      }
    }

    /** Shard i goes to peer i modulo their number, or stays if that is this node;
        `published` is what the network may replicate: the manifest, unless the
        store refuses it. What cannot be encoded has its reserved bytes released,
        on the node's quota and on the user's, and only empty data cannot. */
    method Upload(data: Bytes, peers: seq<Peer>)
      returns (reply: Hash, sends: seq<(Peer, nat, Bytes)>, published: Option<Manifest>, released: Option<nat>)
      modifies this`chunks, this`manifests
      ensures data == [] ==> reply == "error" && sends == [] && published == None && StoreValue() == old(StoreValue())
      ensures released == if data == [] then Some(0) else None
      ensures data != [] ==> reply == digest(data)
      ensures data != [] ==>
                exists placed :: Delivered(reply, Encoded(data).value, Targets(peers, self),
                    self, TOTAL_SHARDS, old(StoreValue()), placed, sends)
                  && StoreValue()
                       == ShardStore.WithManifest(placed, reply, PlacedOn(reply, |data|, Targets(peers, self)))
      ensures data != [] ==> published == if storageFull then None
                else Some(PlacedOn(reply, |data|, Targets(peers, self)))
      ensures data != [] ==>
                var targets, shards := if peers == [] then [self] else peers, Encoded(data).value;
                && |shards| == 45
                && (forall i: nat :: i < 45 && targets[i % |targets|] != self ==>
                      (targets[i % |targets|], i, shards[i]) in sends)
                && (forall x :: x in sends ==>
                      x.1 < 45 && x.0 == targets[x.1 % |targets|] != self && x.2 == shards[x.1])
                && (forall i: nat :: i < 45 && targets[i % |targets|] == self && !storageFull ==>
                      (reply, i) in chunks && chunks[(reply, i)] == shards[i])
                && (!storageFull ==>
                      && reply in manifests && published == Some(manifests[reply])
                      && manifests[reply] == Manifest(reply, |data|, map i: nat | i < 45 :: targets[i % |targets|]))
      ensures published.Some? && (forall i, j :: 0 <= i < j < |peers| ==> peers[i] != peers[j]) ==>
                forall j :: 0 <= j < |peers| ==>
                  (set i | i in published.value.shards && published.value.shards[i] == peers[j])
                    == ShardsOf(j, |peers|, 45)
      ensures forall k :: k in old(chunks) && (data == [] || k.0 != reply) ==>
                k in chunks && chunks[k] == old(chunks)[k]
      ensures forall g :: g in old(manifests) && (data == [] || g != reply) ==>
                g in manifests && manifests[g] == old(manifests)[g]
    {
      hide Encoded, Delivered, PlacedOn, Target, ShardsOf;
      EncodedSize(data);
      var h := digest(data);
      sends := [];
      var encoded := EncodeData(data);
      if encoded.Err? {
        return "error", [], None, Some(|data|);
      }
      var shards, targets := encoded.value, Targets(peers, self);
      NothingDelivered(h, shards, targets, self, StoreValue());
      for i := 0 to TOTAL_SHARDS
        invariant manifests == old(manifests) && |shards| == TOTAL_SHARDS
        invariant Delivered(h, shards, targets, self, i, old(StoreValue()), StoreValue(), sends)
      {
        var target := Target(targets, i);
        DeliverOne(h, shards, targets, self, i, old(StoreValue()), StoreValue(), sends);
        if target != self {
          sends := sends + [(target, i, shards[i])];
        } else {
          PutChunk(h, i, shards[i]);
        }
      }
      var manifest := PlacedOn(h, |data|, targets);
      published := None;
      if !storageFull {
        manifests := manifests[h := manifest];
        published := Some(manifest);
      }
      InPlainTerms(h, |data|, shards, peers, self, old(StoreValue()),
          Store(chunks, old(manifests), storageFull), sends);
      ByPosition(h, |data|, peers, self);
      return h, sends, published, None;
    }

    /** A peer's request that a shard be kept here: afterwards the shard is served
        from here, unless the store is full, and every other shard as before. */
    method StoreShard(h: Hash, index: nat, data: Bytes)
      modifies this`chunks
      ensures !storageFull ==> ChunkAt(StoreValue(), h, index) == Some(data)
      ensures forall g, i: nat :: storageFull || (g, i) != (h, index) ==>
                ChunkAt(StoreValue(), g, i) == ChunkAt(old(StoreValue()), g, i)
      ensures StoreValue() == WithChunk(old(StoreValue()), h, index, data)
    {
      PutChunk(h, index, data);
    }

    /** What is answered to a peer that asks for a shard. */
    method ServeShard(h: Hash, index: nat) returns (data: Option<Bytes>)
      ensures data == ChunkAt(StoreValue(), h, index)
    {
      return if (h, index) in chunks then Some(chunks[(h, index)]) else None;
    }

    /** What is answered to a peer that asks for a manifest. */
    method ServeManifest(h: Hash) returns (m: Option<Manifest>)
      ensures m == ManifestAt(StoreValue(), h)
    {
      return if h in manifests then Some(manifests[h]) else None;
    }

    /** Deletes a file here, and says how large its manifest says it was. */
    method Delete(h: Hash) returns (size: Option<nat>)
      modifies this`chunks, this`manifests
      ensures StoreValue() == Deleted(old(StoreValue()), h)
      ensures h !in manifests && manifests == old(manifests) - {h}
      ensures h in old(manifests) ==> forall i :: i in old(manifests)[h].shards ==> (h, i) !in chunks
      ensures forall k :: k in old(chunks) && !(h in old(manifests) && k.0 == h && k.1 in old(manifests)[h].shards) ==>
                k in chunks && chunks[k] == old(chunks)[k]
      ensures forall k :: k in chunks ==> k in old(chunks)
      ensures size == if h in old(manifests) then Some(old(manifests)[h].size) else None
    {
      size := None;
      if h in manifests {
        var m := manifests[h];
        size := Some(m.size);
        var todo := m.shards.Keys;
        while todo != {}
          invariant todo <= m.shards.Keys && manifests == old(manifests) && storageFull == old(storageFull)
          invariant chunks == old(chunks) - (set i | i in m.shards.Keys - todo :: (h, i))
        {
          var index :| index in todo;
          chunks, todo := chunks - {(h, index)}, todo - {index};
        }
      }
      manifests := manifests - {h};
    }

    method AskForShards(h: Hash, m: Manifest) returns (ghost sent: map<RequestId, nat>)
      requires Valid() && ManifestInRange(m)
      modifies this`reqRespToFetch, this`nextRequest, this`sentTo
      ensures Valid() && AsksFor(old(Abs()), m, {}, sent) && Abs() == WithRequests(old(Abs()), h, sent)
      ensures ToThePlaced(m, sent)
    {
      hide AsksFor, AsksExactly, IdsOf, WithRequests, WellFormed;
      sent := AskAll(h, m);
      assert m.shards.Keys - {} == m.shards.Keys;
      assert Abs().active == old(Abs()).active;
      RequestsAdded(old(Abs()), Abs(), h, m, {}, sent, old(nextRequest), nextRequest);
    }

    method ManifestFound(query: QueryId, manifest: Option<Manifest>) returns (ghost sent: map<RequestId, nat>)
      requires Valid() && (manifest.Some? ==> ManifestInRange(manifest.value))
      modifies this`manifestQueries, this`reqRespToFetch, this`nextRequest, this`sentTo, activeFetches.Values
      ensures Valid() && Enabled(old(Abs()), ManifestComes(query, manifest, sent))
      ensures Abs() == Step(old(Abs()), ManifestComes(query, manifest, sent))
      ensures manifest.Some? ==> forall r :: r in sent ==>
                sent[r] in manifest.value.shards && r in sentTo && sentTo[r] == manifest.value.shards[sent[r]]
    {
      hide AsksFor, WithRequests, WellFormed, ToThePlaced;
      sent := map[];
      if query in manifestQueries {
        var h := manifestQueries[query];
        manifestQueries := manifestQueries - {query};
        assert Abs().active == old(Abs()).active;
        assert Valid() by { WellFormedByFetches(old(Abs()), Abs()); }
        if manifest.Some? {
          LearnManifest(h, manifest.value);
          sent := AskForShards(h, manifest.value);
          AsksSame(old(Abs()), h, manifest.value, sent);
          PlacedMeans(manifest.value, sent);
        }
      }
    }

    /** An open fetch learns its manifest. */
    method LearnManifest(h: Hash, m: Manifest)
      requires Valid()
      modifies activeFetches.Values
      ensures Valid() && Abs().requests == old(Abs()).requests
      ensures var n := old(Abs());
              Abs() == if h in n.active
                       then n.(active := n.active[h := n.active[h].(manifest := Some(m), originalSize := m.size)])
                       else n
    {
      hide WellFormed;
      if h in activeFetches {
        assert activeFetches[h].Value() == Abs().active[h];
        SetManifest(h, activeFetches[h], m);
      }
    }

    lemma WellFormedByFetches(n: Node, n': Node)
      requires WellFormed(n) && n'.active == n.active && n'.requests == n.requests
      ensures WellFormed(n')
    {
    }

    lemma AsksSame(n: Node, h: Hash, m: Manifest, sent: map<RequestId, nat>)
      ensures forall n': Node :: n'.requests == n.requests ==> (AsksFor(n', m, {}, sent) <==> AsksFor(n, m, {}, sent))
    {
    }

    lemma PlacedMeans(m: Manifest, sent: map<RequestId, nat>)
      requires ToThePlaced(m, sent)
      ensures forall r :: r in sent ==> sent[r] in m.shards && r in sentTo && sentTo[r] == m.shards[sent[r]]
    {
    }
  }

  /** What has been delivered, and what the manifest says of it: shard i is with
      peer i modulo their number, and a node without peers is its own only one. */
  lemma InPlainTerms(h: Hash, size: nat, shards: Shards, peers: seq<Peer>, self: Peer, before: Store, after: Store,
                     sends: seq<(Peer, nat, Bytes)>)
    requires |shards| == 45 && Delivered(h, shards, Targets(peers, self), self, TOTAL_SHARDS, before, after, sends)
    ensures var targets := if peers == [] then [self] else peers;
            && (forall i: nat :: i < 45 && targets[i % |targets|] != self ==>
                  (targets[i % |targets|], i, shards[i]) in sends)
            && (forall x :: x in sends ==> x.1 < 45 && x.0 == targets[x.1 % |targets|] != self && x.2 == shards[x.1])
            && (forall i: nat :: i < 45 && targets[i % |targets|] == self && !before.full ==>
                  (h, i) in after.chunks && after.chunks[(h, i)] == shards[i])
            && PlacedOn(h, size, Targets(peers, self))
                 == Manifest(h, size, map i: nat | i < 45 :: targets[i % |targets|])
    ensures forall k :: k in before.chunks && k.0 != h ==> k in after.chunks && after.chunks[k] == before.chunks[k]
  {
    var targets := if peers == [] then [self] else peers;
    forall i: nat | i < 45 && targets[i % |targets|] != self ensures (targets[i % |targets|], i, shards[i]) in sends {
      assert Target(Targets(peers, self), i) == targets[i % |targets|];
    }
    forall i: nat | i < 45 && targets[i % |targets|] == self && !before.full
      ensures (h, i) in after.chunks && after.chunks[(h, i)] == shards[i]
    {
      assert ChunkAt(after, h, i) == Some(shards[i]);
    }
    forall k | k in before.chunks && k.0 != h ensures k in after.chunks && after.chunks[k] == before.chunks[k] {
      assert ChunkAt(after, k.0, k.1) == ChunkAt(before, k.0, k.1);
    }
  }

  /** Each of several peers is named for its round-robin share. */
  lemma ByPosition(h: Hash, size: nat, peers: seq<Peer>, self: Peer)
    ensures (forall i, j :: 0 <= i < j < |peers| ==> peers[i] != peers[j]) ==>
              var m := PlacedOn(h, size, Targets(peers, self));
              forall j :: 0 <= j < |peers| ==>
                (set i | i in m.shards && m.shards[i] == peers[j]) == ShardsOf(j, |peers|, 45)
  {
  }

  /** `shards` holds what is here of the shards outside `todo`. */
  ghost predicate GatheredFrom(shards: Received, m: Manifest, local: Local, self: Peer, todo: set<nat>)
    requires |shards| == TOTAL_SHARDS
  {
    forall i :: 0 <= i < TOTAL_SHARDS ==> shards[i] == if i in todo then None else LocalShards(m, local, self)[i]
  }

  lemma IsHeld(m: Manifest, self: Peer, index: nat)
    requires index in m.shards
    ensures index in HeldLocally(m, self) <==> m.shards[index] == self
  {
  }

  lemma NothingGathered(m: Manifest, local: Local, self: Peer)
    ensures |NoShards()| == TOTAL_SHARDS && Count(NoShards(), 0) == 0
    ensures GatheredFrom(NoShards(), m, local, self, m.shards.Keys)
  {
    hide Count;
    NoShardsCount();
  }

  lemma GatherOne(shards: Received, m: Manifest, local: Local, self: Peer, todo: set<nat>, index: nat)
    requires |shards| == TOTAL_SHARDS && GatheredFrom(shards, m, local, self, todo)
    requires index in todo && index < TOTAL_SHARDS && index in m.shards
    ensures shards[index].None?
    ensures if m.shards[index] == self && index in local.chunks
            then GatheredFrom(shards[index := Some(local.chunks[index])], m, local, self, todo - {index})
            else GatheredFrom(shards, m, local, self, todo - {index})
  {
  }

  lemma GatheredAll(shards: Received, m: Manifest, local: Local, self: Peer)
    requires |shards| == TOTAL_SHARDS && GatheredFrom(shards, m, local, self, {})
    ensures shards == LocalShards(m, local, self)
  {
  }

  lemma EncodedSize(data: Bytes)
    ensures Encoded(data).Ok? ==> |Encoded(data).value| == TOTAL_SHARDS
  {
  }
}
