/** The SDK's methods as they run: loops over offsets, workers in whatever order
    their answers come, buffers filled in place. */
module SdkClient {
  import opened Wrappers
  import opened WorkerPool
  import opened Sdk

  ghost predicate IsHashOfOne(p: Primitives, chunks: seq<Bytes>, done: set<nat>, h: Hash) {
    exists i :: 0 <= i < |chunks| && i in done && p.digest(chunks[i]) == h
  }

  /** `net` is `before` with the chunks numbered in `done` put in. */
  ghost predicate HasPut(p: Primitives, before: Network, chunks: seq<Bytes>, done: set<nat>, net: Network) {
    && (forall h :: h in net <==> h in before || IsHashOfOne(p, chunks, done, h))
    && (forall i :: 0 <= i < |chunks| && i in done ==>
         p.digest(chunks[i]) in net && net[p.digest(chunks[i])] == chunks[i])
    && (forall h :: h in before && !IsHashOfOne(p, chunks, done, h) ==> h in net && net[h] == before[h])
  }

  lemma PutOneMore(p: Primitives, before: Network, chunks: seq<Bytes>, done: set<nat>, net: Network, i: nat)
    requires Lawful(p) && HasPut(p, before, chunks, done, net) && i < |chunks|
    ensures HasPut(p, before, chunks, done + {i}, net[p.digest(chunks[i]) := chunks[i]])
  {
    var after := net[p.digest(chunks[i]) := chunks[i]];
    forall h ensures h in after <==> h in before || IsHashOfOne(p, chunks, done + {i}, h) {
      if h in after && h !in before {
        if h == p.digest(chunks[i]) {
          assert i in done + {i};
        } else {
          var j :| 0 <= j < |chunks| && j in done && p.digest(chunks[j]) == h;
          assert j in done + {i};
        }
      }
    }
    forall j | 0 <= j < |chunks| && j in done + {i}
      ensures p.digest(chunks[j]) in after && after[p.digest(chunks[j])] == chunks[j]
    {
      if p.digest(chunks[j]) == p.digest(chunks[i]) { assert chunks[j] == chunks[i]; }
    }
  }

  lemma {:induction false} PutAllHasPut(p: Primitives, before: Network, chunks: seq<Bytes>, done: set<nat>)
    requires Lawful(p) && forall i: nat :: i in done <==> i < |chunks|
    ensures HasPut(p, before, chunks, done, PutAll(p, before, chunks))
  {
    hide Lawful;
    if chunks != [] {
      var n := |chunks| - 1;
      PutAllHasPut(p, before, chunks[..n], done - {n});
      PutLonger(p, before, chunks, done - {n}, PutAll(p, before, chunks[..n]));
      PutOneMore(p, before, chunks, done - {n}, PutAll(p, before, chunks[..n]), n);
      assert done - {n} + {n} == done;
    }
  }

  lemma PutLonger(p: Primitives, before: Network, chunks: seq<Bytes>, done: set<nat>, net: Network)
    requires chunks != [] && HasPut(p, before, chunks[..|chunks| - 1], done, net)
    requires forall i :: i in done ==> i < |chunks| - 1
    ensures HasPut(p, before, chunks, done, net)
  {
    var c := chunks[..|chunks| - 1];
    assert forall i :: 0 <= i < |c| ==> c[i] == chunks[i];
    forall h ensures IsHashOfOne(p, chunks, done, h) <==> IsHashOfOne(p, c, done, h) {
      if i :| 0 <= i < |chunks| && i in done && p.digest(chunks[i]) == h { assert c[i] == chunks[i]; }
      if i :| 0 <= i < |c| && i in done && p.digest(c[i]) == h { assert c[i] == chunks[i]; }
    }
  }

  lemma HasPutUnique(p: Primitives, before: Network, chunks: seq<Bytes>, done: set<nat>, a: Network, b: Network)
    requires HasPut(p, before, chunks, done, a) && HasPut(p, before, chunks, done, b)
    ensures a == b
  {
    forall h | h in a ensures h in b && a[h] == b[h] {
      if i :| 0 <= i < |chunks| && i in done && p.digest(chunks[i]) == h {
        assert a[h] == chunks[i] == b[h];
      }
    }
    assert a.Keys == b.Keys;
  }

  /** What awaiting one hash yields, opened if there is a key; None if that fails. */
  function Answer(p: Primitives, net: Network, key: Option<Bytes>, hash: Hash): Option<Bytes> {
    if hash !in net then None else if key.Some? then p.decrypt(key.value, net[hash]) else Some(net[hash])
  }

  function Failing(p: Primitives, net: Network, key: Option<Bytes>, hashes: seq<Hash>, tries: nat -> Tries): set<nat> {
    set i: nat | i < |hashes| && !(Answered(tries(i)) && Answer(p, net, key, hashes[i]).Some?)
  }

  /** What becomes of one request: it is kept, refused, or kept with its answer lost. */
  datatype Attempt = Kept | Refused | Lost

  /** A request that fails is made once more, to another node. */
  datatype Fate = Fate(first: Attempt, second: Attempt)

  predicate Succeeds(f: Fate) { f.first.Kept? || f.second.Kept? }

  /** Has the request left its data behind, answered or not? */
  predicate Leaves(f: Fate) { f.first != Refused || f.second != Refused }

  /** The uploads, by position in the file, that are rejected. */
  function Rejections(fates: nat -> Fate, n: nat): set<nat> { set i: nat | i < n && !Succeeds(fates(i)) }

  /** Some of the chunks have been put in, and nothing else. */
  ghost predicate PutSome(p: Primitives, before: Network, chunks: seq<Bytes>, net: Network) {
    exists done :: HasPut(p, before, chunks, done, net)
  }

  lemma SomeIsLater(p: Primitives, before: Network, chunks: seq<Bytes>, net: Network)
    requires Lawful(p) && ContentAddressed(p, before) && PutSome(p, before, chunks, net)
    requires forall i :: 0 <= i < |chunks| ==> chunks[i] != []
    ensures Later(p, before, net)
  {
    var done :| HasPut(p, before, chunks, done, net);
    forall h | h in net ensures p.digest(net[h]) == h && net[h] != [] {
      if i :| 0 <= i < |chunks| && i in done && p.digest(chunks[i]) == h { assert net[h] == chunks[i]; }
    }
  }

  class StorageModule {
    const p: Primitives
    const wallets: Wallets
    var network: Network
    /** File keys at the consensus nodes. */
    var access: Access

    ghost predicate Valid()
      reads this
    {
      Lawful(p) && ContentAddressed(p, network)
    }

    method Send(data: Bytes, attempt: Attempt) returns (hash: Option<Hash>)
      modifies this`network
      ensures hash == if data != [] && attempt.Kept? then Some(p.digest(data)) else None
      ensures network == if data != [] && attempt != Refused then old(network)[p.digest(data) := data] else old(network)
    {
      if data == [] || attempt.Refused? {
        return None;
      }
      network := network[p.digest(data) := data];
      return if attempt.Kept? then Some(p.digest(data)) else None;
    }

    method UploadSingleChunk(data: Bytes, fate: Fate) returns (hash: Option<Hash>)
      modifies this`network
      ensures hash == if data != [] && Succeeds(fate) then Some(p.digest(data)) else None
      ensures network == if data != [] && Leaves(fate) then old(network)[p.digest(data) := data] else old(network)
    {
      hash := Send(data, fate.first);
      if hash == None {
        hash := Send(data, fate.second);
      }
    }

    method Split(file: Bytes) returns (chunks: seq<Bytes>)
      ensures chunks == Chunks(file)
    {
      hide Slice;
      chunks := [];
      var offset := 0;
      while offset < |file|
        invariant Chunks(file) == chunks + ChunksFrom(file, offset)
      {
        chunks := chunks + [Slice(file, offset, offset + CHUNK_SIZE)];
        offset := offset + CHUNK_SIZE;
      }
    }

    /** Ten workers; which of them goes on next depends on the network alone. A
        rejected upload ends its worker, and the whole is rejected. */
    method UploadPool(chunks: seq<Bytes>, fates: nat -> Fate) returns (res: Option<seq<Hash>>)
      requires Lawful(p) && forall i :: 0 <= i < |chunks| ==> chunks[i] != []
      modifies this`network
      ensures res.Some? <==> Rejections(fates, |chunks|) == {}
      ensures res.Some? ==> res.value == Hashes(p, chunks) && network == PutAll(p, old(network), chunks)
      ensures res.Some? ==> |res.value| == |chunks| && forall j :: 0 <= j < |chunks| ==>
                res.value[j] == p.digest(chunks[j]) && res.value[j] in network && network[res.value[j]] == chunks[j]
      ensures PutSome(p, old(network), chunks, network)
    {
      hide Lawful, PoolSound, HasPut, PutAll, StepsLeft;
      var n := |chunks|;
      var slots := new Hash[n](_ => "");
      var i, workers := 0, seq(LIMIT, _ => Ready);
      ghost var pool, failing, left := Start(), Rejections(fates, n), {};
      StartSound(n, failing);
      NothingPut(network, chunks);
      while exists k :: 0 <= k < |workers| && Active(workers[k])
        invariant pool.next == i && pool.workers == workers && PoolSound(pool, n, failing) && i <= n
        invariant pool.finished <= left && HasPut(p, old(network), chunks, left, network)
        invariant forall j :: 0 <= j < n && j in pool.finished ==> slots[j] == p.digest(chunks[j])
        decreases StepsLeft(pool, n)
      {
        var k :| 0 <= k < |workers| && Active(workers[k]);
        ghost var before := pool;
        pool := Step(pool, k, n, failing);
        StepKeepsSound(before, k, n, failing);
        StepsShrink(before, k, n, failing);
        if workers[k].Busy? {
          var index := workers[k].index;
          BusyInRange(before, k, n, failing);
          PutOneMore(p, old(network), chunks, left, network, index);
          var hash := UploadSingleChunk(chunks[index], fates(index));
          if Leaves(fates(index)) { left := left + {index}; }
          if hash == None {
            workers := workers[k := Rejected(index)];
          } else {
            slots[index] := hash.value;
            workers := workers[k := Ready];
          }
        } else if i < n {
          workers := workers[k := Busy(i)];
          i := i + 1;
        } else {
          workers := workers[k := Done];
        }
      }
      assert Ended(pool);
      EndedSound(pool, n, failing);
      if exists k :: 0 <= k < |workers| && workers[k].Rejected? {
        return None;
      }
      assert forall j :: 0 <= j < n ==> j !in failing;
      assert failing == {};
      OnlyThese(p, old(network), chunks, pool.finished, left, network);
      PutAllHasPut(p, old(network), chunks, pool.finished);
      HasPutUnique(p, old(network), chunks, pool.finished, network, PutAll(p, old(network), chunks));
      assert slots[..] == Hashes(p, chunks);
      return Some(slots[..]);
    }

    lemma OnlyThese(p: Primitives, before: Network, chunks: seq<Bytes>, all: set<nat>, done: set<nat>, net: Network)
      requires HasPut(p, before, chunks, done, net) && all <= done && forall i: nat :: i < |chunks| ==> i in all
      ensures HasPut(p, before, chunks, all, net)
    {
    }

    lemma NothingPut(net: Network, chunks: seq<Bytes>)
      ensures HasPut(p, net, chunks, {}, net)
    {
    }

    lemma BusyInRange(pool: Pool, k: nat, n: nat, failing: set<nat>)
      requires PoolSound(pool, n, failing) && k < |pool.workers| && pool.workers[k].Busy?
      ensures pool.workers[k].index < n
    {
    }
  
    method Get(hash: Hash, answered: bool) returns (data: Option<Bytes>)
      ensures data == if answered && hash in network then Some(network[hash]) else None
    {
      return if answered && hash in network then Some(network[hash]) else None;
    }

    method DownloadSingleChunk(hash: Hash, tries: Tries) returns (data: Option<Bytes>)
      ensures data == if Answered(tries) && hash in network then Some(network[hash]) else None
    {
      data := Get(hash, tries.first);
      if data == None {
        data := Get(hash, tries.second);
      }
    }

    /** None if a worker was rejected. */
    method DownloadPool(hashes: seq<Hash>, key: Option<Bytes>, tries: nat -> Tries) returns (res: Option<seq<Bytes>>)
      ensures res.Some? <==> Failing(p, network, key, hashes, tries) == {}
      ensures res.Some? ==>
                |res.value| == |hashes|
                && forall i :: 0 <= i < |hashes| ==> Some(res.value[i]) == Answer(p, network, key, hashes[i])
    {
      hide PoolSound, StepsLeft;
      var n := |hashes|;
      var slots := new Bytes[n](_ => []);
      var i, workers := 0, seq(LIMIT, _ => Ready);
      ghost var pool, failing := Start(), Failing(p, network, key, hashes, tries);
      StartSound(n, failing);
      while exists k :: 0 <= k < |workers| && Active(workers[k])
        invariant pool.next == i && pool.workers == workers && PoolSound(pool, n, failing) && i <= n
        invariant forall j :: 0 <= j < n && j in pool.finished ==> Some(slots[j]) == Answer(p, network, key, hashes[j])
        decreases StepsLeft(pool, n)
      {
        var k :| 0 <= k < |workers| && Active(workers[k]);
        ghost var before := pool;
        pool := Step(pool, k, n, failing);
        StepKeepsSound(before, k, n, failing);
        StepsShrink(before, k, n, failing);
        if workers[k].Busy? {
          var index := workers[k].index;
          BusyInRange(before, k, n, failing);
          var answer := DownloadSingleChunk(hashes[index], tries(index));
          if answer.Some? && key.Some? {
            answer := p.decrypt(key.value, answer.value);
          }
          if answer == None {
            workers := workers[k := Rejected(index)];
          } else {
            slots[index] := answer.value;
            workers := workers[k := Ready];
          }
        } else if i < n {
          workers := workers[k := Busy(i)];
          i := i + 1;
        } else {
          workers := workers[k := Done];
        }
      }
      assert Ended(pool);
      EndedSound(pool, n, failing);
      if exists k :: 0 <= k < |workers| && workers[k].Rejected? {
        return None;
      }
      assert forall j :: 0 <= j < n ==> j !in failing;
      assert failing == {};
      return Some(slots[..]);
    }

    method Blit(buffer: array<bv8>, offset: nat, chunk: Bytes)
      requires offset + |chunk| <= buffer.Length
      modifies buffer
      ensures buffer[..offset] == old(buffer[..offset]) && buffer[offset..offset + |chunk|] == chunk
    {
      for j := 0 to |chunk|
        invariant buffer[..offset] == old(buffer[..offset])
        invariant buffer[offset..offset + j] == chunk[..j]
      {
        buffer[offset + j] := chunk[j];
      }
    }

    /** Copies the chunks one after the other into one buffer. */
    method Join(chunks: seq<Bytes>) returns (result: Bytes)
      ensures result == Concat(chunks)
    {
      var total := 0;
      for k := 0 to |chunks|
        invariant total == |Concat(chunks[..k])|
      {
        ConcatOneMore(chunks, k);
        total := total + |chunks[k]|;
      }
      var buffer := new bv8[total](_ => 0);
      var offset := 0;
      assert chunks[..|chunks|] == chunks;
      for k := 0 to |chunks|
        invariant offset == |Concat(chunks[..k])| <= total
        invariant buffer[..offset] == Concat(chunks[..k])
      {
        ConcatOneMore(chunks, k);
        ConcatPrefix(chunks, k + 1);
        Blit(buffer, offset, chunks[k]);
        assert buffer[..offset + |chunks[k]|] == buffer[..offset] + buffer[offset..offset + |chunks[k]|];
        offset := offset + |chunks[k]|;
      }
      result := buffer[..];
    }

    /** `fates` are those of the chunks by position, `last` that of the manifest, or
        of a file that is sent whole. */
    method UploadFile(file: Bytes, filename: string, fates: nat -> Fate, last: Fate) returns (hash: Option<Hash>)
      requires Valid()
      modifies this`network
      ensures hash.Some? <==>
                file != [] && Succeeds(last) && (|file| > CHUNK_SIZE ==> Rejections(fates, |Chunks(file)|) == {})
      ensures hash.Some? ==>
                Uploaded(p, old(network), file, filename).Some?
                    && (network, hash.value) == Uploaded(p, old(network), file, filename).value
      ensures Valid() && Later(p, old(network), network)
    {
      hide Chunks, Hashes, PutAll, Lawful, ContentAddressed, PutSome;
      if |file| <= CHUNK_SIZE {
        if file != [] { PutKeeps(p, network, file); }
        SameIsLater();
        hash := UploadSingleChunk(file, last);
        return;
      }
      var chunks := Split(file);
      ChunksNotEmpty(file);
      var hashes := UploadPool(chunks, fates);
      SomeIsLater(p, old(network), chunks, network);
      if hashes == None {
        return None;
      }
      hash := UploadManifest(Manifest(PLAIN, filename, |file|, CHUNK_SIZE, hashes.value), last);
    }

    lemma SameIsLater()
      requires Valid()
      ensures Later(p, network, network)
    {
    }

    method UploadManifest(manifest: Manifest, fate: Fate) returns (hash: Option<Hash>)
      requires Valid()
      modifies this`network
      ensures hash == if Succeeds(fate) then Some(p.digest(p.encode(manifest))) else None
      ensures hash.Some? ==> Put(p, old(network), p.encode(manifest)) == Some((network, hash.value))
      ensures Valid() && Later(p, old(network), network)
    {
      hide Lawful, ContentAddressed;
      Decodes(p, manifest);
      PutKeeps(p, network, p.encode(manifest));
      SameIsLater();
      hash := UploadSingleChunk(p.encode(manifest), fate);
    }

    /** `top` is the first request, `tries` are those for the chunks by position. */
    method DownloadFile(hash: Hash, top: Tries, tries: nat -> Tries) returns (data: Option<Bytes>)
      ensures data == if Answered(top) then Downloaded(p, network, hash, tries) else None
    {
      hide Concat;
      var got := DownloadSingleChunk(hash, top);
      if got == None {
        return None;
      }
      var raw := got.value;
      if |raw| < MANIFEST_LIMIT {
        var m := p.decode(raw);
        if m.Some? && m.value.kind == PLAIN {
          var chunks := DownloadPool(m.value.chunks, None, tries);
          NoneFailing(p, network, None, m.value.chunks, tries);
          if chunks.Some? {
            assert chunks.value == Fetched(network, m.value.chunks);
            var joined := Join(chunks.value);
            return Some(joined);
          }
        }
      }
      return Some(raw);
    }

    method Seal(key: Bytes, nonces: nat -> nat, file: Bytes) returns (sealed: seq<Bytes>)
      ensures sealed == Encrypted(p, key, nonces, Chunks(file))
    {
      hide Slice, Encrypted;
      sealed := [];
      ghost var done: seq<Bytes> := [];
      var offset := 0;
      EncryptedOneMore(p, key, nonces, [], []);
      while offset < |file|
        invariant Chunks(file) == done + ChunksFrom(file, offset)
        invariant sealed == Encrypted(p, key, nonces, done) && |sealed| == |done|
      {
        var chunk := Slice(file, offset, offset + CHUNK_SIZE);
        EncryptedOneMore(p, key, nonces, done, chunk);
        sealed := sealed + [p.encrypt(key, nonces(|sealed|), chunk)];
        done := done + [chunk];
        offset := offset + CHUNK_SIZE;
      }
      assert done == Chunks(file);
    }

    /** `granted` is whether the consensus node puts the grant down, `answered`
        whether it answers; what it answers is not looked at. */
    method UploadPrivateFile(sk: Option<PrivateKey>, grantee: Option<PublicKey>, key: Bytes, nonces: nat -> nat,
                             file: Bytes,
                             fates: nat -> Fate, last: Fate, granted: bool, answered: bool) returns (hash: Option<Hash>)
      requires Valid()
      modifies this
      ensures sk == None ==> hash == None && network == old(network) && access == old(access)
      ensures hash.Some? <==> sk.Some? && Rejections(fates, |Chunks(file)|) == {} && Succeeds(last) && answered
      ensures hash.Some? ==> PrivateUploaded(p, old(network), key, nonces, file) == Some((network, hash.value))
      ensures hash.Some? ==>
                access == if granted then Granted(wallets, old(access), sk.value, grantee, hash.value, key)
                    else old(access)
      ensures hash.Some? && granted ==>
                access == if grantee == None
                          then old(access)[(hash.value, wallets.didOf(sk.value))
                                           := wallets.wrap(wallets.publicOf(sk.value), key)]
                          else old(access)[(hash.value, "unknown") := wallets.wrap(grantee.value, key)]
      ensures hash == None && !(sk.Some? && Rejections(fates, |Chunks(file)|) == {} && Succeeds(last)) ==>
                access == old(access)
      ensures Valid() && Later(p, old(network), network)
    {
      hide Hashes, PutAll, Lawful, ContentAddressed, Encrypted, Chunks, PutSome;
      SameIsLater();
      if sk == None {
        return None;
      }
      var sealed := Seal(key, nonces, file);
      SealedNotEmpty(p, key, nonces, Chunks(file));
      SealedAll(key, nonces, Chunks(file));
      var hashes := UploadPool(sealed, fates);
      SomeIsLater(p, old(network), sealed, network);
      if hashes == None {
        return None;
      }
      hash := UploadManifest(Manifest(ENCRYPTED, "encrypted_file.bin", |file|, CHUNK_SIZE, hashes.value), last);
      if hash.Some? {
        if granted { access := Granted(wallets, access, sk.value, grantee, hash.value, key); }
        if !answered { hash := None; }
      }
    }

    lemma SealedAll(key: Bytes, nonces: nat -> nat, chunks: seq<Bytes>)
      ensures |Encrypted(p, key, nonces, chunks)| == |chunks|
    {
    }

    /** Without a wallet, without an answer from the consensus node, or without a key
        put down for its DID, nothing is read. */
    method DownloadPrivateFile(sk: Option<PrivateKey>, hash: Hash, told: bool, top: Tries, inner: nat -> Tries,
                               tries: nat -> Tries) returns (data: Option<Bytes>)
      ensures data == if sk == None || !told || !Answered(top) then None
                else Read(p, wallets, network, access, sk.value, hash, inner, tries)
    {
      hide PrivateDownloaded;
      if sk == None || !told || (hash, wallets.didOf(sk.value)) !in access {
        return None;
      }
      var key := wallets.unwrap(sk.value, access[(hash, wallets.didOf(sk.value))]);
      if key == None {
        return None;
      }
      data := OpenFile(key.value, hash, top, inner, tries);
    }

    method OpenFile(key: Bytes, hash: Hash, top: Tries, inner: nat -> Tries, tries: nat -> Tries)
      returns (data: Option<Bytes>)
      ensures data == if Answered(top) then PrivateDownloaded(p, network, key, hash, inner, tries) else None
    {
      hide Concat;
      var downloaded := DownloadFile(hash, top, inner);
      if downloaded == None {
        return None;
      }
      var raw := downloaded.value;
      if |raw| < MANIFEST_LIMIT {
        var m := p.decode(raw);
        if m.Some? && m.value.kind == ENCRYPTED {
          var chunks := DownloadPool(m.value.chunks, Some(key), tries);
          NoneFailing(p, network, Some(key), m.value.chunks, tries);
          if chunks.Some? {
            assert chunks.value == Opened(p, key, Fetched(network, m.value.chunks));
            var joined := Join(chunks.value);
            return Some(joined);
          }
        }
      }
      return p.decrypt(key, raw);
    }
  }

  lemma EncryptedOneMore(p: Primitives, key: Bytes, nonces: nat -> nat, done: seq<Bytes>, chunk: Bytes)
    ensures Encrypted(p, key, nonces, []) == [] && |Encrypted(p, key, nonces, done)| == |done|
    ensures Encrypted(p, key, nonces, done + [chunk])
              == Encrypted(p, key, nonces, done) + [p.encrypt(key, nonces(|done|), chunk)]
  {
  }

  lemma NoneFailing(p: Primitives, net: Network, key: Option<Bytes>, hashes: seq<Hash>, tries: nat -> Tries)
    ensures Failing(p, net, key, hashes, tries) == {} <==>
            AllAnswered(tries, |hashes|) && AllPresent(net, hashes)
            && (key.Some? ==> AllOpen(p, key.value, Fetched(net, hashes)))
  {
    if AllAnswered(tries, |hashes|) && AllPresent(net, hashes) {
      forall i: nat | i < |hashes| ensures Answer(p, net, key, hashes[i]) == if key.Some?
          then p.decrypt(key.value, Fetched(net, hashes)[i]) else Some(net[hashes[i]]) {}
      if i :| 0 <= i < |hashes| && key.Some? && p.decrypt(key.value, Fetched(net, hashes)[i]) == None {
        assert i in Failing(p, net, key, hashes, tries);
      }
    } else {
      var i :| 0 <= i < |hashes| && (hashes[i] !in net || !Answered(tries(i)));
      assert i in Failing(p, net, key, hashes, tries);
    }
  }

  lemma {:induction false} ConcatSplit(a: seq<Bytes>, b: seq<Bytes>)
    ensures Concat(a + b) == Concat(a) + Concat(b)
  {
    if a == [] {
      assert a + b == b;
    } else {
      assert (a + b)[1..] == a[1..] + b;
      ConcatSplit(a[1..], b);
    }
  }

  lemma ConcatOneMore(chunks: seq<Bytes>, k: nat)
    requires k < |chunks|
    ensures Concat(chunks[..k + 1]) == Concat(chunks[..k]) + chunks[k]
  {
    assert chunks[..k + 1] == chunks[..k] + [chunks[k]];
    ConcatSplit(chunks[..k], [chunks[k]]);
    assert Concat([chunks[k]]) == chunks[k] + Concat([]);
  }

  lemma ConcatPrefix(chunks: seq<Bytes>, k: nat)
    requires k <= |chunks|
    ensures |Concat(chunks[..k])| <= |Concat(chunks)|
  {
    assert chunks == chunks[..k] + chunks[k..];
    ConcatSplit(chunks[..k], chunks[k..]);
  }
}
