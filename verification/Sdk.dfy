/** The SDK's upload and download of files in chunks, plain and encrypted, over a
    network that keeps data under its hash. */
module Sdk {
  import opened Wrappers

  type Bytes = seq<bv8>
  type Hash = string
  /** What the network has, by hash. */
  type Network = map<Hash, Bytes>

  const CHUNK_SIZE := 5 * 1024 * 1024
  /** Only what is smaller is looked at for a manifest. */
  const MANIFEST_LIMIT := 1024 * 1024

  datatype Manifest = Manifest(kind: string, filename: string, totalSize: nat, chunkSize: nat, chunks: seq<Hash>)

  const PLAIN := "feedo_manifest"
  const ENCRYPTED := "feedo_encrypted_manifest"

  /** SHA-256, JSON and AES: uninterpreted. `decode` yields a value for any text
      that has a type and an array of chunks. */
  datatype Primitives = Primitives(
    digest: Bytes -> Hash,
    encode: Manifest -> Bytes, decode: Bytes -> Option<Manifest>,
    encrypt: (Bytes, nat, Bytes) -> Bytes, decrypt: (Bytes, Bytes) -> Option<Bytes>)

  ghost predicate Lawful(p: Primitives) {
    && (forall a, b :: p.digest(a) == p.digest(b) ==> a == b)
    && (forall m :: p.decode(p.encode(m)) == Some(m) && p.encode(m) != [])
    && (forall key, nonce, data :: p.decrypt(key, p.encrypt(key, nonce, data)) == Some(data)
         && p.encrypt(key, nonce, data) != [])
  }

  // ----- Chunks -----

  function Slice(s: Bytes, from: nat, to: nat): Bytes
    requires from <= to
  {
    if from >= |s| then [] else if to >= |s| then s[from..] else s[from..to]
  }

  function ChunksFrom(file: Bytes, offset: nat): seq<Bytes>
    decreases |file| - offset
  {
    if offset >= |file| then [] else [Slice(file, offset, offset + CHUNK_SIZE)] + ChunksFrom(file, offset + CHUNK_SIZE)
  }

  function Chunks(file: Bytes): seq<Bytes> { ChunksFrom(file, 0) }

  function Concat(chunks: seq<Bytes>): Bytes {
    if chunks == [] then [] else chunks[0] + Concat(chunks[1..])
  }

  lemma {:induction false} ConcatChunksFrom(file: Bytes, offset: nat)
    requires offset <= |file|
    ensures Concat(ChunksFrom(file, offset)) == file[offset..]
    ensures forall i :: 0 <= i < |ChunksFrom(file, offset)| ==> 0 < |ChunksFrom(file, offset)[i]| <= CHUNK_SIZE
    decreases |file| - offset
  {
    if offset < |file| {
      var next := offset + CHUNK_SIZE;
      if next <= |file| {
        ConcatChunksFrom(file, next);
        assert file[offset..] == file[offset..next] + file[next..];
      } else {
        assert ChunksFrom(file, next) == [];
        assert Concat(ChunksFrom(file, offset)) == file[offset..] + [];
      }
      var rest := ChunksFrom(file, next);
      assert ChunksFrom(file, offset)[1..] == rest;
    }
  }

  // ----- What the calls do -----

  function Hashes(p: Primitives, chunks: seq<Bytes>): seq<Hash> {
    seq(|chunks|, i requires 0 <= i < |chunks| => p.digest(chunks[i]))
  }

  /** The network refuses empty data. */
  function Put(p: Primitives, net: Network, data: Bytes): Option<(Network, Hash)> {
    if data == [] then None else Some((net[p.digest(data) := data], p.digest(data)))
  }

  function PutAll(p: Primitives, net: Network, chunks: seq<Bytes>): Network {
    if chunks == [] then net
    else PutAll(p, net, chunks[..|chunks| - 1])[p.digest(chunks[|chunks| - 1]) := chunks[|chunks| - 1]]
  }

  function PlainManifest(p: Primitives, file: Bytes, filename: string): Manifest {
    Manifest(PLAIN, filename, |file|, CHUNK_SIZE, Hashes(p, Chunks(file)))
  }

  function Uploaded(p: Primitives, net: Network, file: Bytes, filename: string): Option<(Network, Hash)> {
    if |file| <= CHUNK_SIZE then Put(p, net, file)
    else Put(p, PutAll(p, net, Chunks(file)), p.encode(PlainManifest(p, file, filename)))
  }

  predicate AllPresent(net: Network, hashes: seq<Hash>) { forall i :: 0 <= i < |hashes| ==> hashes[i] in net }

  function Fetched(net: Network, hashes: seq<Hash>): seq<Bytes>
    requires AllPresent(net, hashes)
  {
    seq(|hashes|, i requires 0 <= i < |hashes| => net[hashes[i]])
  }

  /** A small file that parses as a manifest of the given kind. */
  function AsManifest(p: Primitives, raw: Bytes, kind: string): Option<Manifest> {
    if |raw| < MANIFEST_LIMIT && p.decode(raw).Some? && p.decode(raw).value.kind == kind then p.decode(raw) else None
  }

  /** A request for data is made once more, to another node, if it is not answered. */
  datatype Tries = Tries(first: bool, second: bool)

  predicate Answered(t: Tries) { t.first || t.second }

  /** None of the first `n` requests fails twice. */
  ghost predicate AllAnswered(tries: nat -> Tries, n: nat) { forall i: nat :: i < n ==> Answered(tries(i)) }

  /** The requests for the chunks of a manifest, by position, are answered as `tries`
      say; a chunk that cannot be had makes the manifest an ordinary file. */
  ghost function Downloaded(p: Primitives, net: Network, hash: Hash, tries: nat -> Tries): Option<Bytes> {
    if hash !in net then None
    else
      var m := AsManifest(p, net[hash], PLAIN);
      if m.Some? && AllPresent(net, m.value.chunks) && AllAnswered(tries, |m.value.chunks|)
      then Some(Concat(Fetched(net, m.value.chunks))) else Some(net[hash])
  }

  // ----- Round trip -----

  /** The network keeps everything under its own hash, and nothing that is empty. */
  ghost predicate ContentAddressed(p: Primitives, net: Network) {
    forall h :: h in net ==> p.digest(net[h]) == h && net[h] != []
  }

  /** Nothing is ever replaced by something else. */
  lemma {:induction false} PutAllKeeps(p: Primitives, net: Network, chunks: seq<Bytes>)
    requires Lawful(p) && ContentAddressed(p, net) && forall i :: 0 <= i < |chunks| ==> chunks[i] != []
    ensures var after := PutAll(p, net, chunks);
            && ContentAddressed(p, after) && (forall h :: h in net ==> h in after && after[h] == net[h])
            && forall i :: 0 <= i < |chunks| ==> p.digest(chunks[i]) in after && after[p.digest(chunks[i])] == chunks[i]
  {
    hide Lawful, ContentAddressed;
    if chunks != [] {
      var n := |chunks| - 1;
      PutAllKeeps(p, net, chunks[..n]);
      PutKeeps(p, PutAll(p, net, chunks[..n]), chunks[n]);
    }
  }

  /** `later` is the network at any time after `net`: data comes, none is lost. */
  ghost predicate Later(p: Primitives, net: Network, later: Network) {
    ContentAddressed(p, later) && forall h :: h in net ==> h in later
  }

  lemma LaterSame(p: Primitives, net: Network, later: Network)
    requires Lawful(p) && ContentAddressed(p, net) && Later(p, net, later)
    ensures forall h :: h in net ==> later[h] == net[h]
  {
    forall h | h in net ensures later[h] == net[h] { assert p.digest(later[h]) == p.digest(net[h]); }
  }

  lemma FetchedChunks(p: Primitives, net: Network, chunks: seq<Bytes>)
    requires forall i :: 0 <= i < |chunks| ==> p.digest(chunks[i]) in net && net[p.digest(chunks[i])] == chunks[i]
    ensures AllPresent(net, Hashes(p, chunks)) && Fetched(net, Hashes(p, chunks)) == chunks
  {
  }

  /** A file that reads as a manifest of data that someone may yet upload, and
      that is not this file. */
  ghost predicate Misread(p: Primitives, file: Bytes) {
    AsManifest(p, file, PLAIN).Some? && exists chunks :: OtherContent(p, file, AsManifest(p, file, PLAIN).value, chunks)
  }

  ghost predicate OtherContent(p: Primitives, file: Bytes, m: Manifest, chunks: seq<Bytes>) {
    (forall i :: 0 <= i < |chunks| ==> chunks[i] != []) && Hashes(p, chunks) == m.chunks && Concat(chunks) != file
  }

  ghost predicate ComesBack(p: Primitives, net: Network, file: Bytes, hash: Hash) {
    forall later, tries :: Later(p, net, later) ==> Downloaded(p, later, hash, tries) == Some(file)
  }

  lemma FetchedHashes(p: Primitives, net: Network, hashes: seq<Hash>)
    requires ContentAddressed(p, net) && AllPresent(net, hashes)
    ensures Hashes(p, Fetched(net, hashes)) == hashes
    ensures forall i :: 0 <= i < |hashes| ==> Fetched(net, hashes)[i] != []
  {
  }

  /** A file of at most 5 MiB comes back, whatever is uploaded after it and whichever
      requests fail after the first, exactly if it cannot be misread. */
  lemma SmallRoundTripIff(p: Primitives, net: Network, file: Bytes, filename: string)
    requires Lawful(p) && ContentAddressed(p, net) && 0 < |file| <= 5_242_880
    ensures var (after, hash) := Uploaded(p, net, file, filename).value;
            ComesBack(p, after, file, hash) <==> !Misread(p, file)
  {
    hide Lawful, Concat, PutAll, Hashes;
    var (after, hash) := Uploaded(p, net, file, filename).value;
    PutKeeps(p, net, file);
    if !Misread(p, file) {
      forall later, tries | Later(p, after, later) ensures Downloaded(p, later, hash, tries) == Some(file) {
        LaterSame(p, after, later);
        NotMisread(p, later, file);
      }
    } else {
      var chunks :| OtherContent(p, file, AsManifest(p, file, PLAIN).value, chunks);
      var later := PutAll(p, after, chunks);
      PutAllKeeps(p, after, chunks);
      FetchedChunks(p, later, chunks);
      var tries := (i: nat) => Tries(true, true);
      assert Later(p, after, later) && Downloaded(p, later, hash, tries) != Some(file);
    }
  }

  lemma NotMisread(p: Primitives, net: Network, file: Bytes)
    requires ContentAddressed(p, net) && !Misread(p, file)
    ensures var m := AsManifest(p, file, PLAIN);
            m.Some? && AllPresent(net, m.value.chunks) ==> Concat(Fetched(net, m.value.chunks)) == file
  {
    hide Concat;
    var m := AsManifest(p, file, PLAIN);
    if m.Some? && AllPresent(net, m.value.chunks) {
      FetchedHashes(p, net, m.value.chunks);
      assert !OtherContent(p, file, m.value, Fetched(net, m.value.chunks));
    }
  }

  /** Any printed manifest of no chunks is such a file: it comes back empty. */
  lemma EmptyManifestIsMisread(p: Primitives, filename: string, size: nat)
    requires Lawful(p) && |p.encode(Manifest(PLAIN, filename, size, CHUNK_SIZE, []))| < MANIFEST_LIMIT
    ensures Misread(p, p.encode(Manifest(PLAIN, filename, size, CHUNK_SIZE, [])))
  {
    var m := Manifest(PLAIN, filename, size, CHUNK_SIZE, []);
    Decodes(p, m);
    assert OtherContent(p, p.encode(m), m, []);
  }

  /** Chunk i is the i-th 5 MiB of the file, and there are just enough of them. */
  lemma {:induction false} ChunksAre(file: Bytes, offset: nat)
    requires offset <= |file|
    ensures var c := ChunksFrom(file, offset);
            && offset + 5_242_880 * |c| >= |file|
            && (c != [] ==> offset + 5_242_880 * (|c| - 1) < |file|)
            && forall i :: 0 <= i < |c| ==>
                 var from := offset + 5_242_880 * i;
                 from < |file|
                     && c[i] == if from + 5_242_880 <= |file| then file[from..from + 5_242_880] else file[from..]
    decreases |file| - offset
  {
    if offset < |file| {
      var next := offset + CHUNK_SIZE;
      var rest := ChunksFrom(file, next);
      if next <= |file| { ChunksAre(file, next); }
      var c := ChunksFrom(file, offset);
      forall i | 0 <= i < |c|
        ensures var from := offset + 5_242_880 * i;
                from < |file|
                    && c[i] == if from + 5_242_880 <= |file| then file[from..from + 5_242_880] else file[from..]
      {
        if i > 0 { assert c[i] == rest[i - 1]; }
      }
    }
  }

  /** What an upload leaves at the hash that it returns: a small file as it is, and of
      a larger one a manifest that names its chunks, each under its own hash. */
  lemma UploadedMeans(p: Primitives, net: Network, file: Bytes, filename: string)
    requires Lawful(p) && ContentAddressed(p, net) && file != []
    ensures Uploaded(p, net, file, filename).Some?
    ensures var (after, hash) := Uploaded(p, net, file, filename).value;
            && hash in after && hash == p.digest(after[hash])
            && if |file| <= 5_242_880 then after[hash] == file
               else
                 var c := Chunks(file);
                 && p.decode(after[hash]) == Some(Manifest("feedo_manifest", filename, |file|, 5_242_880, Hashes(p, c)))
                 && forall i :: 0 <= i < |c| ==> p.digest(c[i]) in after && after[p.digest(c[i])] == c[i]
  {
    hide Chunks, Lawful, PutAll, ContentAddressed, Hashes;
    if |file| <= CHUNK_SIZE {
      PutKeeps(p, net, file);
    } else {
      var manifest := PlainManifest(p, file, filename);
      Decodes(p, manifest);
      ChunksNotEmpty(file);
      PutAllKeeps(p, net, Chunks(file));
      PutKeeps(p, PutAll(p, net, Chunks(file)), p.encode(manifest));
      assert p.digest(p.encode(manifest)) in Uploaded(p, net, file, filename).value.0;
    }
  }

  /** Likewise for a private file, of any size, whose chunks are sealed. */
  lemma PrivateUploadedMeans(p: Primitives, net: Network, key: Bytes, nonces: nat -> nat, file: Bytes)
    requires Lawful(p) && ContentAddressed(p, net)
    ensures PrivateUploaded(p, net, key, nonces, file).Some?
    ensures var (after, hash) := PrivateUploaded(p, net, key, nonces, file).value;
            var c := Chunks(file);
            && hash in after && hash == p.digest(after[hash])
            && (exists hashes ::
                 && p.decode(after[hash])
                      == Some(Manifest("feedo_encrypted_manifest", "encrypted_file.bin", |file|, 5_242_880, hashes))
                 && |hashes| == |c|
                 && forall i :: 0 <= i < |c| ==>
                      hashes[i] in after && after[hashes[i]] == p.encrypt(key, nonces(i), c[i])
                      && hashes[i] == p.digest(after[hashes[i]]))
  {
    hide Chunks, Lawful, PutAll, ContentAddressed;
    var c, sealed := Chunks(file), Encrypted(p, key, nonces, Chunks(file));
    var manifest := PrivateManifest(p, file, sealed);
    Decodes(p, manifest);
    SealedNotEmpty(p, key, nonces, c);
    PutAllKeeps(p, net, sealed);
    PutKeeps(p, PutAll(p, net, sealed), p.encode(manifest));
    var (after, hash) := PrivateUploaded(p, net, key, nonces, file).value;
    var hashes := Hashes(p, sealed);
    forall i | 0 <= i < |c|
      ensures hashes[i] in after && after[hashes[i]] == p.encrypt(key, nonces(i), c[i])
              && hashes[i] == p.digest(after[hashes[i]])
    {
      assert sealed[i] == p.encrypt(key, nonces(i), c[i]) && hashes[i] == p.digest(sealed[i]);
    }
  }

  /** A larger file comes back exactly if its printed manifest is under 1 MiB and no
      chunk request fails twice; otherwise the manifest's bytes come instead. */
  lemma LargeRoundTrip(p: Primitives, net: Network, file: Bytes, filename: string, later: Network, tries: nat -> Tries)
    requires Lawful(p) && ContentAddressed(p, net) && |file| > 5_242_880
    requires var (after, _) := Uploaded(p, net, file, filename).value; Later(p, after, later)
    ensures var (_, hash) := Uploaded(p, net, file, filename).value;
            var manifest := p.encode(PlainManifest(p, file, filename));
            Downloaded(p, later, hash, tries)
              == Some(if |manifest| < 1_048_576 && AllAnswered(tries, |Chunks(file)|) then file else manifest)
  {
    hide Chunks, Lawful, PutAll, Concat, Slice;
    var manifest := PlainManifest(p, file, filename);
    Decodes(p, manifest);
    ChunksNotEmpty(file);
    PutAllKeeps(p, net, Chunks(file));
    var stored := PutAll(p, net, Chunks(file));
    var (after, hash) := Uploaded(p, net, file, filename).value;
    PutKeeps(p, stored, p.encode(manifest));
    LaterSame(p, after, later);
    FetchedChunks(p, later, Chunks(file));
    WholeFile(file);
  }

  lemma ChunksNotEmpty(file: Bytes)
    ensures forall i :: 0 <= i < |Chunks(file)| ==> Chunks(file)[i] != []
  {
    hide ChunksFrom;
    ConcatChunksFrom(file, 0);
  }

  lemma WholeFile(file: Bytes)
    ensures Concat(Chunks(file)) == file
  {
    ConcatChunksFrom(file, 0);
    assert file[0..] == file;
  }

  lemma Decodes(p: Primitives, m: Manifest)
    requires Lawful(p)
    ensures p.decode(p.encode(m)) == Some(m) && p.encode(m) != []
  {
  }

  lemma PutKeeps(p: Primitives, net: Network, data: Bytes)
    requires Lawful(p) && ContentAddressed(p, net) && data != []
    ensures var (after, hash) := Put(p, net, data).value;
            ContentAddressed(p, after) && hash in after && after[hash] == data
                && forall h :: h in net ==> h in after && after[h] == net[h]
  {
  }

  // ----- Encrypted -----

  /** Chunk i is encrypted under nonce i of `nonces`. */
  function Encrypted(p: Primitives, key: Bytes, nonces: nat -> nat, chunks: seq<Bytes>): seq<Bytes> {
    seq(|chunks|, i requires 0 <= i < |chunks| => p.encrypt(key, nonces(i), chunks[i]))
  }

  function PrivateManifest(p: Primitives, file: Bytes, sealed: seq<Bytes>): Manifest {
    Manifest(ENCRYPTED, "encrypted_file.bin", |file|, CHUNK_SIZE, Hashes(p, sealed))
  }

  function PrivateUploaded(p: Primitives, net: Network, key: Bytes, nonces: nat -> nat, file: Bytes): Option<(Network,
                           Hash)> {
    var sealed := Encrypted(p, key, nonces, Chunks(file));
    Put(p, PutAll(p, net, sealed), p.encode(PrivateManifest(p, file, sealed)))
  }

  predicate AllOpen(p: Primitives, key: Bytes, chunks: seq<Bytes>) {
    forall i :: 0 <= i < |chunks| ==> p.decrypt(key, chunks[i]).Some?
  }

  function Opened(p: Primitives, key: Bytes, chunks: seq<Bytes>): seq<Bytes>
    requires AllOpen(p, key, chunks)
  {
    seq(|chunks|, i requires 0 <= i < |chunks| => p.decrypt(key, chunks[i]).value)
  }

  /** What is not a manifest of chunks that can all be had and opened is one
      encrypted file. `inner` are the requests if the file is a plain manifest,
      `tries` those for encrypted chunks. */
  ghost function PrivateDownloaded(p: Primitives, net: Network, key: Bytes, hash: Hash, inner: nat -> Tries,
                                   tries: nat -> Tries): Option<Bytes> {
    match Downloaded(p, net, hash, inner)
    case None => None
    case Some(raw) =>
      var m := AsManifest(p, raw, ENCRYPTED);
      if m.Some? && AllPresent(net, m.value.chunks) && AllAnswered(tries, |m.value.chunks|)
         && AllOpen(p, key, Fetched(net, m.value.chunks))
      then Some(Concat(Opened(p, key, Fetched(net, m.value.chunks))))
      else p.decrypt(key, raw)
  }

  /** What the holder of the key reads of a file that was uploaded under it. */
  ghost function ReadBack(p: Primitives, key: Bytes, nonces: nat -> nat, file: Bytes, tries: nat -> Tries):
    Option<Bytes>
  {
    var manifest := p.encode(PrivateManifest(p, file, Encrypted(p, key, nonces, Chunks(file))));
    if |manifest| < MANIFEST_LIMIT && AllAnswered(tries, |Chunks(file)|) then Some(file) else p.decrypt(key, manifest)
  }

  lemma OpensWhatItSeals(p: Primitives, key: Bytes, nonces: nat -> nat, chunks: seq<Bytes>)
    requires Lawful(p)
    ensures var sealed := Encrypted(p, key, nonces, chunks); AllOpen(p, key, sealed) && Opened(p, key, sealed) == chunks
  {
  }

  lemma SealedNotEmpty(p: Primitives, key: Bytes, nonces: nat -> nat, chunks: seq<Bytes>)
    requires Lawful(p)
    ensures var sealed := Encrypted(p, key, nonces, chunks); forall i :: 0 <= i < |sealed| ==> sealed[i] != []
  {
  }

  /** An encrypted file of any size, the empty one too, comes back to the holder of
      the key exactly if its manifest is under 1 MiB and no chunk request fails
      twice; otherwise what comes back is the manifest's bytes put through
      decryption. */
  lemma PrivateRoundTrip(p: Primitives, net: Network, key: Bytes, nonces: nat -> nat, file: Bytes, later: Network,
                         inner: nat -> Tries, tries: nat -> Tries)
    requires Lawful(p) && ContentAddressed(p, net)
    requires var (after, _) := PrivateUploaded(p, net, key, nonces, file).value; Later(p, after, later)
    ensures var (_, hash) := PrivateUploaded(p, net, key, nonces, file).value;
            var manifest := p.encode(PrivateManifest(p, file, Encrypted(p, key, nonces, Chunks(file))));
            && PrivateDownloaded(p, later, key, hash, inner, tries) == ReadBack(p, key, nonces, file, tries)
            && ReadBack(p, key, nonces, file, tries)
                 == if |manifest| < 1_048_576 && AllAnswered(tries, |Chunks(file)|) then Some(file)
                    else p.decrypt(key, manifest)
  {
    hide Chunks, Lawful, PutAll, Concat, Encrypted, Slice;
    SealedLength(p, key, nonces, Chunks(file));
    var sealed := Encrypted(p, key, nonces, Chunks(file));
    var manifest := PrivateManifest(p, file, sealed);
    Decodes(p, manifest);
    SealedNotEmpty(p, key, nonces, Chunks(file));
    PutAllKeeps(p, net, sealed);
    PutKeeps(p, PutAll(p, net, sealed), p.encode(manifest));
    var (after, hash) := PrivateUploaded(p, net, key, nonces, file).value;
    LaterSame(p, after, later);
    FetchedChunks(p, later, sealed);
    OpensWhatItSeals(p, key, nonces, Chunks(file));
    WholeFile(file);
    assert Downloaded(p, later, hash, inner) == Some(p.encode(manifest));
  }

  lemma SealedLength(p: Primitives, key: Bytes, nonces: nat -> nat, chunks: seq<Bytes>)
    ensures |Encrypted(p, key, nonces, chunks)| == |chunks|
  {
  }

  // ----- Access -----

  type Did = string
  type PrivateKey = string
  type PublicKey = string

  /** A wallet's public key and DID, and the wrapping of file keys for it. */
  datatype Wallets = Wallets(
    publicOf: PrivateKey -> PublicKey, didOf: PrivateKey -> Did,
    wrap: (PublicKey, Bytes) -> string, unwrap: (PrivateKey, string) -> Option<Bytes>)

  /** What is put down as the DID of a grantee of whom only the key is known. */
  const NO_DID := "unknown"

  ghost predicate LawfulWallets(w: Wallets) {
    && (forall sk, key :: w.unwrap(sk, w.wrap(w.publicOf(sk), key)) == Some(key))
    && (forall sk :: w.didOf(sk) != NO_DID)
    && (forall a, b :: w.didOf(a) == w.didOf(b) ==> a == b)
  }

  /** Wrapped file keys by file and DID, as the consensus nodes keep them. */
  type Access = map<(Hash, Did), string>

  /** What an upload by `sk` puts down: for itself, or for the key of a grantee. */
  function Granted(w: Wallets, access: Access, sk: PrivateKey, grantee: Option<PublicKey>, hash: Hash,
                   key: Bytes): Access
  {
    match grantee
    case None => access[(hash, w.didOf(sk)) := w.wrap(w.publicOf(sk), key)]
    case Some(pk) => access[(hash, NO_DID) := w.wrap(pk, key)]
  }

  function KeyFor(w: Wallets, access: Access, sk: PrivateKey, hash: Hash): Option<Bytes> {
    if (hash, w.didOf(sk)) in access then w.unwrap(sk, access[(hash, w.didOf(sk))]) else None
  }

  /** What `sk` gets for a private file. */
  ghost function Read(p: Primitives, w: Wallets, net: Network, access: Access, sk: PrivateKey, hash: Hash,
                      inner: nat -> Tries, tries: nat -> Tries): Option<Bytes> {
    var key := KeyFor(w, access, sk, hash);
    if key == None then None else PrivateDownloaded(p, net, key.value, hash, inner, tries)
  }

  /** What an upload changes for a reader, whoever had access before: without a
      grantee it lets its owner read the file, and no one else anything more than
      before; with a grantee it lets nobody read anything more, the grantee
      included. So of a file that nobody had access to, and that comes back at all,
      only the owner reads it, exactly if no grantee was named. */
  lemma ReadableIff(p: Primitives, w: Wallets, net: Network, access: Access, sk: PrivateKey, grantee: Option<PublicKey>,
                    key: Bytes, nonces: nat -> nat, file: Bytes, later: Network, reader: PrivateKey,
                    inner: nat -> Tries, tries: nat -> Tries)
    requires Lawful(p) && LawfulWallets(w) && ContentAddressed(p, net)
    requires var (after, hash) := PrivateUploaded(p, net, key, nonces, file).value; Later(p, after, later)
    ensures var (_, hash) := PrivateUploaded(p, net, key, nonces, file).value;
            var read := Read(p, w, later, Granted(w, access, sk, grantee, hash, key), reader, hash, inner, tries);
            && read == (if grantee == None && reader == sk then ReadBack(p, key, nonces, file, tries)
                        else Read(p, w, later, access, reader, hash, inner, tries))
            && ((hash, w.didOf(reader)) !in access && ReadBack(p, key, nonces, file, tries) == Some(file) ==>
                  (read == Some(file) <==> grantee == None && reader == sk)
                  && (read == None <==> !(grantee == None && reader == sk)))
  {
    hide PrivateDownloaded, Chunks, PutAll, Encrypted, Later, ReadBack;
    PrivateRoundTrip(p, net, key, nonces, file, later, inner, tries);
    var (after, hash) := PrivateUploaded(p, net, key, nonces, file).value;
    KeyAfter(w, access, sk, grantee, hash, key, reader);
  }

  lemma KeyAfter(w: Wallets, access: Access, sk: PrivateKey, grantee: Option<PublicKey>, hash: Hash, key: Bytes,
                 reader: PrivateKey)
    requires LawfulWallets(w)
    ensures KeyFor(w, Granted(w, access, sk, grantee, hash, key), reader, hash)
            == if grantee == None && reader == sk then Some(key) else KeyFor(w, access, reader, hash)
  {
  }
}
