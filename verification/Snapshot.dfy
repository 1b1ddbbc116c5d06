/** State snapshots: taken from any iteration order of the tables, replayed into
    another node. */
module Snapshot {
  import opened Basics
  import opened Wrappers
  import opened Strings
  import opened Tables
  import opened Accounting
  import opened NameRegistry
  import opened Bank
  import opened Grants

  type Digest = int

  /** Keccak over an encoded wallet and amount, the tree over the leaves, a digest
      in hexadecimal, and a signature by a key over a text. */
  datatype Hashing = Hashing(
    leaf: (Wallet, nat) -> Digest, root: seq<Digest> -> Digest, zero: Digest, hex: Digest -> string,
    sign: (string, string) -> string)

  datatype NameEntry = NameEntry(
    name: string, did: string, cid: Option<string>, gateways: Option<seq<string>>, title: Option<string>,
    description: Option<string>, iconCid: Option<string>, createdAt: Option<nat>, updatedAt: Option<nat>)

  datatype StateSnapshot = StateSnapshot(
    epoch: nat, balances: seq<(Wallet, nat)>, names: seq<NameEntry>, merkleRoot: Digest, createdAt: nat,
    signature: string, signer: string)

  /** What a validator signs: the names and the signer are not in it. */
  function SignedText(h: Hashing, epoch: nat, root: Digest): string { Decimal(epoch) + ":" + h.hex(root) }

  function Signature(h: Hashing, key: Option<string>, epoch: nat, root: Digest): string {
    if key.Some? then h.sign(key.value, SignedText(h, epoch, root)) else ""
  }

  lemma {:induction false} SplitsAtColon(a: string, b: string, c: string, d: string)
    requires ':' !in a && ':' !in c && a + ":" + b == c + ":" + d
    ensures a == c && b == d
  {
    if a == "" || c == "" {
      assert (a + ":" + b)[0] == (c + ":" + d)[0];
      assert a == c;
      assert (a + ":" + b)[1..] == b && (c + ":" + d)[1..] == d;
    } else {
      assert (a + ":" + b)[0] == (c + ":" + d)[0];
      assert (a + ":" + b)[1..] == a[1..] + ":" + b && (c + ":" + d)[1..] == c[1..] + ":" + d;
      SplitsAtColon(a[1..], b, c[1..], d);
    }
  }

  /** Two snapshots with the same signed text are of one epoch and one root. */
  lemma SignedTextIdentifies(h: Hashing, epoch: nat, root: Digest, epoch': nat, root': Digest)
    requires forall a, b :: h.hex(a) == h.hex(b) ==> a == b
    requires SignedText(h, epoch, root) == SignedText(h, epoch', root')
    ensures epoch == epoch' && root == root'
  {
    DigitsOnly(epoch, ':');
    DigitsOnly(epoch', ':');
    SplitsAtColon(Decimal(epoch), h.hex(root), Decimal(epoch'), h.hex(root'));
    DecimalInjective(epoch, epoch');
  }

  // ----- Sorted keys -----

  predicate Sorted(s: seq<string>) { forall i, j :: 0 <= i < j < |s| ==> Less(s[i], s[j]) }

  ghost predicate IsSortedListOf(s: seq<string>, keys: set<string>) {
    Sorted(s) && forall k :: k in s <==> k in keys
  }

  /** A set of strings has one sorted list. */
  lemma {:induction false} SortedListUnique(s: seq<string>, t: seq<string>, keys: set<string>)
    requires IsSortedListOf(s, keys) && IsSortedListOf(t, keys)
    ensures s == t
    decreases |s|
  {
    EmptyList(s, keys);
    EmptyList(t, keys);
    if s != [] {
      SmallestFirst(s, t, keys);
      var rest := keys - {s[0]};
      TailSorted(s, keys);
      TailSorted(t, keys);
      SortedListUnique(s[1..], t[1..], rest);
      assert s == [s[0]] + s[1..] && t == [t[0]] + t[1..];
    }
  }

  lemma EmptyList(s: seq<string>, keys: set<string>)
    requires IsSortedListOf(s, keys)
    ensures s == [] <==> keys == {}
  {
    if s != [] { assert s[0] in keys; }
  }

  lemma SmallestFirst(s: seq<string>, t: seq<string>, keys: set<string>)
    requires IsSortedListOf(s, keys) && IsSortedListOf(t, keys) && s != [] && t != []
    ensures s[0] == t[0]
  {
    hide Less;
    assert s[0] in t && t[0] in s;
    if s[0] != t[0] {
      var i :| 0 < i < |t| && t[i] == s[0];
      var j :| 0 < j < |s| && s[j] == t[0];
      assert Less(t[0], s[0]) && Less(s[0], t[0]);
      LessTransitive(s[0], t[0], s[0]);
      LessIrreflexive(s[0]);
    }
  }

  lemma TailSorted(s: seq<string>, keys: set<string>)
    requires IsSortedListOf(s, keys) && s != []
    ensures IsSortedListOf(s[1..], keys - {s[0]})
  {
    hide Less;
    forall k ensures k in s[1..] <==> k in keys - {s[0]} {
      LessIrreflexive(s[0]);
      assert k in s <==> k == s[0] || k in s[1..];
    }
  }

  /** Sorting, whatever order the keys came in. */
  method SortKeys(order: seq<string>) returns (s: seq<string>)
    requires forall i, j :: 0 <= i < j < |order| ==> order[i] != order[j]
    ensures IsSortedListOf(s, set k | k in order)
  {
    hide Less;
    s := [];
    for n := 0 to |order|
      invariant Sorted(s) && forall k :: k in s <==> k in order[..n]
    {
      var at := 0;
      while at < |s| && Less(s[at], order[n])
        invariant 0 <= at <= |s| && forall i :: 0 <= i < at ==> Less(s[i], order[n])
      {
        at := at + 1;
      }
      InsertedSorted(s, at, order[n]) by { assert order[n] !in order[..n]; }
      assert order[..n + 1] == order[..n] + [order[n]];
      s := s[..at] + [order[n]] + s[at..];
    }
    assert order[..|order|] == order;
  }

  lemma InsertedSorted(s: seq<string>, at: nat, k: string)
    requires Sorted(s) && at <= |s| && k !in s
    requires forall i :: 0 <= i < at ==> Less(s[i], k)
    requires at < |s| ==> !Less(s[at], k)
    ensures Sorted(s[..at] + [k] + s[at..])
    ensures forall x :: x in s[..at] + [k] + s[at..] <==> x in s || x == k
  {
    hide Less;
    forall i | at <= i < |s| ensures Less(k, s[i]) {
      LessTotal(k, s[at]);
      assert s[at] in s;
      if i > at { LessTransitive(k, s[at], s[i]); }
    }
    var t := s[..at] + [k] + s[at..];
    forall i, j | 0 <= i < j < |t| ensures Less(t[i], t[j]) {
      assert i < at ==> t[i] == s[i];
      assert i > at ==> t[i] == s[i - 1];
      assert j > at ==> t[j] == s[j - 1];
    }
    assert s == s[..at] + s[at..];
  }

  // ----- What a snapshot says -----

  function Paired(m: Balances, s: seq<Wallet>): seq<(Wallet, nat)>
    requires forall w :: w in s ==> w in m
  {
    seq(|s|, i requires 0 <= i < |s| => (s[i], m[s[i]]))
  }

  function Leaves(h: Hashing, balances: seq<(Wallet, nat)>): seq<Digest> {
    seq(|balances|, i requires 0 <= i < |balances| => h.leaf(balances[i].0, balances[i].1))
  }

  function RootOf(h: Hashing, leaves: seq<Digest>): Digest {
    if leaves == [] then h.zero else h.root(leaves)
  }

  function EntryOf(codec: Codec, name: string, r: NameRow): NameEntry {
    NameEntry(name, r.did, r.cid, if r.gateways.Some? then codec.decode(r.gateways.value) else None, r.title,
              r.description, r.iconCid, r.createdAt, r.updatedAt)
  }

  function EntriesOf(codec: Codec, names: Names, order: seq<string>): seq<NameEntry>
    requires forall n :: n in order ==> n in names
  {
    seq(|order|, i requires 0 <= i < |order| => EntryOf(codec, order[i], names[order[i]]))
  }

  /** The root over balances, the same for every iteration order. */
  ghost predicate IsRootOf(h: Hashing, m: Balances, root: Digest) {
    exists s :: IsSortedListOf(s, m.Keys) && root == RootOf(h, Leaves(h, Paired(m, s)))
  }

  /** `snapshot` is what the tables say; names come in some order. */
  ghost predicate IsSnapshotOf(h: Hashing, codec: Codec, m: Balances, names: Names, snapshot: StateSnapshot) {
    && (exists s :: IsSortedListOf(s, m.Keys) && snapshot.balances == Paired(m, s)
         && snapshot.merkleRoot == RootOf(h, Leaves(h, Paired(m, s))))
    && (exists order :: IsOrderOf(order, names.Keys) && snapshot.names == EntriesOf(codec, names, order))
  }

  lemma RootUnique(h: Hashing, m: Balances, a: Digest, b: Digest)
    requires IsRootOf(h, m, a) && IsRootOf(h, m, b)
    ensures a == b
  {
    var s :| IsSortedListOf(s, m.Keys) && a == RootOf(h, Leaves(h, Paired(m, s)));
    var t :| IsSortedListOf(t, m.Keys) && b == RootOf(h, Leaves(h, Paired(m, t)));
    SortedListUnique(s, t, m.Keys);
  }

  lemma IsSnapshotBy(h: Hashing, codec: Codec, m: Balances, names: Names, snapshot: StateSnapshot, s: seq<Wallet>,
                     order: seq<string>)
    requires IsSortedListOf(s, m.Keys) && snapshot.balances == Paired(m, s)
               && snapshot.merkleRoot == RootOf(h, Leaves(h, Paired(m, s)))
    requires IsOrderOf(order, names.Keys) && snapshot.names == EntriesOf(codec, names, order)
    ensures IsSnapshotOf(h, codec, m, names, snapshot)
  {
  }

  /** Every wallet is listed once with its balance, in order, and the root is over
      their leaves in that order. */
  ghost predicate ListsBalances(h: Hashing, m: Balances, snapshot: StateSnapshot) {
    var list := snapshot.balances;
    && |list| == |m| && (forall i :: 0 <= i < |list| ==> list[i].0 in m && list[i].1 == m[list[i].0])
    && (forall i, j :: 0 <= i < j < |list| ==> Less(list[i].0, list[j].0))
    && snapshot.merkleRoot
         == if list == [] then h.zero
            else h.root(seq(|list|, i requires 0 <= i < |list| => h.leaf(list[i].0, list[i].1)))
  }

  /** Every name is listed once with all that its row has but key and time. */
  ghost predicate ListsNames(codec: Codec, names: Names, snapshot: StateSnapshot) {
    && (forall n :: n in names ==> exists i :: 0 <= i < |snapshot.names| && snapshot.names[i].name == n)
    && (forall i, j :: 0 <= i < j < |snapshot.names| ==> snapshot.names[i].name != snapshot.names[j].name)
    && forall i :: 0 <= i < |snapshot.names| ==>
         var e := snapshot.names[i];
         && e.name in names
         && var r := names[e.name];
            && e.did == r.did && e.cid == r.cid && e.title == r.title && e.description == r.description
            && e.iconCid == r.iconCid && e.createdAt == r.createdAt && e.updatedAt == r.updatedAt
            && e.gateways == if r.gateways == None then None else codec.decode(r.gateways.value)
  }

  lemma SnapshotMeans(h: Hashing, codec: Codec, m: Balances, names: Names, snapshot: StateSnapshot)
    requires IsSnapshotOf(h, codec, m, names, snapshot)
    ensures ListsBalances(h, m, snapshot) && ListsNames(codec, names, snapshot)
  {
    hide Less;
    var s :| IsSortedListOf(s, m.Keys) && snapshot.balances == Paired(m, s)
             && snapshot.merkleRoot == RootOf(h, Leaves(h, Paired(m, s)));
    SortedSize(s, m.Keys);
    assert |m| == |m.Keys|;
    var list := snapshot.balances;
    assert Leaves(h, list) == seq(|list|, i requires 0 <= i < |list| => h.leaf(list[i].0, list[i].1));
    assert ListsBalances(h, m, snapshot);
    var order :| IsOrderOf(order, names.Keys) && snapshot.names == EntriesOf(codec, names, order);
    forall n | n in names ensures exists i :: 0 <= i < |snapshot.names| && snapshot.names[i].name == n {
      var i :| 0 <= i < |order| && order[i] == n;
      assert snapshot.names[i].name == n;
    }
  }

  /** With no collisions among roots, a root belongs to one balance map if the leaves
      of the wallets in question tell wallets and amounts apart. */
  lemma RootIdentifies(h: Hashing, m: Balances, other: Balances, root: Digest)
    requires CollisionFree(h) && IsRootOf(h, m, root) && IsRootOf(h, other, root)
    requires forall w, v, n, k :: w in m && v in other && h.leaf(w, n) == h.leaf(v, k) ==> w == v && n == k
    ensures m == other
  {
    hide RootOf, Sorted;
    var s :| IsSortedListOf(s, m.Keys) && root == RootOf(h, Leaves(h, Paired(m, s)));
    var t :| IsSortedListOf(t, other.Keys) && root == RootOf(h, Leaves(h, Paired(other, t)));
    var a, b := Leaves(h, Paired(m, s)), Leaves(h, Paired(other, t));
    assert a == b;
    forall i | 0 <= i < |s| ensures s[i] == t[i] && m[s[i]] == other[t[i]] {
      assert a[i] == h.leaf(s[i], m[s[i]]) && b[i] == h.leaf(t[i], other[t[i]]);
    }
    assert |s| == |a| == |b| == |t| && s == t;
    forall w ensures w in m <==> w in other { assert w in m.Keys <==> w in s; }
    forall w | w in m ensures m[w] == other[w] {
      var i :| 0 <= i < |s| && s[i] == w;
    }
  }

  /** They need not: every wallet that is not an address is taken for address zero,
      and such wallets can stand for each other under one root. */
  lemma AlikeLeavesAlikeRoots(h: Hashing, w: Wallet, v: Wallet, n: nat, root: Digest)
    requires h.leaf(w, n) == h.leaf(v, n)
    ensures IsRootOf(h, map[w := n], root) <==> IsRootOf(h, map[v := n], root)
  {
    OneWalletRoot(h, w, n, root);
    OneWalletRoot(h, v, n, root);
  }

  lemma OneWalletRoot(h: Hashing, w: Wallet, n: nat, root: Digest)
    ensures IsRootOf(h, map[w := n], root) <==> root == h.root([h.leaf(w, n)])
  {
    var m: Balances := map[w := n];
    assert IsSortedListOf([w], m.Keys);
    assert Leaves(h, Paired(m, [w])) == [h.leaf(w, n)];
    if IsRootOf(h, m, root) {
      var s :| IsSortedListOf(s, m.Keys) && root == RootOf(h, Leaves(h, Paired(m, s)));
      SortedListUnique(s, [w], m.Keys);
    }
  }

  // ----- Replay -----

  function ReplayedBalances(m: Balances, balances: seq<(Wallet, nat)>): Balances {
    if balances == [] then m
    else
      var last := balances[|balances| - 1];
      ReplayedBalances(m, balances[..|balances| - 1])[last.0 := last.1]
  }

  function Restored(codec: Codec, names: Names, e: NameEntry, now: nat): Names {
    var inserted := Inserted(names, e.name, e.did, "", now);
    var pointed := if e.cid.Some?
                   then CidUpdated(inserted, e.name, e.cid.value, if e.gateways.Some?
                       then codec.encode(e.gateways.value) else "[]")
                   else inserted;
    MetadataUpdated(pointed, e.name, e.title, e.description, e.iconCid, now)
  }

  function ReplayedNames(codec: Codec, names: Names, entries: seq<NameEntry>, now: nat): Names {
    if entries == [] then names
    else Restored(codec, ReplayedNames(codec, names, entries[..|entries| - 1], now), entries[|entries| - 1], now)
  }

  lemma {:induction false} BalancesReplayed(m: Balances, source: Balances, s: seq<Wallet>)
    requires forall w :: w in s ==> w in source
    ensures forall w :: w in ReplayedBalances(m, Paired(source, s)) <==> w in m || w in s
    ensures forall w :: w in m || w in s ==> ReplayedBalances(m, Paired(source, s))[w] == if w in s then source[w]
              else m[w]
  {
    if s != [] {
      var n := |s| - 1;
      assert Paired(source, s)[..n] == Paired(source, s[..n]);
      BalancesReplayed(m, source, s[..n]);
      assert forall w :: w in s <==> w in s[..n] || w == s[n];
    }
  }

  function RestoredRow(codec: Codec, r: NameRow, now: nat): NameRow {
    var gateways := if r.gateways.Some? then codec.decode(r.gateways.value) else None;
    NameRow(r.did, "", now, r.cid,
            if r.cid.Some? then Some(if gateways.Some? then codec.encode(gateways.value) else "[]") else None,
            r.title, r.description, r.iconCid, Some(now), Some(now))
  }

  lemma RestoredOne(codec: Codec, names: Names, name: string, r: NameRow, now: nat)
    ensures Restored(codec, names, EntryOf(codec, name, r), now) == names[name := RestoredRow(codec, r, now)]
  {
  }

  lemma {:induction false} NamesReplayed(codec: Codec, names: Names, source: Names, order: seq<string>, now: nat)
    requires forall n :: n in order ==> n in source
    ensures var after := ReplayedNames(codec, names, EntriesOf(codec, source, order), now);
            && (forall n :: n in after <==> n in names || n in order)
            && (forall n :: n in after ==> after[n] == if n in order then RestoredRow(codec, source[n], now)
                 else names[n])
  {
    hide Restored, RestoredRow, EntryOf;
    if order != [] {
      var k := |order| - 1;
      var entries := EntriesOf(codec, source, order);
      assert entries[..k] == EntriesOf(codec, source, order[..k]);
      NamesReplayed(codec, names, source, order[..k], now);
      RestoredOne(codec, ReplayedNames(codec, names, entries[..k], now), order[k], source[order[k]], now);
      assert forall n :: n in order <==> n in order[..k] || n == order[k];
    }
  }

  /** A row that has a CID exactly if it has gateways, and those as valid JSON. */
  ghost predicate RowSound(codec: Codec, r: NameRow) {
    (r.cid.Some? <==> r.gateways.Some?) && (r.gateways.Some? ==> exists g :: r.gateways.value == codec.encode(g))
  }

  ghost predicate NamesSound(codec: Codec, names: Names) { forall n :: n in names ==> RowSound(codec, names[n]) }

  lemma {:induction false} NamesAlwaysSound(codec: Codec, cs: seq<Command>)
    ensures NamesSound(codec, Run(codec, cs).names)
  {
    hide Claimed, Created, Debited, Credited;
    if cs != [] {
      NamesAlwaysSound(codec, cs[..|cs| - 1]);
      ApplyKeepsNames(codec, Run(codec, cs[..|cs| - 1]), cs[|cs| - 1]);
    }
  }

  lemma ApplyKeepsNames(codec: Codec, b: Books, c: Command)
    requires NamesSound(codec, b.names)
    ensures NamesSound(codec, Apply(codec, b, c).names)
  {
    hide Created, Debited, Credited, Verified, Executed;
  }

  /** All that a snapshot is to keep of a row. */
  predicate SameName(a: NameRow, b: NameRow) {
    a.did == b.did && a.cid == b.cid && a.gateways == b.gateways && a.title == b.title
    && a.description == b.description && a.iconCid == b.iconCid
  }

  lemma RowRestored(codec: Codec, r: NameRow, now: nat)
    requires Lawful(codec) && RowSound(codec, r)
    ensures SameName(r, RestoredRow(codec, r, now))
  {
  }

  lemma AllRowsRestored(codec: Codec, names: Names, now: nat)
    requires Lawful(codec) && NamesSound(codec, names)
    ensures forall n :: n in names ==> SameName(names[n], RestoredRow(codec, names[n], now))
  {
    hide RestoredRow, SameName, RowSound;
    forall n | n in names ensures SameName(names[n], RestoredRow(codec, names[n], now)) {
      RowRestored(codec, names[n], now);
    }
  }

  /** After any commands, a snapshot replayed into an empty node gives back every
      balance, every name with its DID, CID, gateways and metadata, and the root
      that the snapshot carries, in whatever order the tables were read. */
  lemma SnapshotRoundTrip(h: Hashing, codec: Codec, cs: seq<Command>, snapshot: StateSnapshot, now: nat)
    requires Lawful(codec)
    requires var b := Run(codec, cs); IsSnapshotOf(h, codec, b.balances, b.names, snapshot)
    ensures var b := Run(codec, cs);
            var balances, names := ReplayedBalances(map[], snapshot.balances),
                ReplayedNames(codec, map[], snapshot.names, now);
            && balances == b.balances && IsRootOf(h, balances, snapshot.merkleRoot)
            && names.Keys == b.names.Keys && forall n :: n in names ==> SameName(b.names[n], names[n])
  {
    hide Run, Less, EntriesOf, EntryOf, RestoredRow, SameName, NamesSound, Lawful, RootOf, Leaves, ReplayedNames,
         ReplayedBalances;
    var b := Run(codec, cs);
    var s :| IsSortedListOf(s, b.balances.Keys) && snapshot.balances == Paired(b.balances, s)
             && snapshot.merkleRoot == RootOf(h, Leaves(h, Paired(b.balances, s)));
    BalancesReplayed(map[], b.balances, s);
    var order :| IsOrderOf(order, b.names.Keys) && snapshot.names == EntriesOf(codec, b.names, order);
    NamesReplayed(codec, map[], b.names, order, now);
    NamesAlwaysSound(codec, cs);
    AllRowsRestored(codec, b.names, now);
  }

  lemma ListedOverwrites(m: Balances, source: Balances, s: seq<Wallet>)
    requires forall w :: w in s <==> w in source
    ensures ReplayedBalances(m, Paired(source, s)) == m + source
  {
    hide ReplayedBalances, Paired;
    BalancesReplayed(m, source, s);
  }

  lemma SortedListed(s: seq<string>, keys: set<string>)
    requires IsSortedListOf(s, keys)
    ensures forall k :: k in s <==> k in keys
  {
  }

  lemma SnapshotHasRoot(h: Hashing, codec: Codec, source: Balances, names: Names, snapshot: StateSnapshot)
    returns (s: seq<Wallet>)
    requires IsSnapshotOf(h, codec, source, names, snapshot)
    ensures IsSortedListOf(s, source.Keys) && snapshot.balances == Paired(source, s)
              && IsRootOf(h, source, snapshot.merkleRoot)
  {
    hide Less, EntriesOf, RootOf, Leaves;
    s :| IsSortedListOf(s, source.Keys) && snapshot.balances == Paired(source, s)
         && snapshot.merkleRoot == RootOf(h, Leaves(h, Paired(source, s)));
  }

  /** No two lists of leaves have one root, and no list has that of no leaves. */
  ghost predicate CollisionFree(h: Hashing) {
    forall a, b :: RootOf(h, a) == RootOf(h, b) ==> a == b
  }

  lemma {:induction false} SortedSize(s: seq<string>, keys: set<string>)
    requires IsSortedListOf(s, keys)
    ensures |s| == |keys|
    decreases |s|
  {
    hide Sorted;
    EmptyList(s, keys);
    if s != [] {
      TailSorted(s, keys);
      SortedSize(s[1..], keys - {s[0]});
      assert s[0] in keys;
    }
  }

  /** Balance maps of one root have equally many wallets. */
  lemma SameRootSameSize(h: Hashing, m: Balances, source: Balances, root: Digest)
    requires CollisionFree(h) && IsRootOf(h, m, root) && IsRootOf(h, source, root)
    ensures |m.Keys| == |source.Keys|
  {
    hide RootOf, Sorted;
    var s :| IsSortedListOf(s, m.Keys) && root == RootOf(h, Leaves(h, Paired(m, s)));
    var t :| IsSortedListOf(t, source.Keys) && root == RootOf(h, Leaves(h, Paired(source, t)));
    SortedSize(s, m.Keys);
    SortedSize(t, source.Keys);
    assert |Leaves(h, Paired(m, s))| == |Leaves(h, Paired(source, t))|;
  }

  /** Into a node with balances of its own, a snapshot overwrites what it has and
      leaves the rest; the root agrees exactly if there is no rest. */
  lemma ReplayOverwrites(h: Hashing, codec: Codec, m: Balances, source: Balances, names: Names, snapshot: StateSnapshot)
    requires IsSnapshotOf(h, codec, source, names, snapshot)
    ensures ReplayedBalances(m, snapshot.balances) == m + source
    ensures m.Keys <= source.Keys ==> m + source == source && IsRootOf(h, m + source, snapshot.merkleRoot)
    ensures CollisionFree(h) ==> (IsRootOf(h, m + source, snapshot.merkleRoot) <==> m.Keys <= source.Keys)
  {
    hide ReplayedBalances, Paired, IsSortedListOf, IsSnapshotOf, IsRootOf, CollisionFree;
    var s := SnapshotHasRoot(h, codec, source, names, snapshot);
    SortedListed(s, source.Keys);
    ListedOverwrites(m, source, s);
    if m.Keys <= source.Keys {
      assert m + source == source;
    }
    if CollisionFree(h) && IsRootOf(h, m + source, snapshot.merkleRoot) {
      SameRootSameSize(h, m + source, source, snapshot.merkleRoot);
      SubsetOfSize(source.Keys, (m + source).Keys);
    }
  }

  /** Replay writes memory only: the database still mirrors it exactly if the
      snapshot brought nothing new. */
  lemma ReplayMirrorsIff(db: map<string, nat>, m: Balances, storage: map<string, nat>, source: Balances)
    requires Mirrors(db, m, storage)
    ensures Mirrors(db, m + source, storage) <==> forall w :: w in source ==> source[w] == BalanceOf(m, w)
  {
    hide BalanceKey, StorageKey;
    if Mirrors(db, m + source, storage) {
      forall w | w in source ensures source[w] == BalanceOf(m, w) {
        assert BalanceOf(m + source, w) == source[w];
      }
    }
  }

  // ----- The code -----

  method MerkleLeaves(h: Hashing, m: Balances) returns (balances: seq<(Wallet, nat)>, leaves: seq<Digest>,
                      ghost s: seq<Wallet>)
    ensures IsSortedListOf(s, m.Keys) && balances == Paired(m, s) && leaves == Leaves(h, balances)
  {
    hide Less;
    var order := Iterate(m.Keys);
    var wallets := SortKeys(order);
    assert IsSortedListOf(wallets, m.Keys);
    balances, leaves, s := [], [], wallets;
    for i := 0 to |wallets|
      invariant balances == Paired(m, wallets)[..i] && leaves == Leaves(h, balances)
    {
      balances := balances + [(wallets[i], m[wallets[i]])];
      leaves := leaves + [h.leaf(wallets[i], m[wallets[i]])];
    }
  }

  method GenerateStateSnapshot(h: Hashing, codec: Codec, ledger: Ledger, db: NameDb,
                               epoch: nat, signer: string, key: Option<string>,
                                   now: nat) returns (snapshot: StateSnapshot)
    ensures IsSnapshotOf(h, codec, ledger.balances, db.registry, snapshot)
    ensures snapshot.epoch == epoch && snapshot.createdAt == now && snapshot.signer == signer
    ensures snapshot.signature == Signature(h, key, epoch, snapshot.merkleRoot)
    ensures snapshot.signature ==
            if key == None then "" else h.sign(key.value, Decimal(epoch) + ":" + h.hex(snapshot.merkleRoot))
    ensures ListsBalances(h, ledger.balances, snapshot) && ListsNames(codec, db.registry, snapshot)
  {
    hide Less, EntryOf, ListsBalances, ListsNames, IsSnapshotOf;
    var balances, leaves;
    ghost var s;
    balances, leaves, s := MerkleLeaves(h, ledger.balances);
    var root := if leaves == [] then h.zero else h.root(leaves);
    var order := Iterate(db.registry.Keys);
    var names: seq<NameEntry> := [];
    for i := 0 to |order|
      invariant names == EntriesOf(codec, db.registry, order)[..i]
    {
      names := names + [EntryOf(codec, order[i], db.registry[order[i]])];
    }
    var signature := "";
    if key.Some? {
      signature := h.sign(key.value, Decimal(epoch) + ":" + h.hex(root));
    }
    snapshot := StateSnapshot(epoch, balances, names, root, now, signature, signer);
    assert IsSnapshotOf(h, codec, ledger.balances, db.registry, snapshot) by {
      IsSnapshotBy(h, codec, ledger.balances, db.registry, snapshot, s, order);
    }
    SnapshotMeans(h, codec, ledger.balances, db.registry, snapshot);
  }

  method GenerateMerkleRoot(h: Hashing, ledger: Ledger) returns (root: Digest)
    ensures IsRootOf(h, ledger.balances, root)
  {
    hide Less;
    var balances, leaves;
    ghost var s;
    balances, leaves, s := MerkleLeaves(h, ledger.balances);
    root := if leaves == [] then h.zero else h.root(leaves);
  }

  /** `verified` is whether the recomputed root is the snapshot's; a mismatch is
      only reported. */
  method ReplayFromSnapshot(h: Hashing, codec: Codec, ledger: Ledger, db: NameDb, snapshot: StateSnapshot, now: nat)
    returns (verified: bool)
    modifies ledger`balances, db`registry
    ensures ledger.balances == ReplayedBalances(old(ledger.balances), snapshot.balances)
    ensures db.registry == ReplayedNames(codec, old(db.registry), snapshot.names, now)
    ensures verified <==> IsRootOf(h, ledger.balances, snapshot.merkleRoot)
  {
    hide Less;
    for i := 0 to |snapshot.balances|
      invariant ledger.balances == ReplayedBalances(old(ledger.balances), snapshot.balances[..i])
      invariant db.registry == old(db.registry)
    {
      var (wallet, balance) := snapshot.balances[i];
      assert snapshot.balances[..i + 1][..i] == snapshot.balances[..i];
      ledger.balances := ledger.balances[wallet := balance];
    }
    assert snapshot.balances[..|snapshot.balances|] == snapshot.balances;
    for i := 0 to |snapshot.names|
      invariant db.registry == ReplayedNames(codec, old(db.registry), snapshot.names[..i], now)
      invariant ledger.balances == ReplayedBalances(old(ledger.balances), snapshot.balances)
    {
      var entry := snapshot.names[i];
      assert snapshot.names[..i + 1][..i] == snapshot.names[..i];
      db.InsertName(entry.name, entry.did, "", now);
      if entry.cid.Some? {
        var gatewaysJson := if entry.gateways.Some? then codec.encode(entry.gateways.value) else "[]";
        db.UpdateCid(entry.name, entry.cid.value, gatewaysJson);
      }
      db.UpdateMetadata(entry.name, entry.title, entry.description, entry.iconCid, now);
    }
    assert snapshot.names[..|snapshot.names|] == snapshot.names;
    var actual := GenerateMerkleRoot(h, ledger);
    verified := actual == snapshot.merkleRoot;
    if IsRootOf(h, ledger.balances, snapshot.merkleRoot) {
      RootUnique(h, ledger.balances, actual, snapshot.merkleRoot);
    }
  }
}
