/** Balances in memory with a mirror in the database, and per-DID storage use. */
module Accounting {
  import opened Basics
  import opened Wrappers

  type Wallet = string
  type Balances = map<Wallet, nat>

  function BalanceOf(m: Balances, w: Wallet): nat { ValueAt(m, w) }

  /** Looking a wallet up for an update makes an entry for it. */
  function Credited(m: Balances, w: Wallet, amount: nat): Balances { m[w := BalanceOf(m, w) + amount] }

  function Debited(m: Balances, w: Wallet, amount: nat): (Balances, bool) {
    if BalanceOf(m, w) >= amount then (m[w := BalanceOf(m, w) - amount], true) else (m[w := BalanceOf(m, w)], false)
  }

  function BalanceKey(w: Wallet): string { "balance:" + w }

  function StorageKey(did: string): string { "storage_used:" + did }

  lemma KeysApart(w: Wallet, did: string)
    ensures BalanceKey(w) != StorageKey(did)
  {
    assert BalanceKey(w)[0] == 'b' && StorageKey(did)[0] == 's';
  }

  lemma KeysInjective(a: string, b: string)
    ensures BalanceKey(a) == BalanceKey(b) ==> a == b
    ensures StorageKey(a) == StorageKey(b) ==> a == b
  {
    assert BalanceKey(a)[8..] == a && BalanceKey(b)[8..] == b;
    assert StorageKey(a)[13..] == a && StorageKey(b)[13..] == b;
  }

  /** The database says what memory says, counting no entry as zero. */
  ghost predicate Mirrors(db: map<string, nat>, balances: Balances, storage: map<string, nat>) {
    && (forall w :: (if BalanceKey(w) in db then db[BalanceKey(w)] else 0) == BalanceOf(balances, w))
    && (forall d :: (if StorageKey(d) in db then db[StorageKey(d)] else 0) == BalanceOf(storage, d))
  }

  lemma BalanceWritten(db: map<string, nat>, balances: Balances, storage: map<string, nat>, w: Wallet, n: nat)
    requires Mirrors(db, balances, storage)
    ensures Mirrors(db[BalanceKey(w) := n], balances[w := n], storage)
  {
    hide BalanceKey, StorageKey;
    forall v { KeysInjective(v, w); }
    forall d { KeysApart(w, d); }
  }

  lemma StorageWritten(db: map<string, nat>, balances: Balances, storage: map<string, nat>, did: string, n: nat)
    requires Mirrors(db, balances, storage)
    ensures Mirrors(db[StorageKey(did) := n], balances, storage[did := n])
  {
    hide BalanceKey, StorageKey;
    forall d { KeysInjective(d, did); }
    forall v { KeysApart(v, did); }
  }

  lemma EntryMade(db: map<string, nat>, balances: Balances, storage: map<string, nat>, k: string)
    requires Mirrors(db, balances, storage)
    ensures Mirrors(db, balances[k := BalanceOf(balances, k)], storage)
    ensures Mirrors(db, balances, storage[k := BalanceOf(storage, k)])
  {
    hide BalanceKey, StorageKey;
  }

  class Ledger {
    var db: map<string, nat>
    var balances: Balances
    var storageUsed: map<string, nat>
    const maxStoragePerUser: nat

    constructor (maxStoragePerUser: nat)
      ensures Valid() && balances == map[] && storageUsed == map[] && db == map[]
      ensures this.maxStoragePerUser == maxStoragePerUser
    {
      db, balances, storageUsed, this.maxStoragePerUser := map[], map[], map[], maxStoragePerUser;
    }

    ghost predicate Valid()
      reads this
    {
      Mirrors(db, balances, storageUsed)
    }

    method Credit(wallet: Wallet, amount: nat)
      modifies this`balances, this`db
      ensures balances == Credited(old(balances), wallet, amount)
      ensures BalanceOf(balances, wallet) == BalanceOf(old(balances), wallet) + amount
      ensures forall other :: other != wallet ==> BalanceOf(balances, other) == BalanceOf(old(balances), other)
      ensures old(Valid()) ==> Valid()
    {
      var entry := (if wallet in balances then balances[wallet] else 0) + amount;
      if Valid() { BalanceWritten(db, balances, storageUsed, wallet, entry); }
      balances := balances[wallet := entry];
      db := db[BalanceKey(wallet) := entry];
    }

    method Debit(wallet: Wallet, amount: nat) returns (ok: bool)
      modifies this`balances, this`db
      ensures (balances, ok) == Debited(old(balances), wallet, amount)
      ensures ok <==> amount <= BalanceOf(old(balances), wallet)
      ensures BalanceOf(balances, wallet) == BalanceOf(old(balances), wallet) - if ok then amount else 0
      ensures forall other :: other != wallet ==> BalanceOf(balances, other) == BalanceOf(old(balances), other)
      ensures old(Valid()) ==> Valid()
    {
      hide Mirrors, BalanceKey;
      var entry := if wallet in balances then balances[wallet] else 0;
      if Valid() { EntryMade(db, balances, storageUsed, wallet); }
      balances := balances[wallet := entry];
      if entry >= amount {
        if Valid() { BalanceWritten(db, balances, storageUsed, wallet, entry - amount); }
        balances := balances[wallet := entry - amount];
        db := db[BalanceKey(wallet) := entry - amount];
        assert balances == old(balances)[wallet := entry - amount];
        return true;
      }
      return false;
    }

    method GetBalance(wallet: Wallet) returns (balance: nat)
      ensures balance == BalanceOf(balances, wallet)
      ensures balance == if wallet in balances then balances[wallet] else 0
    {
      balance := if wallet in balances then balances[wallet] else 0;
    }

    /** The check saturates at 64 bits and the addition wraps there; short of that
        bytes are reserved exactly if they fit. */
    method ReserveStorage(did: string, bytes: nat) returns (res: Result<nat>)
      modifies this`storageUsed, this`db
      ensures var used := BalanceOf(old(storageUsed), did);
              && (res.Ok? <==> SaturatingAdd(used, bytes) <= maxStoragePerUser)
              && (res.Ok? ==> res.value == Wrap(used + bytes))
              && storageUsed == old(storageUsed)[did := if res.Ok? then Wrap(used + bytes) else used]
      ensures var used := BalanceOf(old(storageUsed), did);
              used + bytes <= MAX ==>
                  (res.Ok? <==> used + bytes <= maxStoragePerUser) && (res.Ok? ==> res.value == used + bytes)
      ensures old(Valid()) ==> Valid()
    {
      hide Mirrors, Wrap, SaturatingAdd, StorageKey;
      var entry := if did in storageUsed then storageUsed[did] else 0;
      if entry + bytes <= MAX { ShortOf64(entry, bytes); }
      if Valid() { EntryMade(db, balances, storageUsed, did); }
      storageUsed := storageUsed[did := entry];
      if SaturatingAdd(entry, bytes) > maxStoragePerUser {
        return Err("Per-user storage quota exceeded");
      }
      var sum := Wrap(entry + bytes);
      if Valid() { StorageWritten(db, balances, storageUsed, did, sum); }
      storageUsed := storageUsed[did := sum];
      db := db[StorageKey(did) := sum];
      assert storageUsed == old(storageUsed)[did := sum];
      return Ok(sum);
    }

    method ReleaseStorage(did: string, bytes: nat)
      modifies this`storageUsed, this`db
      ensures var used := BalanceOf(old(storageUsed), did);
              storageUsed == old(storageUsed)[did := if bytes <= used then used - bytes else 0]
      ensures old(Valid()) ==> Valid()
    {
      var entry := if did in storageUsed then storageUsed[did] else 0;
      entry := if bytes <= entry then entry - bytes else 0;
      if Valid() { StorageWritten(db, balances, storageUsed, did, entry); }
      storageUsed := storageUsed[did := entry];
      db := db[StorageKey(did) := entry];
    }

    method ClaimGrantCredits(did: string, amount: nat) returns (balance: nat)
      modifies this`balances, this`db
      ensures balances == Credited(old(balances), did, amount) && balance == BalanceOf(balances, did)
      ensures balance == BalanceOf(old(balances), did) + amount
      ensures forall other :: other != did ==> BalanceOf(balances, other) == BalanceOf(old(balances), other)
      ensures old(Valid()) ==> Valid()
    {
      Credit(did, amount);
      balance := GetBalance(did);
    }
  }
}
