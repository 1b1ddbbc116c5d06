/** The quota classes as one thread sees them: each method is proved to do what
    its call does when it runs alone. */
module Quota {
  import opened Basics
  import opened Wrappers
  import opened QuotaProtocol
  import opened QuotaSafety

  class PerClassQuota {
    const maxBytes: nat
    var currentBytes: nat

    constructor (maxBytes: nat)
      ensures this.maxBytes == maxBytes && currentBytes == 0
    {
      this.maxBytes, currentBytes := maxBytes, 0;
    }

    /** `spurious` is how often the weak compare-exchange fails for no reason. */
    method TryReserve(size: nat, spurious: nat) returns (ok: bool)
      modifies this
      ensures ok == (SaturatingAdd(old(currentBytes), size) <= maxBytes)
      ensures currentBytes == if ok then Wrap(old(currentBytes) + size) else old(currentBytes)
      ensures old(currentBytes) + size <= 0xFFFF_FFFF_FFFF_FFFF ==>
                (ok <==> old(currentBytes) + size <= maxBytes) && (ok ==> currentBytes == old(currentBytes) + size)
    {
      var current := currentBytes;
      var failures := spurious;
      while true
        invariant current == currentBytes == old(currentBytes)
        decreases failures
      {
        if SaturatingAdd(current, size) > maxBytes {
          return false;
        }
        if failures == 0 {
          currentBytes := Wrap(current + size);
          return true;
        }
        current, failures := currentBytes, failures - 1;
      }
    }

    method Release(size: nat)
      modifies this
      ensures currentBytes == if size <= old(currentBytes) then old(currentBytes) - size else 0
    {
      currentBytes := currentBytes - Min(size, currentBytes);
    }
  }

  /** What remains of a reservation when the user's counter has let it pass. */
  function BehindUser(l: QuotaProtocol.Limits, c: Counters, d: Did, n: nat): (Counters, bool) {
    if SaturatingAdd(c.global, n) <= l.total then (c.(global := Wrap(c.global + n)), true)
    else (WithUser(c, d, if n <= UserCount(c, d) then UserCount(c, d) - n else 0), false)
  }

  lemma ReservedInTwo(l: QuotaProtocol.Limits, c: Counters, d: Did, n: nat)
    ensures var c0 := Touched(c, d); var count := UserCount(c0, d);
            Reserved(l, c, d, n) == if SaturatingAdd(count, n) <= l.perUser
                then BehindUser(l, WithUser(c0, d, Wrap(count + n)), d, n)
                                    else (WithUser(c0, d, count), false)
  {
    hide Wrap, SaturatingAdd;
    var c0, count := Touched(c, d), UserCount(c, d);
    var u1 := Wrap(count + n);
    LastWrite(c, d, count, count);
    LastWrite(c, d, count, u1);
    LastWrite(c0, d, u1, u1 - Min(n, u1));
    LastWrite(c, d, count, u1 - Min(n, u1));
  }

  lemma LastWrite(c: Counters, d: Did, j: nat, k: nat)
    ensures WithUser(WithUser(c, d, j), d, k) == WithUser(c, d, k)
  {
    assert c.users[d := j][d := k] == c.users[d := k];
  }

  /** Short of 64 bits, both counters grow by the size or neither does. */
  lemma ReservesWhatFits(l: QuotaProtocol.Limits, c: Counters, d: Did, n: nat)
    ensures var (after, ok) := Reserved(l, c, d, n);
            UserCount(c, d) + n <= 0xFFFF_FFFF_FFFF_FFFF && c.global + n <= 0xFFFF_FFFF_FFFF_FFFF ==>
              && (ok <==> UserCount(c, d) + n <= l.perUser && c.global + n <= l.total)
              && UserCount(after, d) == UserCount(c, d) + (if ok then n else 0)
              && after.global == c.global + (if ok then n else 0)
              && forall e :: e != d ==> UserCount(after, e) == UserCount(c, e)
  {
    if UserCount(c, d) + n <= MAX && c.global + n <= MAX { ReservesBoth(l, c, d, n); }
  }

  class StorageQuotaManager {
    const global: PerClassQuota
    const perUserMaxBytes: nat
    var perUser: map<Did, PerClassQuota>

    ghost predicate Valid()
      reads this, perUser.Values, global
    {
      && global.maxBytes <= MAX && perUserMaxBytes <= MAX
      && (forall d :: d in perUser ==> perUser[d].maxBytes == perUserMaxBytes && perUser[d] != global)
      && (forall d, e :: d in perUser && e in perUser && d != e ==> perUser[d] != perUser[e])
      && Within(Limits(), Model())
    }

    ghost function Limits(): QuotaProtocol.Limits
    {
      QuotaProtocol.Limits(global.maxBytes, perUserMaxBytes)
    }

    ghost function Model(): Counters
      reads this, perUser.Values, global
    {
      Counters(global.currentBytes, map d | d in perUser :: perUser[d].currentBytes)
    }

    constructor (totalMaxBytes: nat, perUserMaxBytes: nat)
      requires totalMaxBytes <= MAX && perUserMaxBytes <= MAX
      ensures Valid() && Model() == Counters(0, map[])
      ensures Limits() == QuotaProtocol.Limits(totalMaxBytes, perUserMaxBytes)
      ensures fresh(global)
    {
      this.perUserMaxBytes, perUser := perUserMaxBytes, map[];
      global := new PerClassQuota(totalMaxBytes);
    }

    method PerUserQuota(did: Did) returns (q: PerClassQuota)
      requires Valid()
      modifies this`perUser
      ensures Valid() && did in perUser && perUser[did] == q && Model() == Touched(old(Model()), did)
      ensures fresh(perUser.Values - old(perUser.Values))
    {
      if did !in perUser {
        q := new PerClassQuota(perUserMaxBytes);
        perUser := perUser[did := q];
      }
      q := perUser[did];
      assert Model().users == Touched(old(Model()), did).users;
      forall d ensures UserCount(Model(), d) == UserCount(old(Model()), d) {}
    }

    method ReserveUser(did: Did, user: PerClassQuota, size: nat, spurious: nat) returns (ok: bool)
      requires Valid() && did in perUser && perUser[did] == user
      modifies user
      ensures var count := UserCount(old(Model()), did);
              && ok == (SaturatingAdd(count, size) <= perUserMaxBytes)
              && Model() == WithUser(old(Model()), did, if ok then Wrap(count + size) else count)
      ensures Valid()
    {
      assert user.currentBytes == UserCount(Model(), did);
      ok := user.TryReserve(size, spurious);
      assert Model().users == old(Model()).users[did := user.currentBytes];
      forall d | d != did ensures UserCount(Model(), d) == UserCount(old(Model()), d) {}
    }

    method ReleaseUser(did: Did, user: PerClassQuota, size: nat)
      requires Valid() && did in perUser && perUser[did] == user
      modifies user
      ensures var count := UserCount(old(Model()), did);
              Valid() && Model() == WithUser(old(Model()), did, if size <= count then count - size else 0)
    {
      assert user.currentBytes == UserCount(Model(), did);
      user.Release(size);
      assert Model().users == old(Model()).users[did := user.currentBytes];
      forall d ensures UserCount(Model(), d) <= UserCount(old(Model()), d) {}
    }

    method ReserveGlobal(size: nat, spurious: nat) returns (ok: bool)
      requires Valid()
      modifies global
      ensures ok == (SaturatingAdd(old(Model()).global, size) <= global.maxBytes)
      ensures Valid() && Model()
                == old(Model()).(global := if ok then Wrap(old(Model()).global + size) else old(Model()).global)
    {
      ok := global.TryReserve(size, spurious);
      assert Model().users == old(Model()).users;
      forall d ensures UserCount(Model(), d) == UserCount(old(Model()), d) {}
    }

    method ReleaseGlobal(size: nat)
      requires Valid()
      modifies global
      ensures var count := old(Model()).global;
              Valid() && Model() == old(Model()).(global := if size <= count then count - size else 0)
    {
      global.Release(size);
      assert Model().users == old(Model()).users;
      forall d ensures UserCount(Model(), d) == UserCount(old(Model()), d) {}
    }

    /** The global part of a reservation; a refusal takes back what the user's
        counter was given. */
    method ReserveBehind(did: Did, user: PerClassQuota, size: nat, spurious: nat) returns (ok: bool)
      requires Valid() && did in perUser && perUser[did] == user
      modifies user, global
      ensures Valid() && (Model(), ok) == BehindUser(Limits(), old(Model()), did, size)
    {
      hide Valid, Model, Wrap, SaturatingAdd;
      ok := ReserveGlobal(size, spurious);
      if !ok {
        ReleaseUser(did, user, size);
      }
    }

    method CheckAndReserveFor(did: Did, size: nat, spurious: nat) returns (res: Result<()>)
      requires Valid()
      modifies this`perUser, perUser.Values, global
      ensures Valid() && (Model(), res.Ok?) == Reserved(Limits(), old(Model()), did, size)
      ensures var user, total := UserCount(old(Model()), did), old(global.currentBytes);
              user + size <= 0xFFFF_FFFF_FFFF_FFFF && total + size <= 0xFFFF_FFFF_FFFF_FFFF ==>
                && (res.Ok? <==> user + size <= perUserMaxBytes && total + size <= global.maxBytes)
                && UserCount(Model(), did) == user + (if res.Ok? then size else 0)
                && global.currentBytes == total + (if res.Ok? then size else 0)
                && forall d :: d != did ==> UserCount(Model(), d) == UserCount(old(Model()), d)
    {
      hide Valid, Model, Wrap, SaturatingAdd, WithUser, BehindUser, Touched, UserCount, Reserved;
      ReservedInTwo(Limits(), Model(), did, size);
      ReservesWhatFits(Limits(), Model(), did, size);
      InModel();
      var user := PerUserQuota(did);
      var ok := ReserveUser(did, user, size, spurious);
      if !ok {
        InModel();
        return Err("Per-user storage quota exceeded");
      }
      ok := ReserveBehind(did, user, size, spurious);
      InModel();
      return if ok then Ok(()) else Err("Storage quota exceeded");
    }

    method ReleaseFor(did: Did, size: nat)
      requires Valid()
      modifies this`perUser, perUser.Values, global
      ensures Valid() && Model() == Released(old(Model()), did, size)
      ensures var user, total := UserCount(old(Model()), did), old(global.currentBytes);
              && UserCount(Model(), did) == (if size <= user then user - size else 0)
              && global.currentBytes == (if size <= total then total - size else 0)
              && forall d :: d != did ==> UserCount(Model(), d) == UserCount(old(Model()), d)
    {
      hide Valid, Model;
      InModel();
      ReleaseGlobal(size);
      var user := PerUserQuota(did);
      ReleaseUser(did, user, size);
      assert Model().users == Released(old(Model()), did, size).users;
      InModel();
    }

    lemma InModel()
      ensures Model().global == global.currentBytes
      ensures Limits() == QuotaProtocol.Limits(global.maxBytes, perUserMaxBytes)
    {
    }
  }
}
