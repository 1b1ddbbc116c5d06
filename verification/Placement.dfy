/** Round-robin placement of shards on peers, and how many peers it survives. */
module Placement {
  import opened Basics
  import opened Wrappers
  import opened ErasureCoding

  /** The first `m` shards that round-robin over `n` peers gives to peer `p`. */
  function ShardsOf(p: nat, n: nat, m: nat): set<nat>
    requires n > 0
  {
    set i | 0 <= i < m && i % n == p
  }

  /** The shards that go down with a set of peers. */
  function Lost(peers: set<nat>, n: nat): set<nat>
    requires n > 0
  {
    set i | 0 <= i < TOTAL_SHARDS && i % n in peers
  }

  lemma DivStep(m: nat, n: nat)
    requires n > 0
    ensures if m % n == n - 1 then (m + 1) / n == m / n + 1 && (m + 1) % n == 0
            else (m + 1) / n == m / n && (m + 1) % n == m % n + 1
  {
    var q, r := m / n, m % n;
    assert m == q * n + r;
    if r == n - 1 {
      DivUnique(m + 1, n, q + 1, 0);
    } else {
      DivUnique(m + 1, n, q, r + 1);
    }
  }

  lemma Distribute(a: int, b: int, n: int)
    ensures (a + b) * n == a * n + b * n
  {
  }

  lemma AtLeastOnce(d: nat, n: nat)
    requires d >= 1
    ensures d * n >= n
  {
  }

  lemma DivUnique(m: nat, n: nat, q: nat, r: nat)
    requires n > 0 && r < n && m == q * n + r
    ensures m / n == q && m % n == r
  {
    var q1, r1 := m / n, m % n;
    assert q1 * n + r1 == q * n + r;
    if q1 > q {
      Distribute(q, q1 - q, n);
      AtLeastOnce(q1 - q, n);
    } else if q1 < q {
      Distribute(q1, q - q1, n);
      AtLeastOnce(q - q1, n);
    }
  }

  /** Round-robin is as even as can be: the first m % n peers get one more. */
  lemma {:induction false} EvenShare(p: nat, n: nat, m: nat)
    requires p < n
    ensures |ShardsOf(p, n, m)| == m / n + (if p < m % n then 1 else 0)
    decreases m
  {
    if m == 0 {
      assert ShardsOf(p, n, 0) == {};
      DivUnique(0, n, 0, 0);
    } else {
      EvenShare(p, n, m - 1);
      DivStep(m - 1, n);
      if (m - 1) % n == p {
        assert ShardsOf(p, n, m) == ShardsOf(p, n, m - 1) + {m - 1};
      } else {
        assert ShardsOf(p, n, m) == ShardsOf(p, n, m - 1);
      }
    }
  }

  function Below(peers: set<nat>, r: nat): set<nat> { set p | p in peers && p < r }

  lemma LostGrows(rest: set<nat>, p: nat, n: nat)
    requires n > 0 && p !in rest
    ensures |Lost(rest + {p}, n)| == |Lost(rest, n)| + |ShardsOf(p, n, TOTAL_SHARDS)|
  {
    assert Lost(rest + {p}, n) == Lost(rest, n) + ShardsOf(p, n, TOTAL_SHARDS);
    assert Lost(rest, n) !! ShardsOf(p, n, TOTAL_SHARDS);
  }

  lemma BelowGrows(rest: set<nat>, p: nat, r: nat)
    requires p !in rest
    ensures |Below(rest + {p}, r)| == |Below(rest, r)| + (if p < r then 1 else 0)
  {
    assert Below(rest + {p}, r) == if p < r then Below(rest, r) + {p} else Below(rest, r);
  }

  /** What a set of peers takes with it, exactly. */
  lemma {:induction false} LostExactly(peers: set<nat>, n: nat)
    requires n > 0 && forall p :: p in peers ==> p < n
    ensures |Lost(peers, n)| == |peers| * (TOTAL_SHARDS / n) + |Below(peers, TOTAL_SHARDS % n)|
    decreases |peers|
  {
    hide Lost, ShardsOf, Below;
    if peers == {} {
      NothingLost(n, TOTAL_SHARDS % n);
    } else {
      var p :| p in peers;
      var rest := peers - {p};
      assert peers == rest + {p};
      LostExactly(rest, n);
      EvenShare(p, n, TOTAL_SHARDS);
      LostGrows(rest, p, n);
      BelowGrows(rest, p, TOTAL_SHARDS % n);
      Distribute(|rest|, 1, TOTAL_SHARDS / n);
    }
  }

  lemma NothingLost(n: nat, r: nat)
    requires n > 0
    ensures Lost({}, n) == {} && Below({}, r) == {}
  {
  }

  lemma {:induction false} SizeBelow(s: set<nat>, r: nat)
    requires forall p :: p in s ==> p < r
    ensures |s| <= r
    decreases r
  {
    if r > 0 {
      SizeBelow(s - {r - 1}, r - 1);
      assert s <= s - {r - 1} + {r - 1};
      SubsetSize(s, s - {r - 1} + {r - 1});
    } else {
      assert s == {};
    }
  }

  /** The most shards that k of n peers can take with them. */
  function WorstLoss(n: nat, k: nat): nat
    requires n > 0
  {
    k * (TOTAL_SHARDS / n) + Min(k, TOTAL_SHARDS % n)
  }

  /** Every loss of k of n distinct peers leaves 30 shards exactly when the worst
      loss is at most the 15 shards of parity. */
  lemma ToleratesIff(n: nat, k: nat)
    requires 0 < n && k <= n
    ensures (forall lost: set<nat> :: |lost| == k && (forall p :: p in lost ==> p < n) ==>
               TOTAL_SHARDS - |Lost(lost, n)| >= DATA_SHARDS)
        <==> WorstLoss(n, k) <= PARITY_SHARDS
  {
    var r := TOTAL_SHARDS % n;
    forall lost: set<nat> | |lost| == k && (forall p :: p in lost ==> p < n)
      ensures |Lost(lost, n)| <= WorstLoss(n, k)
    {
      LostExactly(lost, n);
      SubsetSize(Below(lost, r), lost);
      SizeBelow(Below(lost, r), r);
    }
    var worst := FirstNats(k);
    LostExactly(worst, n);
    assert Below(worst, r) == FirstNats(Min(k, r));
    assert |Lost(worst, n)| == WorstLoss(n, k);
  }

  /** The usual, coarser bound: k times the largest share. */
  lemma CeilingSuffices(n: nat, k: nat)
    requires 0 < n && k * ((TOTAL_SHARDS + n - 1) / n) <= PARITY_SHARDS
    ensures WorstLoss(n, k) <= PARITY_SHARDS
  {
    var q, r := TOTAL_SHARDS / n, TOTAL_SHARDS % n;
    if r == 0 {
      DivUnique(TOTAL_SHARDS + n - 1, n, q, n - 1);
    } else {
      DivUnique(TOTAL_SHARDS + n - 1, n, q + 1, r - 1);
      Distribute(q, 1, k);
      assert k * (q + 1) == k * q + k;
    }
  }

  /** What is left of `shards` without the peers in `lost`. */
  function Without(shards: Shards, lost: set<nat>, n: nat): (r: Received)
    requires n > 0
    ensures |r| == |shards|
  {
    seq(|shards|, i requires 0 <= i < |shards| => if i % n in lost then None else Some(shards[i]))
  }

  lemma {:induction false} CountWithout(shards: Shards, lost: set<nat>, n: nat, from: nat)
    requires n > 0 && |shards| == TOTAL_SHARDS && from <= TOTAL_SHARDS
    ensures Count(Without(shards, lost, n), from) == TOTAL_SHARDS - from - |set i | i in Lost(lost, n) && i >= from|
    decreases TOTAL_SHARDS - from
  {
    var here := set i | i in Lost(lost, n) && i >= from;
    if from == TOTAL_SHARDS {
      assert here == {};
    } else {
      var rest := set i | i in Lost(lost, n) && i >= from + 1;
      CountWithout(shards, lost, n, from + 1);
      assert here == if from % n in lost then rest + {from} else rest;
    }
  }

  /** A file placed round-robin survives the loss of a set of peers exactly when
      they hold at most 15 of its shards. */
  lemma SurvivesIff(data: Bytes, lost: set<nat>, n: nat)
    requires n > 0 && data != []
    ensures Decoded(Without(Encoded(data).value, lost, n), |data|) == Ok(data) <==> |Lost(lost, n)| <= PARITY_SHARDS
  {
    hide Decoded;
    var shards := Encoded(data).value;
    CountWithout(shards, lost, n, 0);
    assert (set i | i in Lost(lost, n) && i >= 0) == Lost(lost, n);
    RoundTrip(data, Without(shards, lost, n));
  }
}
