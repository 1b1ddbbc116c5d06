/** Reputation-weighted committee selection: a stable descending sort of an
    arbitrarily ordered table, of which the first 21 are kept. */
module Committee {
  import opened Basics
  import opened PporProtocol
  import opened Tables

  const COMMITTEE_SIZE := 21

  /** What a committee selection is seeded with. */
  datatype Seed = Seed(lastFinalizedHash: TxHash, epoch: nat)

  /** The first eight bytes of SHA-256 over a seed and a node. */
  type NodeHash = (Seed, NodeId) -> nat

  const WORD := 0x1_0000_0000_0000_0000

  /** Hash times reputation, in 64 wrapping bits. */
  function Score(hash: NodeHash, seed: Seed, reputation: map<NodeId, nat>): NodeId -> nat {
    (node: NodeId) => (hash(seed, node) * (if node in reputation then reputation[node] else 0)) % WORD
  }

  function InsertDesc(x: NodeId, sorted: seq<NodeId>, score: NodeId -> nat): seq<NodeId> {
    if sorted == [] || score(x) >= score(sorted[0]) then [x] + sorted
    else [sorted[0]] + InsertDesc(x, sorted[1..], score)
  }

  /** Descending by score; equal scores keep their order. */
  function SortDesc(order: seq<NodeId>, score: NodeId -> nat): seq<NodeId> {
    if order == [] then [] else InsertDesc(order[0], SortDesc(order[1..], score), score)
  }

  ghost predicate SortedDesc(s: seq<NodeId>, score: NodeId -> nat) {
    forall i, j :: 0 <= i <= j < |s| ==> score(s[i]) >= score(s[j])
  }

  function Keep(sorted: seq<NodeId>): seq<NodeId> {
    sorted[..Min(|sorted|, COMMITTEE_SIZE)]
  }

  /** The committee that one iteration order yields. */
  function Selected(order: seq<NodeId>, score: NodeId -> nat): set<NodeId> {
    set x | x in Keep(SortDesc(order, score))
  }

  /** The committees that selection is meant to yield: as many members as there
      are seats or nodes, none scoring below a node left out. */
  ghost predicate IsTop(chosen: set<NodeId>, table: set<NodeId>, score: NodeId -> nat) {
    && chosen <= table && |chosen| == Min(|table|, COMMITTEE_SIZE)
    && forall a, b :: a in chosen && b in table - chosen ==> score(a) >= score(b)
  }

  // ----- Sorting -----

  lemma {:induction false} InsertElements(x: NodeId, sorted: seq<NodeId>, score: NodeId -> nat)
    ensures multiset(InsertDesc(x, sorted, score)) == multiset([x]) + multiset(sorted)
  {
    if sorted != [] && score(x) < score(sorted[0]) {
      InsertElements(x, sorted[1..], score);
      assert sorted == [sorted[0]] + sorted[1..];
    }
  }

  lemma {:induction false} InsertSorted(x: NodeId, sorted: seq<NodeId>, score: NodeId -> nat)
    requires SortedDesc(sorted, score)
    ensures SortedDesc(InsertDesc(x, sorted, score), score)
  {
    if sorted != [] && score(x) < score(sorted[0]) {
      var rest := InsertDesc(x, sorted[1..], score);
      InsertSorted(x, sorted[1..], score);
      InsertElements(x, sorted[1..], score);
      forall y | y in rest ensures score(y) <= score(sorted[0]) {
        assert y in multiset(rest);
        assert y == x || y in sorted[1..];
      }
    }
  }

  lemma {:induction false} SortFacts(order: seq<NodeId>, score: NodeId -> nat)
    ensures SortedDesc(SortDesc(order, score), score)
    ensures multiset(SortDesc(order, score)) == multiset(order)
  {
    if order != [] {
      SortFacts(order[1..], score);
      InsertSorted(order[0], SortDesc(order[1..], score), score);
      InsertElements(order[0], SortDesc(order[1..], score), score);
      assert order == [order[0]] + order[1..];
    }
  }

  lemma {:induction false} DistinctByCount(s: seq<NodeId>)
    requires forall x :: multiset(s)[x] <= 1
    ensures forall i, j :: 0 <= i < j < |s| ==> s[i] != s[j]
  {
    forall i, j | 0 <= i < j < |s| ensures s[i] != s[j] {
      var left, right := s[..i] + [s[i]], s[i + 1..];
      assert s == left + right;
      assert left[i] == s[i] && right[j - i - 1] == s[j];
      assert s[i] in multiset(left) && s[j] in multiset(right);
      assert multiset(s)[s[i]] == multiset(left)[s[i]] + multiset(right)[s[i]];
    }
  }

  lemma {:induction false} CountOfDistinct(s: seq<NodeId>, x: NodeId)
    requires forall i, j :: 0 <= i < j < |s| ==> s[i] != s[j]
    ensures multiset(s)[x] <= 1
    ensures x in s <==> multiset(s)[x] == 1
  {
    if s != [] {
      assert s == [s[0]] + s[1..];
      CountOfDistinct(s[1..], x);
    }
  }

  lemma {:induction false} SizeOfDistinct(s: seq<NodeId>)
    requires forall i, j :: 0 <= i < j < |s| ==> s[i] != s[j]
    ensures |set x | x in s| == |s|
  {
    if s != [] {
      SizeOfDistinct(s[1..]);
      assert (set x | x in s) == {s[0]} + (set x | x in s[1..]);
    }
  }

  lemma SortIsOrder(order: seq<NodeId>, table: set<NodeId>, score: NodeId -> nat)
    requires IsOrderOf(order, table)
    ensures IsOrderOf(SortDesc(order, score), table) && |SortDesc(order, score)| == |table|
  {
    var sorted := SortDesc(order, score);
    SortFacts(order, score);
    forall x ensures x in table <==> x in sorted {
      assert x in sorted <==> x in multiset(sorted);
      assert x in order <==> x in multiset(order);
    }
    forall x ensures multiset(sorted)[x] <= 1 {
      CountOfDistinct(order, x);
    }
    DistinctByCount(sorted);
    SizeOfDistinct(sorted);
    assert (set x | x in sorted) == table;
  }

  // ----- What selection yields -----

  /** Whatever the iteration order, selection yields a top committee ... */
  lemma SelectedIsTop(order: seq<NodeId>, table: set<NodeId>, score: NodeId -> nat)
    requires IsOrderOf(order, table)
    ensures IsTop(Selected(order, score), table, score)
  {
    var sorted := SortDesc(order, score);
    var kept := Keep(sorted);
    SortIsOrder(order, table, score);
    SortFacts(order, score);
    SizeOfDistinct(kept);
    forall a, b | a in Selected(order, score) && b in table - Selected(order, score)
      ensures score(a) >= score(b)
    {
      var i :| 0 <= i < |kept| && kept[i] == a;
      var j :| 0 <= j < |sorted| && sorted[j] == b;
      assert forall x :: x in kept ==> x != b;
      assert forall k :: 0 <= k < |kept| ==> sorted[k] == kept[k];
      assert sorted[i] == a;
    }
  }

  lemma {:induction false} InsertBefore(x: NodeId, a: seq<NodeId>, b: seq<NodeId>, score: NodeId -> nat)
    requires forall y :: y in b ==> score(x) >= score(y)
    ensures InsertDesc(x, a + b, score) == InsertDesc(x, a, score) + b
  {
    if a == [] {
      assert a + b == b;
    } else {
      assert (a + b)[1..] == a[1..] + b;
      InsertBefore(x, a[1..], b, score);
    }
  }

  /** A stable sort of two blocks already in order sorts each on its own. */
  lemma {:induction false} SortBlocks(a: seq<NodeId>, b: seq<NodeId>, score: NodeId -> nat)
    requires forall x, y :: x in a && y in b ==> score(x) >= score(y)
    ensures SortDesc(a + b, score) == SortDesc(a, score) + SortDesc(b, score)
  {
    if a == [] {
      assert a + b == b;
    } else {
      assert (a + b)[1..] == a[1..] + b;
      SortBlocks(a[1..], b, score);
      SortFacts(b, score);
      forall y | y in SortDesc(b, score) ensures score(a[0]) >= score(y) {
        assert y in multiset(SortDesc(b, score));
        assert y in b;
      }
      InsertBefore(a[0], SortDesc(a[1..], score), SortDesc(b, score), score);
    }
  }

  lemma {:induction false} OrderExists(s: set<NodeId>) returns (order: seq<NodeId>)
    ensures IsOrderOf(order, s) && |order| == |s|
    decreases |s|
  {
    if s == {} {
      order := [];
    } else {
      var x :| x in s;
      var rest := OrderExists(s - {x});
      order := [x] + rest;
    }
  }

  lemma OrderOfBoth(a: seq<NodeId>, b: seq<NodeId>, chosen: set<NodeId>, table: set<NodeId>)
    requires chosen <= table && IsOrderOf(a, chosen) && IsOrderOf(b, table - chosen)
    ensures IsOrderOf(a + b, table)
    ensures forall i, j :: 0 <= i < |a| && 0 <= j < |b| ==> a[i] in chosen && b[j] in table - chosen
  {
    var order := a + b;
    forall i, j | 0 <= i < j < |order| ensures order[i] != order[j] {
      assert i < |a| ==> order[i] in a;
      assert j >= |a| ==> order[j] in b;
    }
  }

  /** ... and every top committee is what some iteration order yields. */
  lemma EveryTopIsSelected(chosen: set<NodeId>, table: set<NodeId>, score: NodeId -> nat) returns (order: seq<NodeId>)
    requires IsTop(chosen, table, score)
    ensures IsOrderOf(order, table) && Selected(order, score) == chosen
  {
    hide SortDesc, IsOrderOf;
    var a := OrderExists(chosen);
    var b := OrderExists(table - chosen);
    order := a + b;
    OrderOfBoth(a, b, chosen, table);
    assert |table| == |chosen| + |table - chosen| by { assert table == chosen + (table - chosen); }
    SortBlocks(a, b, score);
    SortIsOrder(a, chosen, score);
    SortIsOrder(b, table - chosen, score);
    assert Keep(SortDesc(order, score)) == SortDesc(a, score);
  }

  ghost predicate TieAcrossCut(chosen: set<NodeId>, table: set<NodeId>, score: NodeId -> nat) {
    exists a, b :: a in chosen && b in table - chosen && score(a) == score(b)
  }

  /** The outcome does not depend on the iteration order exactly when no member
      ties with a node left out. */
  lemma UniqueIffNoTie(chosen: set<NodeId>, table: set<NodeId>, score: NodeId -> nat)
    requires IsTop(chosen, table, score)
    ensures (forall order :: IsOrderOf(order, table) ==> Selected(order, score) == chosen)
        <==> !TieAcrossCut(chosen, table, score)
  {
    if TieAcrossCut(chosen, table, score) {
      var a, b :| a in chosen && b in table - chosen && score(a) == score(b);
      var other := chosen - {a} + {b};
      var order := EveryTopIsSelected(other, table, score);
      assert Selected(order, score) != chosen;
    } else {
      forall order | IsOrderOf(order, table) ensures Selected(order, score) == chosen {
        SelectedIsTop(order, table, score);
        TopsDifferByTies(chosen, Selected(order, score), table, score);
      }
    }
  }

  lemma EqualSizes(c: set<NodeId>, d: set<NodeId>)
    requires c <= d && |c| == |d|
    ensures c == d
  {
    assert d == c + (d - c);
  }

  lemma TopsDifferByTies(c: set<NodeId>, d: set<NodeId>, table: set<NodeId>, score: NodeId -> nat)
    requires IsTop(c, table, score) && IsTop(d, table, score) && !TieAcrossCut(c, table, score)
    ensures c == d
  {
    if c <= d {
      EqualSizes(c, d);
    } else if d <= c {
      EqualSizes(d, c);
    } else {
      SwappedMembersTie(c, d, table, score);
    }
  }

  lemma SwappedMembersTie(c: set<NodeId>, d: set<NodeId>, table: set<NodeId>, score: NodeId -> nat)
    requires IsTop(c, table, score) && IsTop(d, table, score) && !(c <= d) && !(d <= c)
    ensures TieAcrossCut(c, table, score)
  {
    var a :| a in c && a !in d;
    var b :| b in d && b !in c;
    assert score(a) >= score(b) && score(b) >= score(a);
  }

  // ----- Hash and reputation -----

  /** Nobody left out has a higher hash times reputation, in 64 wrapping bits, than
      somebody seated. */
  ghost predicate NoneOutscored(chosen: set<NodeId>, hash: NodeHash, seed: Seed, reputation: map<NodeId, nat>)
    requires chosen <= reputation.Keys
  {
    forall a, b :: a in chosen && b in reputation && b !in chosen ==>
      (hash(seed, a) * reputation[a]) % 0x1_0000_0000_0000_0000
        >= (hash(seed, b) * reputation[b]) % 0x1_0000_0000_0000_0000
  }

  /** A top committee in plain terms: 21 members, or all nodes if there are fewer,
      none of lower hash times reputation, in 64 wrapping bits, than a node left out. */
  lemma TopByHashAndReputation(chosen: set<NodeId>, hash: NodeHash, seed: Seed, reputation: map<NodeId, nat>)
    requires IsTop(chosen, reputation.Keys, Score(hash, seed, reputation))
    ensures chosen <= reputation.Keys && |chosen| == Min(|reputation|, 21)
    ensures NoneOutscored(chosen, hash, seed, reputation)
  {
    var score := Score(hash, seed, reputation);
    assert |reputation| == |reputation.Keys|;
    forall a, b | a in chosen && b in reputation && b !in chosen
      ensures (hash(seed, a) * reputation[a]) % 0x1_0000_0000_0000_0000
                >= (hash(seed, b) * reputation[b]) % 0x1_0000_0000_0000_0000
    {
      assert b in reputation.Keys - chosen && score(a) >= score(b);
    }
  }

  /** Of two nodes with the same hash, the one with more reputation is never left
      out for the other, short of overflow and unless the hash is zero. */
  lemma ReputationCounts(chosen: set<NodeId>, hash: NodeHash, seed: Seed, reputation: map<NodeId, nat>, a: NodeId,
                         b: NodeId)
    requires IsTop(chosen, reputation.Keys, Score(hash, seed, reputation)) && a in reputation && b in reputation
    requires hash(seed, a) == hash(seed, b) > 0 && reputation[a] > reputation[b]
    requires hash(seed, a) * reputation[a] < 0x1_0000_0000_0000_0000
    ensures b in chosen ==> a in chosen
  {
    hide IsTop, Score;
    TopByHashAndReputation(chosen, hash, seed, reputation);
    Larger(hash(seed, a), reputation[b], reputation[a]);
    SmallMod(hash(seed, b) * reputation[b]);
    SmallMod(hash(seed, a) * reputation[a]);
  }

  lemma Larger(h: nat, few: nat, many: nat)
    requires h > 0 && few < many
    ensures h * few < h * many
  {
  }

  lemma SmallMod(n: nat)
    requires n < 0x1_0000_0000_0000_0000
    ensures n % 0x1_0000_0000_0000_0000 == n
  {
  }

  /** And of two with the same reputation the one of the greater hash goes first. */
  lemma HashCounts(chosen: set<NodeId>, hash: NodeHash, seed: Seed, reputation: map<NodeId, nat>, a: NodeId, b: NodeId)
    requires IsTop(chosen, reputation.Keys, Score(hash, seed, reputation)) && a in reputation && b in reputation
    requires hash(seed, a) > hash(seed, b) && reputation[a] == reputation[b] > 0
    requires hash(seed, a) * reputation[a] < 0x1_0000_0000_0000_0000
    ensures b in chosen ==> a in chosen
  {
    hide IsTop, Score;
    TopByHashAndReputation(chosen, hash, seed, reputation);
    Larger(reputation[a], hash(seed, b), hash(seed, a));
    SmallMod(hash(seed, b) * reputation[b]);
    SmallMod(hash(seed, a) * reputation[a]);
  }

  // ----- Epochs -----

  /** A new epoch: transactions whose clock ran out are dropped, and a top
      committee of the reputation table takes over. */
  ghost predicate Rotated(hash: NodeHash, m: Manager, timedOut: set<TxHash>, m': Manager) {
    && m' == m.(states := m.states - timedOut, epoch := m.epoch + 1, committee := m'.committee)
    && IsTop(m'.committee, m.reputation.Keys,
             Score(hash, Seed(m.lastFinalizedHash, m.epoch + 1), m.reputation))
  }

  lemma RotatedBy(hash: NodeHash, m: Manager, timedOut: set<TxHash>, m': Manager)
    requires m' == m.(states := m.states - timedOut, epoch := m.epoch + 1, committee := m'.committee)
    requires IsTop(m'.committee, m.reputation.Keys, Score(hash, Seed(m.lastFinalizedHash, m.epoch + 1), m.reputation))
    ensures Rotated(hash, m, timedOut, m')
  {
  }
}
