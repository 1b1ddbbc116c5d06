/** What replicas hold after any delivery of operations, and when two replicas
    that have been delivered the same operations agree. */
module CrdtConvergence {
  import opened Wrappers
  import opened Strings
  import opened Crdt

  /** The same operations, in any order and with any repetition. */
  ghost predicate SameOperations(p: seq<Operation>, q: seq<Operation>) {
    forall op :: op in p <==> op in q
  }

  // ----- Last writer wins -----

  function LwwRun(ops: seq<Operation>): LwwMap {
    if ops == [] then map[] else LwwApply(LwwRun(ops[..|ops| - 1]), ops[|ops| - 1])
  }

  predicate Beats(a: Operation, b: Operation) { Newer(a.timestamp, a.author, b.timestamp, b.author) }

  /** The first operation delivered among those of key `k` that none beats. */
  ghost predicate IsFirstMaximal(ops: seq<Operation>, k: string, i: nat) {
    && i < |ops| && ops[i].key == k
    && (forall j :: 0 <= j < |ops| && ops[j].key == k ==> !Beats(ops[j], ops[i]))
    && (forall j :: 0 <= j < i && ops[j].key == k ==> Beats(ops[i], ops[j]))
  }

  /** Beating the maximum is beating everything. */
  lemma BeatsFollows(a: Operation, b: Operation, c: Operation)
    requires Beats(a, b) && !Beats(c, b)
    ensures Beats(a, c) && !Beats(c, a)
  {
    LessTotal(b.author, c.author);
    if Less(b.author, a.author) && Less(c.author, b.author) { LessTransitive(c.author, b.author, a.author); }
    if Less(a.author, c.author) && Less(c.author, a.author) { LessTransitive(a.author, c.author, a.author); }
    LessIrreflexive(a.author);
    if Less(a.author, c.author) && Less(b.author, a.author) { LessTransitive(b.author, a.author, c.author); }
  }

  lemma OneMore(before: seq<Operation>, k: string, i: nat, op: Operation)
    requires IsFirstMaximal(before, k, i)
    ensures IsFirstMaximal(before + [op], k, if op.key == k && Beats(op, before[i]) then |before| else i)
  {
    hide Beats;
    if op.key == k && Beats(op, before[i]) {
      forall j | 0 <= j < |before| && before[j].key == k ensures Beats(op, before[j]) && !Beats(before[j], op) {
        BeatsFollows(op, before[i], before[j]);
      }
      BeatsIrreflexive(op);
    }
  }

  lemma BeatsIrreflexive(a: Operation)
    ensures !Beats(a, a)
  {
    LessIrreflexive(a.author);
  }

  lemma {:induction false} LwwHoldsOne(ops: seq<Operation>, k: string) returns (i: nat)
    requires k in LwwRun(ops)
    ensures IsFirstMaximal(ops, k, i) && LwwRun(ops)[k] == EntryOf(ops[i])
  {
    hide Beats, IsFirstMaximal;
    var n := |ops| - 1;
    var before, op := ops[..n], ops[n];
    assert ops == before + [op];
    if k in LwwRun(before) {
      i := LwwHoldsOne(before, k);
      FirstMaximalIsIn(before, k, i);
      BeatsAsApplied(LwwRun(before), op, before[i], k);
      OneMore(before, k, i, op);
      i := if op.key == k && Beats(op, before[i]) then n else i;
    } else {
      i := n;
      FirstWrite(before, k, op);
    }
  }

  lemma FirstMaximalIsIn(ops: seq<Operation>, k: string, i: nat)
    requires IsFirstMaximal(ops, k, i)
    ensures i < |ops| && ops[i].key == k
  {
  }

  lemma FirstWrite(before: seq<Operation>, k: string, op: Operation)
    requires k !in LwwRun(before) && op.key == k
    ensures IsFirstMaximal(before + [op], k, |before|)
  {
    hide Beats;
    NoneBefore(before, k);
    BeatsIrreflexive(op);
  }

  lemma BeatsAsApplied(m: LwwMap, op: Operation, held: Operation, k: string)
    requires k in m && m[k] == EntryOf(held)
    ensures k in LwwApply(m, op)
    ensures LwwApply(m, op)[k] == if op.key == k && Beats(op, held) then EntryOf(op) else m[k]
  {
  }

  lemma {:induction false} NoneBefore(ops: seq<Operation>, k: string)
    ensures k in LwwRun(ops) <==> exists i :: 0 <= i < |ops| && ops[i].key == k
  {
    if ops != [] {
      var n := |ops| - 1;
      NoneBefore(ops[..n], k);
      if k in LwwRun(ops[..n]) {
        var i :| 0 <= i < n && ops[..n][i].key == k;
        assert ops[i].key == k;
      }
      if ops[n].key != k && k !in LwwRun(ops[..n]) {
        forall i | 0 <= i < |ops| ensures ops[i].key != k { assert i < n ==> ops[i] == ops[..n][i]; }
      }
    }
  }

  lemma OneFirstMaximal(ops: seq<Operation>, k: string, i: nat, j: nat)
    requires IsFirstMaximal(ops, k, i) && IsFirstMaximal(ops, k, j)
    ensures i == j
  {
    hide Beats;
  }

  /** After any deliveries a key is held exactly if it was ever written, and what
      it holds is the first-delivered of the operations that no other beats. */
  lemma LwwHolds(ops: seq<Operation>, k: string)
    ensures k in LwwRun(ops) <==> exists i :: 0 <= i < |ops| && ops[i].key == k
    ensures k in LwwRun(ops) <==> exists i: nat :: IsFirstMaximal(ops, k, i)
    ensures forall i: nat :: IsFirstMaximal(ops, k, i) ==>
              var held := LwwRun(ops)[k];
              && held.value == ops[i].value && held.timestamp == ops[i].timestamp && held.author == ops[i].author
              && held.isDeleted == (ops[i].operation == "delete")
    ensures k in LwwRun(ops) ==>
              var held := LwwRun(ops)[k];
              forall j :: 0 <= j < |ops| && ops[j].key == k ==>
                ops[j].timestamp < held.timestamp
                || (ops[j].timestamp == held.timestamp && !Less(held.author, ops[j].author))
  {
    hide LwwRun;
    NoneBefore(ops, k);
    if k in LwwRun(ops) {
      var i := LwwHoldsOne(ops, k);
      forall j: nat | IsFirstMaximal(ops, k, j) ensures j == i { OneFirstMaximal(ops, k, i, j); }
    }
  }

  /** The stamp that a key holds never goes back. */
  lemma StampNeverDecreases(m: LwwMap, op: Operation, k: string)
    requires k in m
    ensures k in LwwApply(m, op)
    ensures var was, now := m[k], LwwApply(m, op)[k];
            now == was || was.timestamp < now.timestamp
            || (was.timestamp == now.timestamp && Less(was.author, now.author))
  {
  }

  ghost predicate IsMaximal(ops: seq<Operation>, op: Operation) {
    op in ops && forall other :: other in ops && other.key == op.key ==> !Beats(other, op)
  }

  /** Among the operations of a key that none beats, all write the same entry. */
  ghost predicate Undisputed(ops: seq<Operation>) {
    forall a, b :: IsMaximal(ops, a) && IsMaximal(ops, b) && a.key == b.key ==> EntryOf(a) == EntryOf(b)
  }

  lemma LwwAgreeOnKey(p: seq<Operation>, q: seq<Operation>, k: string)
    requires SameOperations(p, q) && Undisputed(q) && k in LwwRun(p)
    ensures k in LwwRun(q) && LwwRun(p)[k] == LwwRun(q)[k]
  {
    hide Beats, LwwRun;
    var i := LwwHoldsOne(p, k);
    assert p[i] in q;
    var at :| 0 <= at < |q| && q[at] == p[i];
    NoneBefore(q, k);
    var j := LwwHoldsOne(q, k);
    MaximalSomewhere(p, k, i);
    MaximalSomewhere(q, k, j);
    assert IsMaximal(q, p[i]);
  }

  lemma MaximalSomewhere(ops: seq<Operation>, k: string, i: nat)
    requires IsFirstMaximal(ops, k, i)
    ensures IsMaximal(ops, ops[i])
  {
    hide Beats;
    forall other | other in ops && other.key == k ensures !Beats(other, ops[i]) {
      var j :| 0 <= j < |ops| && ops[j] == other;
    }
  }

  lemma FirstHolds(ops: seq<Operation>, a: Operation)
    requires IsMaximal(ops, a)
    ensures a.key in LwwRun([a] + ops) && LwwRun([a] + ops)[a.key] == EntryOf(a)
  {
    hide Beats, LwwRun;
    var p := [a] + ops;
    BeatsIrreflexive(a);
    forall j | 0 <= j < |p| && p[j].key == a.key ensures !Beats(p[j], a) {
      assert j > 0 ==> p[j] == ops[j - 1] && ops[j - 1] in ops;
    }
    assert IsFirstMaximal(p, a.key, 0);
    LwwHolds(p, a.key);
  }

  /** Replicas that are delivered the same operations agree, for every order and
      any repetition, exactly if no key has two different greatest writes. */
  lemma LwwConvergesIff(ops: seq<Operation>)
    ensures (forall p :: SameOperations(p, ops) ==> LwwRun(p) == LwwRun(ops)) <==> Undisputed(ops)
  {
    hide Beats, LwwRun, IsMaximal;
    if Undisputed(ops) {
      forall p | SameOperations(p, ops) ensures LwwRun(p) == LwwRun(ops) {
        SameUndisputed(p, ops);
        forall k | k in LwwRun(p)
          ensures k in LwwRun(ops) && LwwRun(p)[k] == LwwRun(ops)[k]
        {
          LwwAgreeOnKey(p, ops, k);
        }
        forall k | k in LwwRun(ops) ensures k in LwwRun(p) { LwwAgreeOnKey(ops, p, k); }
      }
    }
    if forall p :: SameOperations(p, ops) ==> LwwRun(p) == LwwRun(ops) {
      forall a, b | IsMaximal(ops, a) && IsMaximal(ops, b) && a.key == b.key ensures EntryOf(a) == EntryOf(b) {
        FirstHolds(ops, a);
        FirstHolds(ops, b);
        MaximalIsIn(ops, a);
        MaximalIsIn(ops, b);
        assert SameOperations([a] + ops, ops) && SameOperations([b] + ops, ops);
      }
    }
  }

  lemma MaximalIsIn(ops: seq<Operation>, a: Operation)
    requires IsMaximal(ops, a)
    ensures a in ops
  {
  }

  lemma SameUndisputed(p: seq<Operation>, q: seq<Operation>)
    requires SameOperations(p, q) && Undisputed(q)
    ensures Undisputed(p)
  {
    hide Beats;
    forall a, b | IsMaximal(p, a) && IsMaximal(p, b) && a.key == b.key ensures EntryOf(a) == EntryOf(b) {
      assert IsMaximal(q, a) && IsMaximal(q, b);
    }
  }

  // ----- Add wins -----

  function OrSetRun(ops: seq<Operation>): OrSet {
    if ops == [] then map[] else OrSetApply(OrSetRun(ops[..|ops| - 1]), ops[|ops| - 1])
  }

  predicate Holds(s: OrSet, v: string, t: string) { v in s && t in s[v] }

  predicate Adds(op: Operation, v: string, t: string) { IsAdd(op) && op.value == v && TagOf(op) == t }

  predicate Removes(op: Operation, v: string, t: string) {
    !IsAdd(op) && IsRemove(op) && op.value == v && t in op.removeTags
  }

  /** Operation `i` adds the pair and nothing after it removes or adds it. */
  ghost predicate LastTouchAdds(ops: seq<Operation>, v: string, t: string, i: nat) {
    && i < |ops| && Adds(ops[i], v, t)
    && forall j :: i < j < |ops| ==> !Removes(ops[j], v, t) && !Adds(ops[j], v, t)
  }

  /** One operation and one pair. */
  lemma TouchOne(s: OrSet, op: Operation, v: string, t: string)
    ensures Holds(OrSetApply(s, op), v, t) <==> Adds(op, v, t) || (Holds(s, v, t) && !Removes(op, v, t))
    ensures Adds(op, v, t) ==> OrSetApply(s, op)[v][t] == AwEntry(op.author, op.timestamp)
    ensures Holds(OrSetApply(s, op), v, t) && !Adds(op, v, t) ==> OrSetApply(s, op)[v][t] == s[v][t]
  {
    hide TagOf;
    if !IsAdd(op) && IsRemove(op) && op.value == v && v in s {
      var left := s[v] - set x | x in op.removeTags;
      assert t in left <==> t in s[v] && !Removes(op, v, t);
      assert left == map[] ==> t !in left;
    }
  }

  /** After any deliveries a value is held under a tag exactly if the last
      operation that touched the two was an add, and with that add's entry; and no
      value is held without a tag. */
  lemma {:induction false} OrSetHolds(ops: seq<Operation>, v: string, t: string)
    ensures Holds(OrSetRun(ops), v, t) <==> exists i: nat :: LastTouchAdds(ops, v, t, i)
    ensures forall i: nat :: LastTouchAdds(ops, v, t, i) ==>
              OrSetRun(ops)[v][t] == AwEntry(ops[i].author, ops[i].timestamp)
    ensures NoEmptyTags(OrSetRun(ops))
  {
    hide OrSetApply, Adds, Removes, NoEmptyTags;
    if ops == [] {
      assert NoEmptyTags(map[]) by { EmptyHasNone(); }
    } else {
      var n := |ops| - 1;
      OrSetHolds(ops[..n], v, t);
      TouchOne(OrSetRun(ops[..n]), ops[n], v, t);
      OrSetApplyKeepsTags(OrSetRun(ops[..n]), ops[n]);
      LastTouchExtends(ops, v, t);
    }
  }

  lemma EmptyHasNone()
    ensures NoEmptyTags(map[])
  {
  }

  lemma LastTouchExtends(ops: seq<Operation>, v: string, t: string)
    requires ops != []
    ensures forall i: nat :: LastTouchAdds(ops, v, t, i) <==>
              if i == |ops| - 1
              then Adds(ops[i], v, t)
              else LastTouchAdds(ops[..|ops| - 1], v, t, i) && !Removes(ops[|ops| - 1], v, t)
                   && !Adds(ops[|ops| - 1], v, t)
  {
    hide Adds, Removes;
  }

  ghost predicate Added(ops: seq<Operation>, v: string, t: string) { exists op :: op in ops && Adds(op, v, t) }

  ghost predicate Removed(ops: seq<Operation>, v: string, t: string) { exists op :: op in ops && Removes(op, v, t) }

  /** A remove follows every add of the pairs that it lists. */
  ghost predicate RemovesComeLast(ops: seq<Operation>) {
    forall v, t, i, j :: 0 <= i < |ops| && 0 <= j < |ops| && Removes(ops[i], v, t) && Adds(ops[j], v, t) ==> j < i
  }

  lemma LastAdd(ops: seq<Operation>, v: string, t: string) returns (i: nat)
    requires Added(ops, v, t)
    ensures i < |ops| && Adds(ops[i], v, t) && forall j :: i < j < |ops| ==> !Adds(ops[j], v, t)
  {
    hide Adds;
    var n := |ops| - 1;
    if Adds(ops[n], v, t) {
      i := n;
    } else {
      var op :| op in ops && Adds(op, v, t);
      assert op in ops[..n];
      i := LastAdd(ops[..n], v, t);
      assert ops[..n][i] == ops[i];
      forall j | i < j < |ops| ensures !Adds(ops[j], v, t) { assert j < n ==> ops[j] == ops[..n][j]; }
    }
  }

  /** The set holds the pairs added and not removed exactly if each pair that was
      both added and removed was removed again after its last add. */
  lemma OrSetIsAddedMinusRemovedIff(ops: seq<Operation>)
    ensures (forall v, t :: Holds(OrSetRun(ops), v, t) <==> Added(ops, v, t) && !Removed(ops, v, t))
        <==> (forall v, t :: Added(ops, v, t) && Removed(ops, v, t) ==> RemovedAfterAdds(ops, v, t))
  {
    hide OrSetRun, Adds, Removes, Holds;
    forall v, t
      ensures Holds(OrSetRun(ops), v, t) <==> Added(ops, v, t) && (Removed(ops, v, t) ==> !RemovedAfterAdds(ops, v, t))
    {
      HeldUnlessRemovedLast(ops, v, t);
    }
  }

  ghost predicate RemovedAfterAdds(ops: seq<Operation>, v: string, t: string) {
    exists i :: 0 <= i < |ops| && Removes(ops[i], v, t) && forall j :: i < j < |ops| ==> !Adds(ops[j], v, t)
  }

  lemma HeldUnlessRemovedLast(ops: seq<Operation>, v: string, t: string)
    ensures Holds(OrSetRun(ops), v, t) <==> Added(ops, v, t) && (Removed(ops, v, t) ==> !RemovedAfterAdds(ops, v, t))
  {
    hide OrSetRun, Holds, TagOf;
    OrSetHolds(ops, v, t);
    if Added(ops, v, t) {
      var i := LastAdd(ops, v, t);
      NotBoth(ops[i], v, t);
      if Holds(OrSetRun(ops), v, t) {
        var k: nat :| LastTouchAdds(ops, v, t, k);
        assert k == i;
      } else {
        assert !LastTouchAdds(ops, v, t, i);
        var j :| i < j < |ops| && Removes(ops[j], v, t);
        assert RemovedAfterAdds(ops, v, t) && ops[j] in ops;
      }
    } else {
      forall k: nat ensures !LastTouchAdds(ops, v, t, k) {
        assert k < |ops| ==> ops[k] in ops;
      }
    }
  }

  lemma NotBoth(op: Operation, v: string, t: string)
    ensures !(Adds(op, v, t) && Removes(op, v, t))
  {
  }

  lemma RemovesLastAreLast(ops: seq<Operation>, v: string, t: string)
    requires RemovesComeLast(ops) && Removed(ops, v, t)
    ensures RemovedAfterAdds(ops, v, t)
  {
    hide Adds, Removes;
    var op :| op in ops && Removes(op, v, t);
    var i :| 0 <= i < |ops| && ops[i] == op;
  }

  /** Adds under one tag are one add. */
  ghost predicate TagsIdentify(ops: seq<Operation>) {
    forall a, b :: a in ops && b in ops && IsAdd(a) && IsAdd(b) && a.value == b.value && TagOf(a) == TagOf(b) ==>
      AwEntry(a.author, a.timestamp) == AwEntry(b.author, b.timestamp)
  }

  /** Two replicas that are delivered the same operations, each with removes
      after the adds that they list, hold the same set, entries included. */
  lemma OrSetConverges(p: seq<Operation>, q: seq<Operation>)
    requires SameOperations(p, q) && RemovesComeLast(p) && RemovesComeLast(q) && TagsIdentify(p)
    ensures OrSetRun(p) == OrSetRun(q)
  {
    hide OrSetRun, Holds, Removes, Adds, NoEmptyTags, RemovesComeLast;
    forall v, t ensures Holds(OrSetRun(p), v, t) <==> Holds(OrSetRun(q), v, t)
                ensures Holds(OrSetRun(p), v, t) ==> EntryAt(OrSetRun(p), v, t) == EntryAt(OrSetRun(q), v, t)
    {
      SamePair(p, q, v, t);
    }
    OrSetHolds(p, "", "");
    OrSetHolds(q, "", "");
    SameSets(OrSetRun(p), OrSetRun(q));
  }

  function EntryAt(s: OrSet, v: string, t: string): Option<AwEntry> {
    if Holds(s, v, t) then Some(s[v][t]) else None
  }

  lemma SamePair(p: seq<Operation>, q: seq<Operation>, v: string, t: string)
    requires SameOperations(p, q) && RemovesComeLast(p) && RemovesComeLast(q) && TagsIdentify(p)
    ensures EntryAt(OrSetRun(p), v, t) == EntryAt(OrSetRun(q), v, t)
  {
    hide OrSetRun, Removes, NoEmptyTags, RemovesComeLast, TagOf;
    HeldUnlessRemovedLast(p, v, t);
    HeldUnlessRemovedLast(q, v, t);
    if Removed(p, v, t) {
      RemovesLastAreLast(p, v, t);
      RemovesLastAreLast(q, v, t);
    }
    OrSetHolds(p, v, t);
    OrSetHolds(q, v, t);
    if Holds(OrSetRun(p), v, t) {
      var i: nat :| LastTouchAdds(p, v, t, i);
      var j: nat :| LastTouchAdds(q, v, t, j);
      assert p[i] in p && q[j] in q;
    }
  }

  lemma SameSets(a: OrSet, b: OrSet)
    requires NoEmptyTags(a) && NoEmptyTags(b) && forall v, t :: EntryAt(a, v, t) == EntryAt(b, v, t)
    ensures a == b
  {
    forall v ensures v in a <==> v in b {
      if v in a { var t :| t in a[v]; assert EntryAt(a, v, t) == EntryAt(b, v, t); }
      if v in b { var t :| t in b[v]; assert EntryAt(a, v, t) == EntryAt(b, v, t); }
    }
    forall v | v in a ensures a[v] == b[v] {
      forall t ensures (t in a[v] <==> t in b[v]) && (t in a[v] ==> a[v][t] == b[v][t]) {
        assert EntryAt(a, v, t) == EntryAt(b, v, t);
      }
    }
  }

  lemma {:induction false} BeforeSeparator(a: string, b: string)
    requires '_' !in a
    ensures Before(a + "_" + b, '_') == a
  {
    if a != "" {
      assert (a + "_" + b)[1..] == a[1..] + "_" + b;
      BeforeSeparator(a[1..], b);
    } else {
      assert a + "_" + b == "_" + b;
    }
  }

  /** The tags that the store makes up name their operation's time and author. */
  lemma DefaultTagsIdentify(ops: seq<Operation>)
    requires forall op :: op in ops && IsAdd(op) ==> op.vectorTag == None
    ensures TagsIdentify(ops)
  {
    forall a, b | a in ops && b in ops && IsAdd(a) && IsAdd(b) && TagOf(a) == TagOf(b)
      ensures AwEntry(a.author, a.timestamp) == AwEntry(b.author, b.timestamp)
    {
      DigitsOnly(a.timestamp, '_');
      DigitsOnly(b.timestamp, '_');
      BeforeSeparator(Decimal(a.timestamp), a.author);
      BeforeSeparator(Decimal(b.timestamp), b.author);
      assert Decimal(a.timestamp) == Decimal(b.timestamp);
      DecimalInjective(a.timestamp, b.timestamp);
      assert TagOf(a)[|Decimal(a.timestamp)| + 1..] == a.author;
      assert TagOf(b)[|Decimal(b.timestamp)| + 1..] == b.author;
    }
  }

  ghost predicate SamePairs(a: OrSet, b: OrSet) { forall v, t :: Holds(a, v, t) <==> Holds(b, v, t) }

  /** With no order promised at all, replicas of a set agree exactly if no pair
      is both added and removed. */
  lemma OrSetUnorderedIff(ops: seq<Operation>)
    ensures (forall p :: SameOperations(p, ops) ==> SamePairs(OrSetRun(p), OrSetRun(ops)))
        <==> (forall v, t :: !(Added(ops, v, t) && Removed(ops, v, t)))
  {
    hide OrSetRun, Holds, Removes, Adds;
    if forall v, t :: !(Added(ops, v, t) && Removed(ops, v, t)) {
      forall p | SameOperations(p, ops) ensures SamePairs(OrSetRun(p), OrSetRun(ops)) {
        forall v, t ensures Holds(OrSetRun(p), v, t) <==> Holds(OrSetRun(ops), v, t) {
          HeldUnlessRemovedLast(p, v, t);
          HeldUnlessRemovedLast(ops, v, t);
        }
      }
    } else {
      var v, t :| Added(ops, v, t) && Removed(ops, v, t);
      var add :| add in ops && Adds(add, v, t);
      var remove :| remove in ops && Removes(remove, v, t);
      assert SameOperations(ops + [add], ops) && SameOperations(ops + [remove], ops);
      EndsWith(ops, add, v, t);
      EndsWith(ops, remove, v, t);
      var p := if Holds(OrSetRun(ops), v, t) then ops + [remove] else ops + [add];
      assert SameOperations(p, ops) && Holds(OrSetRun(p), v, t) != Holds(OrSetRun(ops), v, t);
      assert !SamePairs(OrSetRun(p), OrSetRun(ops));
    }
  }

  lemma EndsWith(ops: seq<Operation>, op: Operation, v: string, t: string)
    ensures Adds(op, v, t) ==> Holds(OrSetRun(ops + [op]), v, t)
    ensures Removes(op, v, t) ==> !Holds(OrSetRun(ops + [op]), v, t)
  {
    hide Adds, Removes, OrSetApply, Holds;
    assert (ops + [op])[..|ops|] == ops;
    TouchOne(OrSetRun(ops), op, v, t);
    assert !(Adds(op, v, t) && Removes(op, v, t)) by { NotBoth(op, v, t); }
  }

  // ----- Replicas -----

  function ProcessAll(verify: Verifier, ops: seq<Operation>): Store {
    if ops == [] then map[] else Process(verify, ProcessAll(verify, ops[..|ops| - 1]), ops[|ops| - 1])
  }

  /** The operations on an object that are let in, in order. */
  function LetIn(verify: Verifier, ops: seq<Operation>, o: string): (r: seq<Operation>)
    ensures forall op :: op in r <==> op in ops && op.objectId == o && Accepted(verify, op)
  {
    if ops == [] then []
    else
      var last := ops[|ops| - 1];
      assert forall op :: op in ops <==> op in ops[..|ops| - 1] || op == last;
      LetIn(verify, ops[..|ops| - 1], o) + if last.objectId == o && Accepted(verify, last) then [last] else []
  }

  lemma {:induction false} StoreRunsTheObject(verify: Verifier, ops: seq<Operation>, o: string)
    ensures (forall op :: op in LetIn(verify, ops, o) ==> op.crdtType != "AwOrSet") ==>
              LwwAt(ProcessAll(verify, ops), o) == LwwRun(LetIn(verify, ops, o))
    ensures (forall op :: op in LetIn(verify, ops, o) ==> op.crdtType == "AwOrSet") ==>
              OrSetAt(ProcessAll(verify, ops), o) == OrSetRun(LetIn(verify, ops, o))
    ensures StoreSound(ProcessAll(verify, ops))
  {
    hide Process, LwwAt, OrSetAt, LwwApply, OrSetApply, StoreSound, Accepted;
    if ops == [] {
      NothingStored(o);
    } else {
      var n := |ops| - 1;
      StoreRunsTheObject(verify, ops[..n], o);
      OneMoreStored(verify, ProcessAll(verify, ops[..n]), ops[n], o, LetIn(verify, ops[..n], o));
    }
  }

  lemma OneMoreStored(verify: Verifier, db: Store, op: Operation, o: string, r: seq<Operation>)
    requires StoreSound(db)
    ensures var r' := r + if op.objectId == o && Accepted(verify, op) then [op] else [];
            && StoreSound(Process(verify, db, op))
            && (LwwAt(db, o) == LwwRun(r) && (op in r' ==> op.crdtType != "AwOrSet") ==>
                 LwwAt(Process(verify, db, op), o) == LwwRun(r'))
            && (OrSetAt(db, o) == OrSetRun(r) && (op in r' ==> op.crdtType == "AwOrSet") ==>
                 OrSetAt(Process(verify, db, op), o) == OrSetRun(r'))
  {
    hide Process, Accepted, LwwApply, OrSetApply, LwwAt, OrSetAt, StoreSound, Updates;
    ProcessReaches(verify, db, op, o);
    ProcessKeepsSound(verify, db, op);
    assert (r + [op])[..|r|] == r && r + [] == r;
  }

  lemma NothingStored(o: string)
    ensures LwwAt(map[], o) == map[] && OrSetAt(map[], o) == map[] && StoreSound(map[])
  {
  }

  /** Two stores that are given the same operations, good and bad, in whatever
      order and however often: they agree on an object that is used as a map and
      undisputed, and on one that is used as a set and hears of adds first. */
  lemma ReplicasConverge(verify: Verifier, p: seq<Operation>, q: seq<Operation>, o: string)
    requires SameOperations(p, q)
    ensures (forall op :: op in LetIn(verify, p, o) ==> op.crdtType != "AwOrSet") && Undisputed(LetIn(verify, p, o)) ==>
              LwwAt(ProcessAll(verify, p), o) == LwwAt(ProcessAll(verify, q), o)
    ensures (forall op :: op in LetIn(verify, p, o) ==> op.crdtType == "AwOrSet") && TagsIdentify(LetIn(verify, p, o))
            && RemovesComeLast(LetIn(verify, p, o)) && RemovesComeLast(LetIn(verify, q, o)) ==>
              OrSetAt(ProcessAll(verify, p), o) == OrSetAt(ProcessAll(verify, q), o)
  {
    hide ProcessAll, LetIn, LwwAt, OrSetAt, LwwRun, OrSetRun, Undisputed, TagsIdentify, RemovesComeLast, StoreSound;
    StoreRunsTheObject(verify, p, o);
    StoreRunsTheObject(verify, q, o);
    var p1, q1 := LetIn(verify, p, o), LetIn(verify, q, o);
    assert SameOperations(p1, q1) && SameOperations(q1, p1);
    if Undisputed(p1) { LwwConvergesIff(p1); }
    if TagsIdentify(p1) && RemovesComeLast(p1) && RemovesComeLast(q1) { OrSetConverges(p1, q1); }
  }

}
