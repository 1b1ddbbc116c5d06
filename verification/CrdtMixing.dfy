/** One object used as both types: what a change of one type leaves of the other,
    and when nothing is lost by it. */
module CrdtMixing {
  import opened Wrappers
  import opened Crdt
  import opened CrdtConvergence

  predicate IsSetOp(op: Operation) { op.crdtType == "AwOrSet" }

  /** The operations of one type that are let in to an object, in order. */
  function OfType(verify: Verifier, ops: seq<Operation>, o: string, sets: bool): seq<Operation> {
    if ops == [] then []
    else
      var op := ops[|ops| - 1];
      OfType(verify, ops[..|ops| - 1], o, sets)
      + if op.objectId == o && Accepted(verify, op) && IsSetOp(op) == sets then [op] else []
  }

  /** Operation `i` changes the object as the one type, and so forgets what it held
      as the other. */
  predicate Changes(verify: Verifier, ops: seq<Operation>, o: string, sets: bool, i: nat)
    requires i < |ops|
  {
    && ops[i].objectId == o && Accepted(verify, ops[i]) && IsSetOp(ops[i]) == sets
    && Updates(ProcessAll(verify, ops[..i]), ops[i])
  }

  ghost predicate NoChange(verify: Verifier, ops: seq<Operation>, o: string, sets: bool, from: nat) {
    forall j :: from <= j < |ops| ==> !Changes(verify, ops, o, sets, j)
  }

  ghost predicate IsLastChange(verify: Verifier, ops: seq<Operation>, o: string, sets: bool, i: nat) {
    i < |ops| && Changes(verify, ops, o, sets, i) && NoChange(verify, ops, o, sets, i + 1)
  }

  // ----- The state since the last change of the other type -----

  lemma LastOperation(ops: seq<Operation>, from: nat)
    requires from < |ops|
    ensures ops[from..][..|ops| - from - 1] == ops[..|ops| - 1][from..]
              && ops[from..][|ops| - from - 1] == ops[|ops| - 1]
  {
  }

  lemma NoChangeBefore(verify: Verifier, ops: seq<Operation>, o: string, sets: bool, from: nat)
    requires ops != [] && NoChange(verify, ops, o, sets, from)
    ensures NoChange(verify, ops[..|ops| - 1], o, sets, from)
              && (from < |ops| ==> !Changes(verify, ops, o, sets, |ops| - 1))
  {
    hide Updates, Accepted, ProcessAll;
    var before := ops[..|ops| - 1];
    forall j | from <= j < |before| ensures !Changes(verify, before, o, sets, j) {
      assert !Changes(verify, ops, o, sets, j);
      assert before[..j] == ops[..j];
    }
  }

  /** With no change of the other type from `from` on. */
  lemma {:induction false} RunsSince(verify: Verifier, ops: seq<Operation>, o: string, from: nat, sets: bool)
    requires from <= |ops|
    requires NoChange(verify, ops, o, !sets, from)
    requires if sets then OrSetAt(ProcessAll(verify, ops[..from]), o) == map[]
               else LwwAt(ProcessAll(verify, ops[..from]), o) == map[]
    ensures if sets then OrSetAt(ProcessAll(verify, ops), o) == OrSetRun(OfType(verify, ops[from..], o, true))
            else LwwAt(ProcessAll(verify, ops), o) == LwwRun(OfType(verify, ops[from..], o, false))
    decreases |ops|
  {
    hide Process, Updates, Accepted, LwwAt, OrSetAt, LwwApply, OrSetApply, Changes, IsSetOp;
    if |ops| == from {
      assert ops[..from] == ops && ops[from..] == [];
    } else {
      var n := |ops| - 1;
      var before := ops[..n];
      NoChangeBefore(verify, ops, o, !sets, from);
      assert before[..from] == ops[..from];
      RunsSince(verify, before, o, from, sets);
      LastOperation(ops, from);
      OneMoreOfType(verify, ops, o, from, sets);
    }
  }

  lemma OneMoreOfType(verify: Verifier, ops: seq<Operation>, o: string, from: nat, sets: bool)
    requires from < |ops| && !Changes(verify, ops, o, !sets, |ops| - 1)
    requires var before, r := ops[..|ops| - 1], OfType(verify, ops[..|ops| - 1][from..], o, sets);
             if sets then OrSetAt(ProcessAll(verify, before), o) == OrSetRun(r)
                 else LwwAt(ProcessAll(verify, before), o) == LwwRun(r)
    ensures var r := OfType(verify, ops[from..], o, sets);
            if sets then OrSetAt(ProcessAll(verify, ops), o) == OrSetRun(r)
                else LwwAt(ProcessAll(verify, ops), o) == LwwRun(r)
  {
    hide Process, Updates, Accepted, LwwAt, OrSetAt, LwwRun, OrSetRun, OfType, ProcessAll, IsSetOp;
    var n := |ops| - 1;
    LastOperation(ops, from);
    var r := OfType(verify, ops[..n][from..], o, sets);
    LastStored(verify, ops);
    LastOfType(verify, ops[from..], o, sets);
    if sets {
      StoredSetOp(verify, ProcessAll(verify, ops[..n]), ops[n], o, r);
    } else {
      StoredMapOp(verify, ProcessAll(verify, ops[..n]), ops[n], o, r);
    }
  }

  lemma LastStored(verify: Verifier, ops: seq<Operation>)
    requires ops != []
    ensures ProcessAll(verify, ops) == Process(verify, ProcessAll(verify, ops[..|ops| - 1]), ops[|ops| - 1])
  {
  }

  lemma LastOfType(verify: Verifier, ops: seq<Operation>, o: string, sets: bool)
    requires ops != []
    ensures var op := ops[|ops| - 1];
            OfType(verify, ops, o, sets) ==
            OfType(verify, ops[..|ops| - 1], o, sets) +
                if op.objectId == o && Accepted(verify, op) && IsSetOp(op) == sets then [op] else []
  {
  }

  /** One operation on an object whose set is what `r` makes of it. */
  lemma StoredSetOp(verify: Verifier, db: Store, op: Operation, o: string, r: seq<Operation>)
    requires OrSetAt(db, o) == OrSetRun(r)
    requires !(op.objectId == o && Accepted(verify, op) && !IsSetOp(op) && Updates(db, op))
    ensures OrSetAt(Process(verify, db, op), o)
         == OrSetRun(r + if op.objectId == o && Accepted(verify, op) && IsSetOp(op) then [op] else [])
  {
    hide Process, Updates, Accepted, OrSetAt, OrSetApply, LwwAt, LwwApply;
    ProcessReaches(verify, db, op, o);
    assert (r + [op])[..|r|] == r && r + [] == r;
  }

  lemma StoredMapOp(verify: Verifier, db: Store, op: Operation, o: string, r: seq<Operation>)
    requires LwwAt(db, o) == LwwRun(r)
    requires !(op.objectId == o && Accepted(verify, op) && IsSetOp(op) && Updates(db, op))
    ensures LwwAt(Process(verify, db, op), o)
         == LwwRun(r + if op.objectId == o && Accepted(verify, op) && !IsSetOp(op) then [op] else [])
  {
    hide Process, Updates, Accepted, OrSetAt, OrSetApply, LwwAt, LwwApply;
    ProcessReaches(verify, db, op, o);
    assert (r + [op])[..|r|] == r && r + [] == r;
  }

  lemma SinceLastChange(verify: Verifier, ops: seq<Operation>, o: string, i: nat, sets: bool)
    requires IsLastChange(verify, ops, o, !sets, i)
    ensures if sets then OrSetAt(ProcessAll(verify, ops), o) == OrSetRun(OfType(verify, ops[i + 1..], o, true))
            else LwwAt(ProcessAll(verify, ops), o) == LwwRun(OfType(verify, ops[i + 1..], o, false))
  {
    hide Process, Updates, Accepted, LwwAt, OrSetAt, LwwApply, OrSetApply;
    assert ops[..i + 1][..i] == ops[..i];
    ProcessReaches(verify, ProcessAll(verify, ops[..i]), ops[i], o);
    RunsSince(verify, ops, o, i + 1, sets);
  }

  lemma {:induction false} OfTypeConcat(verify: Verifier, a: seq<Operation>, b: seq<Operation>, o: string, sets: bool)
    ensures OfType(verify, a + b, o, sets) == OfType(verify, a, o, sets) + OfType(verify, b, o, sets)
    decreases |b|
  {
    hide Accepted;
    if b == [] {
      assert a + b == a;
    } else {
      assert (a + b)[..|a + b| - 1] == a + b[..|b| - 1];
      OfTypeConcat(verify, a, b[..|b| - 1], o, sets);
    }
  }

  lemma AroundChange(verify: Verifier, ops: seq<Operation>, o: string, i: nat, sets: bool)
    requires i < |ops| && IsSetOp(ops[i]) != sets
    ensures OfType(verify, ops, o, sets) == OfType(verify, ops[..i], o, sets) + OfType(verify, ops[i + 1..], o, sets)
  {
    hide Accepted;
    assert ops == ops[..i + 1] + ops[i + 1..] && ops[..i + 1][..i] == ops[..i];
    OfTypeConcat(verify, ops[..i + 1], ops[i + 1..], o, sets);
  }

  // ----- The map -----

  /** Every key written before is written after, by an operation that beats the
      one held or writes the same. */
  ghost predicate Rewritten(before: seq<Operation>, after: seq<Operation>) {
    forall k, i: nat :: IsFirstMaximal(before, k, i) ==>
      exists j: nat :: IsFirstMaximal(after, k, j)
          && (Beats(after[j], before[i]) || EntryOf(after[j]) == EntryOf(before[i]))
  }

  lemma MaximalOfBoth(a: seq<Operation>, b: seq<Operation>, k: string, i: nat, j: nat)
    requires IsFirstMaximal(a, k, i) && IsFirstMaximal(b, k, j)
    ensures IsFirstMaximal(a + b, k, if Beats(b[j], a[i]) then |a| + j else i)
  {
    hide Beats;
    var all, at := a + b, if Beats(b[j], a[i]) then |a| + j else i;
    forall x | 0 <= x < |all| && all[x].key == k
      ensures !Beats(all[x], all[at]) && (x < at ==> Beats(all[at], all[x]))
    {
      if x < |a| {
        if Beats(b[j], a[i]) { BeatsFollows(b[j], a[i], a[x]); }
      } else {
        assert all[x] == b[x - |a|];
        if !Beats(b[j], a[i]) && Beats(b[x - |a|], a[i]) { BeatsFollows(b[x - |a|], a[i], b[j]); }
      }
    }
  }

  lemma MaximalOfFirst(a: seq<Operation>, b: seq<Operation>, k: string, i: nat)
    requires IsFirstMaximal(a, k, i) && forall j :: 0 <= j < |b| ==> b[j].key != k
    ensures IsFirstMaximal(a + b, k, i)
  {
    hide Beats;
  }

  lemma MaximalOfSecond(a: seq<Operation>, b: seq<Operation>, k: string, j: nat)
    requires IsFirstMaximal(b, k, j) && forall i :: 0 <= i < |a| ==> a[i].key != k
    ensures IsFirstMaximal(a + b, k, |a| + j)
  {
    hide Beats;
  }

  function EntryAtKey(m: LwwMap, k: string): (bool, LwwEntry) {
    if k in m then (true, m[k]) else (false, LwwEntry("", 0, "", false))
  }

  lemma RunAt(ops: seq<Operation>, k: string, i: nat)
    requires IsFirstMaximal(ops, k, i)
    ensures i < |ops| && EntryAtKey(LwwRun(ops), k) == (true, EntryOf(ops[i]))
  {
    hide LwwRun, Beats;
    LwwHolds(ops, k);
  }

  lemma RunWithout(ops: seq<Operation>, k: string)
    ensures k !in LwwRun(ops) <==> forall i :: 0 <= i < |ops| ==> ops[i].key != k
    ensures k in LwwRun(ops) ==> exists i: nat :: IsFirstMaximal(ops, k, i)
  {
    hide LwwRun, Beats, IsFirstMaximal;
    LwwHolds(ops, k);
  }

  /** A key that was not written before. */
  lemma KeyOnlyAfter(a: seq<Operation>, b: seq<Operation>, k: string)
    requires k !in LwwRun(a)
    ensures EntryAtKey(LwwRun(a + b), k) == EntryAtKey(LwwRun(b), k)
  {
    hide LwwRun, IsFirstMaximal;
    RunWithout(a, k);
    RunWithout(b, k);
    RunWithout(a + b, k);
    if k in LwwRun(b) {
      var j: nat :| IsFirstMaximal(b, k, j);
      MaximalOfSecond(a, b, k, j);
      RunAt(b, k, j);
      RunAt(a + b, k, |a| + j);
      assert (a + b)[|a| + j] == b[j];
    }
  }

  /** A key that was: what is held is lost unless it is written again. */
  lemma KeyBefore(a: seq<Operation>, b: seq<Operation>, k: string, i: nat)
    requires IsFirstMaximal(a, k, i)
    ensures k !in LwwRun(b) ==> EntryAtKey(LwwRun(a + b), k) != EntryAtKey(LwwRun(b), k)
    ensures forall j: nat :: IsFirstMaximal(b, k, j) ==>
              j < |b| && i < |a| && (EntryAtKey(LwwRun(a + b), k) == EntryAtKey(LwwRun(b), k) <==>
                  Beats(b[j], a[i]) || EntryOf(b[j]) == EntryOf(a[i]))
  {
    hide LwwRun, IsFirstMaximal, Beats;
    RunAt(a, k, i);
    RunWithout(b, k);
    if k !in LwwRun(b) {
      MaximalOfFirst(a, b, k, i);
      RunAt(a + b, k, i);
    }
    forall j: nat | IsFirstMaximal(b, k, j)
      ensures j < |b| && (EntryAtKey(LwwRun(a + b), k) == EntryAtKey(LwwRun(b), k) <==>
                Beats(b[j], a[i]) || EntryOf(b[j]) == EntryOf(a[i]))
    {
      RunAt(b, k, j);
      MaximalOfBoth(a, b, k, i, j);
      var at := if Beats(b[j], a[i]) then |a| + j else i;
      RunAt(a + b, k, at);
      assert (a + b)[at] == if Beats(b[j], a[i]) then b[j] else a[i];
    }
  }

  lemma DroppedIff(a: seq<Operation>, b: seq<Operation>)
    ensures LwwRun(b) == LwwRun(a + b) <==> Rewritten(a, b)
  {
    hide LwwRun, Beats;
    if LwwRun(b) == LwwRun(a + b) {
      forall k, i: nat | IsFirstMaximal(a, k, i)
        ensures exists j: nat :: IsFirstMaximal(b, k, j) && (Beats(b[j], a[i]) || EntryOf(b[j]) == EntryOf(a[i]))
      {
        KeyBefore(a, b, k, i);
        RunWithout(b, k);
        var j: nat :| IsFirstMaximal(b, k, j);
      }
    }
    if Rewritten(a, b) {
      forall k ensures EntryAtKey(LwwRun(a + b), k) == EntryAtKey(LwwRun(b), k) {
        if k in LwwRun(a) {
          RunWithout(a, k);
          var i: nat :| IsFirstMaximal(a, k, i);
          KeyBefore(a, b, k, i);
          var j: nat :| IsFirstMaximal(b, k, j) && (Beats(b[j], a[i]) || EntryOf(b[j]) == EntryOf(a[i]));
        } else {
          KeyOnlyAfter(a, b, k);
        }
      }
      SameMaps(LwwRun(b), LwwRun(a + b));
    }
  }

  lemma SameMaps(m: LwwMap, n: LwwMap)
    requires forall k :: EntryAtKey(m, k) == EntryAtKey(n, k)
    ensures m == n
  {
    forall k ensures k in m <==> k in n { assert EntryAtKey(m, k) == EntryAtKey(n, k); }
    forall k | k in m ensures m[k] == n[k] { assert EntryAtKey(m, k) == EntryAtKey(n, k); }
  }

  /** An object that has been changed as a set: its map is what its own operations
      make of it exactly if every key held before the last such change has been
      rewritten since, by something newer or the same. */
  lemma MapKeptIff(verify: Verifier, ops: seq<Operation>, o: string, i: nat)
    requires IsLastChange(verify, ops, o, true, i)
    ensures LwwAt(ProcessAll(verify, ops), o) == LwwRun(OfType(verify, ops, o, false))
        <==> Rewritten(OfType(verify, ops[..i], o, false), OfType(verify, ops[i + 1..], o, false))
  {
    hide LwwAt, LwwRun, Rewritten, Updates, Accepted, OfType, ProcessAll;
    SinceLastChange(verify, ops, o, i, false);
    AroundChange(verify, ops, o, i, false);
    DroppedIff(OfType(verify, ops[..i], o, false), OfType(verify, ops[i + 1..], o, false));
  }

  // ----- The set -----

  ghost predicate Touched(ops: seq<Operation>, v: string, t: string) {
    exists i :: 0 <= i < |ops| && (Adds(ops[i], v, t) || Removes(ops[i], v, t))
  }

  /** Every pair held before is touched after. */
  ghost predicate Retouched(before: seq<Operation>, after: seq<Operation>) {
    forall v, t, i: nat :: LastTouchAdds(before, v, t, i) ==> Touched(after, v, t)
  }

  lemma {:induction false} PairWithout(a: seq<Operation>, b: seq<Operation>, v: string, t: string)
    ensures EntryAt(OrSetRun(a + b), v, t) == if Touched(b, v, t) then EntryAt(OrSetRun(b), v, t)
              else EntryAt(OrSetRun(a), v, t)
    ensures !Touched(b, v, t) ==> EntryAt(OrSetRun(b), v, t) == None
    decreases |b|
  {
    hide Adds, Removes, OrSetApply, Holds;
    if b == [] {
      assert a + b == a;
      assert !Holds(map[], v, t) by { NothingHeld(v, t); }
    } else {
      var n := |b| - 1;
      assert (a + b)[..|a + b| - 1] == a + b[..n];
      PairWithout(a, b[..n], v, t);
      TouchOne(OrSetRun(a + b[..n]), b[n], v, t);
      TouchOne(OrSetRun(b[..n]), b[n], v, t);
      TouchedOneMore(b, v, t);
      assert !(Adds(b[n], v, t) && Removes(b[n], v, t)) by { NotBoth(b[n], v, t); }
    }
  }

  lemma NothingHeld(v: string, t: string)
    ensures !Holds(map[], v, t)
  {
  }

  lemma TouchedOneMore(b: seq<Operation>, v: string, t: string)
    requires b != []
    ensures Touched(b, v, t) <==> Touched(b[..|b| - 1], v, t) || Adds(b[|b| - 1], v, t) || Removes(b[|b| - 1], v, t)
  {
    hide Adds, Removes;
    if Touched(b, v, t) {
      var i :| 0 <= i < |b| && (Adds(b[i], v, t) || Removes(b[i], v, t));
      assert i < |b| - 1 ==> b[..|b| - 1][i] == b[i];
    }
    if Touched(b[..|b| - 1], v, t) {
      var i :| 0 <= i < |b| - 1 && (Adds(b[..|b| - 1][i], v, t) || Removes(b[..|b| - 1][i], v, t));
      assert b[i] == b[..|b| - 1][i];
    }
  }

  lemma SetDroppedIff(a: seq<Operation>, b: seq<Operation>)
    ensures OrSetRun(b) == OrSetRun(a + b) <==> Retouched(a, b)
  {
    hide OrSetRun, Touched, LastTouchAdds, NoEmptyTags, Holds;
    if OrSetRun(b) == OrSetRun(a + b) {
      forall v, t, i: nat | LastTouchAdds(a, v, t, i) ensures Touched(b, v, t) {
        PairWithout(a, b, v, t);
        OrSetHolds(a, v, t);
        assert EntryAt(OrSetRun(a), v, t) != None;
      }
    }
    if Retouched(a, b) {
      forall v, t ensures EntryAt(OrSetRun(b), v, t) == EntryAt(OrSetRun(a + b), v, t) {
        PairWithout(a, b, v, t);
        OrSetHolds(a, v, t);
        if Holds(OrSetRun(a), v, t) { var i: nat :| LastTouchAdds(a, v, t, i); }
      }
      OrSetHolds(b, "", "");
      OrSetHolds(a + b, "", "");
      SameSets(OrSetRun(b), OrSetRun(a + b));
    }
  }

  /** An object that has been changed as a map: its set is what its own operations
      make of it exactly if every pair held before the last such change has been
      added or removed again since. */
  lemma SetKeptIff(verify: Verifier, ops: seq<Operation>, o: string, i: nat)
    requires IsLastChange(verify, ops, o, false, i)
    ensures OrSetAt(ProcessAll(verify, ops), o) == OrSetRun(OfType(verify, ops, o, true))
        <==> Retouched(OfType(verify, ops[..i], o, true), OfType(verify, ops[i + 1..], o, true))
  {
    hide OrSetAt, OrSetRun, Retouched, Updates, Accepted, OfType, ProcessAll;
    SinceLastChange(verify, ops, o, i, true);
    AroundChange(verify, ops, o, i, true);
    SetDroppedIff(OfType(verify, ops[..i], o, true), OfType(verify, ops[i + 1..], o, true));
  }

  /** And with no change as the other type, nothing is lost. */
  lemma NothingForgotten(verify: Verifier, ops: seq<Operation>, o: string, sets: bool)
    requires NoChange(verify, ops, o, !sets, 0)
    ensures if sets then OrSetAt(ProcessAll(verify, ops), o) == OrSetRun(OfType(verify, ops, o, true))
            else LwwAt(ProcessAll(verify, ops), o) == LwwRun(OfType(verify, ops, o, false))
  {
    hide LwwAt, OrSetAt, OfType, Changes;
    assert ops[0..] == ops && ops[..0] == [];
    NothingStored(o);
    RunsSince(verify, ops, o, 0, sets);
  }
}
