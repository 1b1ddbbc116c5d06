/** The counters are exact, within their limits and consistent with each other. */
module QuotaSafety {
  import opened Basics
  import opened QuotaProtocol

  /** Bytes that a slot has on its user's counter, and on the global one. */
  function UserShare(slot: Slot): nat {
    if slot.Idle? || slot.UserLoad? || slot.UserTry? then 0 else slot.size
  }

  function GlobalShare(slot: Slot): nat {
    if slot.Held? || slot.ReleaseGlobalLoad? || slot.ReleaseGlobalSub? then slot.size else 0
  }

  function ShareOf(slot: Slot, did: Did): nat {
    if !slot.Idle? && slot.did == did then UserShare(slot) else 0
  }

  function UserSum(slots: seq<Slot>, did: Did): nat {
    if slots == [] then 0 else UserSum(slots[..|slots| - 1], did) + ShareOf(slots[|slots| - 1], did)
  }

  function AllUsersSum(slots: seq<Slot>): nat {
    if slots == [] then 0 else AllUsersSum(slots[..|slots| - 1]) + UserShare(slots[|slots| - 1])
  }

  function GlobalSum(slots: seq<Slot>): nat {
    if slots == [] then 0 else GlobalSum(slots[..|slots| - 1]) + GlobalShare(slots[|slots| - 1])
  }

  /** A subtraction is of the whole size. */
  predicate Unclamped(slot: Slot) {
    (slot.RollbackSub? || slot.ReleaseGlobalSub? || slot.ReleaseUserSub?) ==> slot.amount == slot.size
  }

  ghost predicate Exact(l: Limits, s: State) {
    && s.counters.global == GlobalSum(s.slots) <= l.total
    && (forall d :: UserCount(s.counters, d) == UserSum(s.slots, d) <= l.perUser)
    && Total(s.counters.users) == AllUsersSum(s.slots)
    && forall i :: 0 <= i < |s.slots| ==> Unclamped(s.slots[i])
  }

  lemma {:induction false} SumsReplaced(slots: seq<Slot>, i: nat, slot: Slot, did: Did)
    requires i < |slots|
    ensures UserSum(slots[i := slot], did) == UserSum(slots, did) - ShareOf(slots[i], did) + ShareOf(slot, did)
    ensures AllUsersSum(slots[i := slot]) == AllUsersSum(slots) - UserShare(slots[i]) + UserShare(slot)
    ensures GlobalSum(slots[i := slot]) == GlobalSum(slots) - GlobalShare(slots[i]) + GlobalShare(slot)
    ensures ShareOf(slots[i], did) <= UserSum(slots, did) && GlobalShare(slots[i]) <= GlobalSum(slots)
  {
    var n := |slots| - 1;
    if i < n {
      assert slots[i := slot][..n] == slots[..n][i := slot];
      SumsReplaced(slots[..n], i, slot, did);
    } else {
      assert slots[i := slot][..n] == slots[..n];
    }
  }

  // ----- One step -----

  /** A slot's shares and the counters move together. */
  ghost predicate Together(c: Counters, slot: Slot, c': Counters, slot': Slot) {
    && c'.global - GlobalShare(slot') == c.global - GlobalShare(slot)
    && (forall d :: UserCount(c', d) - ShareOf(slot', d) == UserCount(c, d) - ShareOf(slot, d))
    && Total(c'.users) - UserShare(slot') == Total(c.users) - UserShare(slot)
  }

  ghost predicate Within(l: Limits, c: Counters) {
    c.global <= l.total && forall d :: UserCount(c, d) <= l.perUser
  }

  ghost predicate Covered(c: Counters, slot: Slot) {
    GlobalShare(slot) <= c.global && forall d :: ShareOf(slot, d) <= UserCount(c, d)
  }

  lemma InRange(n: int)
    requires 0 <= n <= MAX
    ensures Wrap(n) == n
  {
  }

  lemma UserMoved(c: Counters, d: Did, n: nat)
    ensures Total(WithUser(c, d, n).users) == Total(c.users) - UserCount(c, d) + n
    ensures forall e :: UserCount(WithUser(c, d, n), e) == if e == d then n else UserCount(c, e)
  {
    hide Total;
    TotalUpdated(c.users, d, n);
  }

  /** A user's counter and the slot's share of it change by as much. */
  lemma UserTogether(l: Limits, c: Counters, slot: Slot, n: nat, slot': Slot)
    requires Within(l, c) && Covered(c, slot) && n <= l.perUser && !slot.Idle?
    requires slot'.Idle? || slot'.did == slot.did
    requires GlobalShare(slot') == GlobalShare(slot)
    requires n - UserShare(slot') == UserCount(c, slot.did) - UserShare(slot)
    ensures Together(c, slot, WithUser(c, slot.did, n), slot') && Within(l, WithUser(c, slot.did, n))
  {
    hide Total, UserShare, GlobalShare, UserCount;
    UserMoved(c, slot.did, n);
    IdleHasNone(slot');
  }

  lemma IdleHasNone(slot: Slot)
    ensures slot.Idle? ==> UserShare(slot) == 0
  {
  }

  lemma GlobalTogether(l: Limits, c: Counters, slot: Slot, n: nat, slot': Slot)
    requires Within(l, c) && n <= l.total && !slot.Idle? && !slot'.Idle? && slot'.did == slot.did
    requires UserShare(slot') == UserShare(slot)
    requires n - GlobalShare(slot') == c.global - GlobalShare(slot)
    ensures Together(c, slot, c.(global := n), slot') && Within(l, c.(global := n))
  {
    hide Total, UserShare, GlobalShare;
    forall d ensures UserCount(c.(global := n), d) == UserCount(c, d) {}
  }

  /** Limits under which no counter can pass 64 bits; a limit is a 64-bit word. */
  predicate NoOverflow(l: Limits) {
    l.perUser < MAX && (l.total < MAX || (l.total == MAX && l.perUser == 0))
  }

  lemma TryRoundTakes(current: nat, seen: nat, size: nat, max: nat, spurious: bool)
    requires max < MAX || (max == MAX && size == 0 && current <= max)
    ensures var r := TryRound(current, seen, size, max, spurious); r.Taken? ==> r.now == current + size <= max
  {
    if seen + size <= MAX { InRange(seen + size); }
  }

  lemma LookMoves(c: Counters, slot: Slot, slot': Slot)
    requires !slot.Idle? && (slot'.Idle? || slot'.did == slot.did)
    requires GlobalShare(slot') == GlobalShare(slot) && UserShare(slot') == UserShare(slot)
    ensures Together(c, slot, c, slot')
  {
    hide Total, UserShare, GlobalShare;
    IdleHasNone(slot');
  }

  lemma UserShareCounted(c: Counters, slot: Slot)
    requires Covered(c, slot) && !slot.Idle?
    ensures UserShare(slot) <= UserCount(c, slot.did) && GlobalShare(slot) <= c.global
  {
    hide UserShare, GlobalShare;
    assert ShareOf(slot, slot.did) <= UserCount(c, slot.did);
  }

  /** A step neither clamps nor wraps, and keeps to the limits. */
  lemma AdvanceMoves(l: Limits, c: Counters, slot: Slot, spurious: bool)
    requires NoOverflow(l) && Within(l, c) && Covered(c, slot) && Unclamped(slot)
    requires !slot.Idle? && !slot.Held?
    ensures var (c', slot') := Advanced(l, c, slot, spurious);
            Together(c, slot, c', slot') && Within(l, c') && Unclamped(slot')
  {
    hide Total, Wrap, Together, Within, Covered, UserCount, TryRound, WithUser;
    var (c', slot') := Advanced(l, c, slot, spurious);
    var count := UserCount(c, slot.did);
    UserShareCounted(c, slot);
    WithinUser(l, c, slot.did);
    if slot.UserTry? {
      TryRoundTakes(count, slot.seen, slot.size, l.perUser, spurious);
      if slot'.GlobalLoad? { UserTogether(l, c, slot, count + slot.size, slot'); } else { LookMoves(c, slot, slot'); }
    } else if slot.GlobalTry? {
      TryRoundTakes(c.global, slot.seen, slot.size, l.total, spurious);
      if slot'.Held? { GlobalTogether(l, c, slot, c.global + slot.size, slot'); } else { LookMoves(c, slot, slot'); }
    } else if slot.RollbackSub? || slot.ReleaseUserSub? {
      InRange(count - slot.size);
      UserTogether(l, c, slot, count - slot.size, slot');
    } else if slot.ReleaseGlobalSub? {
      InRange(c.global - slot.size);
      GlobalTogether(l, c, slot, c.global - slot.size, slot');
    } else {
      LookMoves(c, slot, slot');
    }
  }

  lemma WithinUser(l: Limits, c: Counters, d: Did)
    requires Within(l, c)
    ensures UserCount(c, d) <= l.perUser && c.global <= l.total
  {
  }

  lemma ReplaceKeepsExact(l: Limits, s: State, i: nat, c': Counters, slot': Slot)
    requires Exact(l, s) && i < |s.slots|
    requires Together(s.counters, s.slots[i], c', slot') && Within(l, c') && Unclamped(slot')
    ensures Exact(l, State(c', s.slots[i := slot']))
  {
    hide Total, ShareOf, UserShare, GlobalShare, UserSum, GlobalSum, AllUsersSum;
    SumsReplaced(s.slots, i, slot', "");
    forall d ensures UserCount(c', d) == UserSum(s.slots[i := slot'], d) {
      SumsReplaced(s.slots, i, slot', d);
    }
  }

  lemma ExactCovers(l: Limits, s: State, i: nat)
    requires Exact(l, s) && i < |s.slots|
    ensures Within(l, s.counters) && Covered(s.counters, s.slots[i]) && Unclamped(s.slots[i])
  {
    hide Total, ShareOf, UserShare, GlobalShare, Unclamped;
    SumsReplaced(s.slots, i, Idle, "");
    forall d ensures ShareOf(s.slots[i], d) <= UserCount(s.counters, d) {
      SumsReplaced(s.slots, i, Idle, d);
    }
  }

  lemma StepKeepsExact(l: Limits, s: State, step: Step)
    requires NoOverflow(l) && Exact(l, s) && Enabled(s, step)
    ensures Exact(l, Next(l, s, step))
  {
    hide Exact, Total, Advanced, Within, Covered;
    var i := step.i;
    ExactCovers(l, s, i);
    match step
    case Reserve(_, d, n) =>
      UserMoved(s.counters, d, UserCount(s.counters, d));
      assert Within(l, Touched(s.counters, d)) by { TouchedWithin(l, s.counters, d); }
      ReplaceKeepsExact(l, s, i, Touched(s.counters, d), UserLoad(d, n));
    case Release(_) =>
      ReplaceKeepsExact(l, s, i, s.counters, ReleaseGlobalLoad(s.slots[i].did, s.slots[i].size));
    case Advance(_, spurious) =>
      AdvanceMoves(l, s.counters, s.slots[i], spurious);
      var (c, slot) := Advanced(l, s.counters, s.slots[i], spurious);
      ReplaceKeepsExact(l, s, i, c, slot);
  }

  lemma TouchedWithin(l: Limits, c: Counters, d: Did)
    requires Within(l, c)
    ensures Within(l, Touched(c, d))
  {
    forall e ensures UserCount(Touched(c, d), e) == UserCount(c, e) {}
  }

  // ----- Runs -----

  lemma {:induction false} AllIdleSums(k: nat, d: Did)
    ensures UserSum(AllIdle(k), d) == 0 && AllUsersSum(AllIdle(k)) == 0 && GlobalSum(AllIdle(k)) == 0
  {
    if k > 0 {
      assert AllIdle(k)[..k - 1] == AllIdle(k - 1);
      AllIdleSums(k - 1, d);
    }
  }

  /** Under every interleaving each counter is the sum of the reservations on it
      and within its limit, and no subtraction has been clamped. */
  lemma {:induction false} AlwaysExact(l: Limits, ss: seq<State>, steps: seq<Step>)
    requires NoOverflow(l) && IsRun(l, ss, steps)
    ensures Exact(l, ss[|steps|])
  {
    hide Exact, Moves;
    if steps == [] {
      IdleExact(l, |ss[0].slots|);
    } else {
      var k := |steps| - 1;
      AlwaysExact(l, ss[..k + 1], steps[..k]);
      assert Moves(l, ss[k], steps[k], ss[k + 1]);
      MoveKeepsExact(l, ss[k], steps[k], ss[k + 1]);
    }
  }

  lemma IdleExact(l: Limits, k: nat)
    ensures Exact(l, State(Counters(0, map[]), AllIdle(k)))
  {
    forall d ensures UserSum(AllIdle(k), d) == 0 { AllIdleSums(k, d); }
    AllIdleSums(k, "");
  }

  lemma MoveKeepsExact(l: Limits, s: State, step: Step, s': State)
    requires NoOverflow(l) && Exact(l, s) && Moves(l, s, step, s')
    ensures Exact(l, s')
  {
    hide Exact, Enabled, Next;
    StepKeepsExact(l, s, step);
  }

  /** Every slot is free or held: no call is in progress. */
  predicate Quiet(s: State) { forall i :: 0 <= i < |s.slots| ==> s.slots[i].Idle? || s.slots[i].Held? }

  lemma {:induction false} SharesCompare(slots: seq<Slot>)
    ensures GlobalSum(slots) <= AllUsersSum(slots)
    ensures (forall i :: 0 <= i < |slots| ==> slots[i].Idle? || slots[i].Held?) ==>
              GlobalSum(slots) == AllUsersSum(slots)
  {
    if slots != [] { SharesCompare(slots[..|slots| - 1]); }
  }

  /** The global counter never exceeds the users' together, and equals them
      whenever no call is in progress. */
  lemma GlobalAtMostUsers(l: Limits, ss: seq<State>, steps: seq<Step>)
    requires NoOverflow(l) && IsRun(l, ss, steps)
    ensures var s := ss[|steps|];
            s.counters.global <= Total(s.counters.users) && (Quiet(s) ==> s.counters.global == Total(s.counters.users))
  {
    hide Total, AllUsersSum, GlobalSum, IsRun;
    AlwaysExact(l, ss, steps);
    RunLength(l, ss, steps);
    SharesCompare(ss[|steps|].slots);
  }

  lemma RunLength(l: Limits, ss: seq<State>, steps: seq<Step>)
    requires IsRun(l, ss, steps)
    ensures |ss| == |steps| + 1
  {
  }

  /** In every reachable state a call that is about to subtract subtracts what
      it holds, and the counter has that much. */
  lemma SubtractsWhole(l: Limits, ss: seq<State>, steps: seq<Step>, i: nat)
    requires NoOverflow(l) && IsRun(l, ss, steps) && i < |ss[|steps|].slots|
    ensures var c, slot := ss[|steps|].counters, ss[|steps|].slots[i];
            && (slot.RollbackSub? || slot.ReleaseUserSub? ==> slot.amount == slot.size <= UserCount(c, slot.did))
            && (slot.ReleaseGlobalSub? ==> slot.amount == slot.size <= c.global)
  {
    hide Exact, IsRun, Total;
    AlwaysExact(l, ss, steps);
    RunLength(l, ss, steps);
    ExactCovers(l, ss[|steps|], i);
    if !ss[|steps|].slots[i].Idle? { UserShareCounted(ss[|steps|].counters, ss[|steps|].slots[i]); }
  }

  // ----- A call that runs alone -----

  /** What reserving does in one piece: a refusal by the global quota gives back
      what the user's counter has. */
  function Reserved(l: Limits, c: Counters, d: Did, n: nat): (Counters, bool) {
    var count := UserCount(c, d);
    if SaturatingAdd(count, n) > l.perUser then (Touched(c, d), false)
    else if SaturatingAdd(c.global, n) > l.total then (WithUser(c, d, Wrap(count + n) - Min(n, Wrap(count + n))), false)
    else (Counters(Wrap(c.global + n), c.users[d := Wrap(count + n)]), true)
  }

  /** Short of 64 bits, reserving adds to both counters exactly if both limits
      allow it, and otherwise leaves no trace. */
  lemma ReservesBoth(l: Limits, c: Counters, d: Did, n: nat)
    requires UserCount(c, d) + n <= MAX && c.global + n <= MAX
    ensures var ok := UserCount(c, d) + n <= l.perUser && c.global + n <= l.total;
            Reserved(l, c, d, n) == if ok then (Counters(c.global + n, c.users[d := UserCount(c, d) + n]), true)
                else (Touched(c, d), false)
  {
    hide Wrap;
    InRange(UserCount(c, d) + n);
    InRange(c.global + n);
  }

  function Released(c: Counters, d: Did, n: nat): Counters {
    Counters(if n <= c.global then c.global - n else 0,
             c.users[d := if n <= UserCount(c, d) then UserCount(c, d) - n else 0])
  }

  /** How many steps a call has left if nobody interferes. */
  function StepsLeft(c: Counters, slot: Slot): nat {
    match slot
    case Idle => 0
    case Held(_, _) => 0
    case UserLoad(_, _) => 9
    case UserTry(d, _, seen) => if seen == UserCount(c, d) then 7 else 8
    case GlobalLoad(_, _) => 6
    case GlobalTry(_, _, seen) => if seen == c.global then 4 else 5
    case RollbackLoad(_, _) => 3
    case RollbackSub(_, _, _) => 1
    case ReleaseGlobalLoad(_, _) => 4
    case ReleaseGlobalSub(_, _, _) => 3
    case ReleaseUserLoad(_, _) => 2
    case ReleaseUserSub(_, _, _) => 1
  }

  function ToEnd(l: Limits, c: Counters, slot: Slot): (Counters, Slot)
    decreases StepsLeft(c, slot)
  {
    if slot.Idle? || slot.Held? then (c, slot)
    else
      var (c', slot') := Advanced(l, c, slot, false);
      ToEnd(l, c', slot')
  }

  lemma AloneGlobal(l: Limits, c: Counters, d: Did, n: nat)
    requires c.global <= l.total <= MAX && UserCount(c, d) <= MAX
    ensures ToEnd(l, c, GlobalLoad(d, n)) ==
              if SaturatingAdd(c.global, n) <= l.total then (c.(global := Wrap(c.global + n)), Held(d, n))
              else (WithUser(c, d, UserCount(c, d) - Min(n, UserCount(c, d))), Idle)
  {
    hide Wrap, UserCount, WithUser;
    var amount := Min(n, UserCount(c, d));
    InRange(UserCount(c, d) - amount);
    var next := ToEnd(l, c, GlobalTry(d, n, c.global));
    if SaturatingAdd(c.global, n) <= l.total {
      assert next == ToEnd(l, c.(global := Wrap(c.global + n)), Held(d, n));
    } else {
      assert next == ToEnd(l, c, RollbackLoad(d, n));
      assert next == ToEnd(l, c, RollbackSub(d, n, amount));
      assert next == ToEnd(l, WithUser(c, d, UserCount(c, d) - amount), Idle);
    }
  }

  /** A reserving call that runs alone takes effect in one piece. */
  lemma AloneReserves(l: Limits, c: Counters, d: Did, n: nat)
    requires l.total <= MAX && l.perUser <= MAX && Within(l, c)
    ensures var (c', done) := Reserved(l, c, d, n);
            ToEnd(l, Touched(c, d), UserLoad(d, n)) == (c', if done then Held(d, n) else Idle)
  {
    hide Wrap, SaturatingAdd;
    var c0, count := Touched(c, d), UserCount(c, d);
    WithinUser(l, c, d);
    assert ToEnd(l, c0, UserLoad(d, n)) == ToEnd(l, c0, UserTry(d, n, count));
    if SaturatingAdd(count, n) <= l.perUser {
      var u1 := Wrap(count + n);
      var c1 := WithUser(c0, d, u1);
      WrapsWithin(count + n);
      assert ToEnd(l, c0, UserTry(d, n, count)) == ToEnd(l, c1, GlobalLoad(d, n));
      AloneGlobal(l, c1, d, n);
      assert c1.users == c.users[d := u1] && WithUser(c1, d, u1 - Min(n, u1)) == WithUser(c, d, u1 - Min(n, u1));
    }
  }

  lemma WrapsWithin(n: nat)
    ensures 0 <= Wrap(n) <= MAX
  {
  }

  /** So does a releasing call, which stops at zero if it releases too much. */
  lemma AloneReleases(l: Limits, c: Counters, d: Did, n: nat)
    requires Within(l, c) && l.total <= MAX && l.perUser <= MAX
    ensures ToEnd(l, c, ReleaseGlobalLoad(d, n)) == (Released(c, d, n), Idle)
  {
    hide Wrap;
    WithinUser(l, c, d);
    var amount, userAmount := Min(n, c.global), Min(n, UserCount(c, d));
    InRange(c.global - amount);
    InRange(UserCount(c, d) - userAmount);
    var c1 := c.(global := c.global - amount);
    assert ToEnd(l, c, ReleaseGlobalLoad(d, n)) == ToEnd(l, c, ReleaseGlobalSub(d, n, amount))
        == ToEnd(l, c1, ReleaseUserLoad(d, n));
    assert ToEnd(l, c1, ReleaseUserLoad(d, n)) == ToEnd(l, c1, ReleaseUserSub(d, n, userAmount));
    assert ToEnd(l, c1, ReleaseUserSub(d, n, userAmount)) == ToEnd(l, Released(c, d, n), Idle);
  }
}
