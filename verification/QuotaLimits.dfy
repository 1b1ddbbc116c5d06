/** Limits of 2^64 - 1: saturating addition never exceeds them, so a counter can
    wrap, and the sums of reservations pass it by. */
module QuotaLimits {
  import opened Basics
  import opened QuotaProtocol
  import opened QuotaSafety

  lemma RunExtends(l: Limits, ss: seq<State>, steps: seq<Step>, step: Step, s: State)
    requires IsRun(l, ss, steps) && Moves(l, ss[|steps|], step, s)
    ensures IsRun(l, ss + [s], steps + [step])
  {
    hide Moves;
    var ss', steps' := ss + [s], steps + [step];
    forall k | 0 <= k < |steps'| ensures Moves(l, ss'[k], steps'[k], ss'[k + 1]) {
      if k < |steps| { assert Moves(l, ss[k], steps[k], ss[k + 1]); }
    }
  }

  // ----- One user -----

  /** A call that has passed the user's counter, and stopped before the global one. */
  lemma UserPasses(l: Limits, s: State, i: nat, d: Did, n: nat) returns (s1: State, s2: State, s3: State)
    requires i < |s.slots| && s.slots[i].Idle? && n <= MAX && SaturatingAdd(UserCount(s.counters, d), n) <= l.perUser
    ensures Moves(l, s, Reserve(i, d, n), s1) && Moves(l, s1, Advance(i, false), s2)
              && Moves(l, s2, Advance(i, false), s3)
    ensures s3 == State(WithUser(s.counters, d, Wrap(UserCount(s.counters, d) + n)), s.slots[i := GlobalLoad(d, n)])
  {
    hide SaturatingAdd, Wrap;
    var c, count := Touched(s.counters, d), UserCount(s.counters, d);
    s1 := State(c, s.slots[i := UserLoad(d, n)]);
    s2 := State(c, s.slots[i := UserTry(d, n, count)]);
    s3 := State(WithUser(s.counters, d, Wrap(count + n)), s.slots[i := GlobalLoad(d, n)]);
    assert s1.slots[i := UserTry(d, n, count)] == s2.slots && s2.slots[i := GlobalLoad(d, n)] == s3.slots;
    assert WithUser(c, d, Wrap(count + n)) == s3.counters;
  }

  lemma {:induction false} UserExtends(l: Limits, ss: seq<State>, steps: seq<Step>, i: nat, d: Did, n: nat)
      returns (ss': seq<State>, steps': seq<Step>)
    requires IsRun(l, ss, steps)
    requires var s := ss[|steps|];
             i < |s.slots| && s.slots[i].Idle? && n <= MAX && SaturatingAdd(UserCount(s.counters, d), n) <= l.perUser
    ensures IsRun(l, ss', steps') && |ss'| == |steps'| + 1
    ensures var s := ss[|steps|];
            ss'[|steps'|]
                == State(WithUser(s.counters, d, Wrap(UserCount(s.counters, d) + n)), s.slots[i := GlobalLoad(d, n)])
  {
    hide IsRun, Moves, SaturatingAdd, Wrap, UserCount, WithUser;
    RunLength(l, ss, steps);
    var s1, s2, s3 := UserPasses(l, ss[|steps|], i, d, n);
    RunExtends(l, ss, steps, Reserve(i, d, n), s1);
    RunExtends(l, ss + [s1], steps + [Reserve(i, d, n)], Advance(i, false), s2);
    RunExtends(l, ss + [s1] + [s2], steps + [Reserve(i, d, n)] + [Advance(i, false)], Advance(i, false), s3);
    ss', steps' := ss + [s1] + [s2] + [s3], steps + [Reserve(i, d, n)] + [Advance(i, false)] + [Advance(i, false)];
  }

  lemma EmptyRun(l: Limits, k: nat)
    ensures IsRun(l, [State(Counters(0, map[]), AllIdle(k))], [])
  {
  }

  /** Two calls for one user, the first for all of the 64 bits: the user's counter
      is back at 0 while both are on it. */
  lemma UserOverflows(l: Limits) returns (ss: seq<State>, steps: seq<Step>)
    requires l.perUser == MAX
    ensures IsRun(l, ss, steps) && !Exact(l, ss[|steps|])
  {
    hide IsRun, UserSum, AllUsersSum, GlobalSum, Total;
    EmptyRun(l, 2);
    ss, steps := UserExtends(l, [State(Counters(0, map[]), AllIdle(2))], [], 0, "d", MAX);
    ss, steps := UserExtends(l, ss, steps, 1, "d", 1);
    var slots := ss[|steps|].slots;
    SumsReplaced(slots, 1, Idle, "d");
    assert UserSum(slots, "d") > 0;
    assert UserCount(ss[|steps|].counters, "d") == 0;
  }

  // ----- Many users -----

  function DidOf(k: nat): Did { seq(k, _ => 'd') }

  function Holders(k: nat, p: nat): map<Did, nat> {
    if k == 0 then map[] else Holders(k - 1, p)[DidOf(k - 1) := p]
  }

  function HoldSlots(n: nat, k: nat, p: nat): (s: seq<Slot>)
    ensures |s| == n
  {
    seq(n, i requires 0 <= i < n => if i < k then Held(DidOf(i), p) else Idle)
  }

  /** The first `k` of `n` calls hold `p` bytes each, each for a user of its own. */
  function Holding(n: nat, k: nat, p: nat): State {
    State(Counters(Wrap(k * p), Holders(k, p)), HoldSlots(n, k, p))
  }

  lemma {:induction false} NotYetHolder(k: nat, j: nat, p: nat)
    requires k <= j
    ensures DidOf(j) !in Holders(k, p)
  {
    if k > 0 {
      NotYetHolder(k - 1, j, p);
      assert |DidOf(j)| == j && |DidOf(k - 1)| == k - 1;
    }
  }

  lemma WrapTwice(a: nat, b: nat)
    ensures Wrap(Wrap(a) + b) == Wrap(a + b)
  {
    var m := MAX + 1;
    var q, r := a / m, a % m;
    assert a == q * m + r;
    var q1, r1 := (r + b) / m, (r + b) % m;
    assert r + b == q1 * m + r1;
    assert a + b == (q + q1) * m + r1;
    Remainder(a + b, q + q1, r1);
  }

  lemma Remainder(a: nat, q: nat, r: nat)
    requires a == q * (MAX + 1) + r && r <= MAX
    ensures a % (MAX + 1) == r
  {
  }

  /** The global counter lets everything pass. */
  lemma GlobalPasses(l: Limits, s: State, i: nat, d: Did, n: nat) returns (s1: State, s2: State)
    requires l.total == MAX && i < |s.slots| && s.slots[i] == GlobalLoad(d, n)
    ensures Moves(l, s, Advance(i, false), s1) && Moves(l, s1, Advance(i, false), s2)
    ensures s2 == State(s.counters.(global := Wrap(s.counters.global + n)), s.slots[i := Held(d, n)])
  {
    hide Wrap;
    s1 := State(s.counters, s.slots[i := GlobalTry(d, n, s.counters.global)]);
    s2 := State(s.counters.(global := Wrap(s.counters.global + n)), s.slots[i := Held(d, n)]);
    assert s1.slots[i := Held(d, n)] == s2.slots;
  }

  lemma {:induction false} ManyHold(l: Limits, n: nat, k: nat, p: nat) returns (ss: seq<State>, steps: seq<Step>)
    requires l.total == MAX && p <= l.perUser < MAX && k <= n
    ensures IsRun(l, ss, steps) && |ss| == |steps| + 1 && ss[|steps|] == Holding(n, k, p)
    decreases k
  {
    hide IsRun, Moves, Wrap, Holders, HoldSlots;
    if k == 0 {
      ss, steps := [State(Counters(0, map[]), AllIdle(n))], [];
      EmptyRun(l, n);
      NobodyHolds(n, p);
    } else {
      var d := DidOf(k - 1);
      ss, steps := ManyHold(l, n, k - 1, p);
      var s := ss[|steps|];
      OneMoreHolder(n, k - 1, p);
      ss, steps := UserExtends(l, ss, steps, k - 1, d, p);
      var s3 := ss[|steps|];
      var s4, s5 := GlobalPasses(l, s3, k - 1, d, p);
      RunLength(l, ss, steps);
      RunExtends(l, ss, steps, Advance(k - 1, false), s4);
      RunExtends(l, ss + [s4], steps + [Advance(k - 1, false)], Advance(k - 1, false), s5);
      ss, steps := ss + [s4] + [s5], steps + [Advance(k - 1, false)] + [Advance(k - 1, false)];
    }
  }

  lemma NobodyHolds(n: nat, p: nat)
    ensures Holding(n, 0, p) == State(Counters(0, map[]), AllIdle(n))
  {
    assert HoldSlots(n, 0, p) == AllIdle(n);
  }

  lemma OneMoreHolder(n: nat, k: nat, p: nat)
    requires k < n && p <= MAX
    ensures var s, d := Holding(n, k, p), DidOf(k);
            && s.slots[k].Idle? && UserCount(s.counters, d) == 0 && Wrap(p) == p
            && Holding(n, k + 1, p)
                 == State(WithUser(s.counters, d, p).(global := Wrap(s.counters.global + p)), s.slots[k := Held(d, p)])
  {
    hide Wrap;
    NotYetHolder(k, k, p);
    InRange(p);
    WrapTwice(k * p, p);
    assert (k + 1) * p == k * p + p;
    assert HoldSlots(n, k + 1, p) == HoldSlots(n, k, p)[k := Held(DidOf(k), p)];
  }

  lemma {:induction false} SumHeld(n: nat, k: nat, p: nat)
    requires k <= n
    ensures GlobalSum(HoldSlots(n, k, p)) == k * p
    decreases n
  {
    var slots := HoldSlots(n, k, p);
    if n > 0 {
      assert slots[..n - 1] == HoldSlots(n - 1, if k < n then k else n - 1, p);
      SumHeld(n - 1, if k < n then k else n - 1, p);
      assert k == n ==> (n - 1) * p + p == n * p;
    }
  }

  /** With no effective global limit, users enough to reserve more than 64 bits
      between them take the global counter round. */
  lemma TotalOverflows(l: Limits) returns (ss: seq<State>, steps: seq<Step>)
    requires l.total == MAX && 0 < l.perUser < MAX
    ensures IsRun(l, ss, steps) && !Exact(l, ss[|steps|])
  {
    hide IsRun, GlobalSum, Holders, HoldSlots, Wrap, Total;
    var p := l.perUser;
    var n := MAX / p + 1;
    Exceeds(p);
    ss, steps := ManyHold(l, n, n, p);
    SumHeld(n, n, p);
    WrapsWithin(n * p);
  }

  lemma Exceeds(p: nat)
    requires p > 0
    ensures (MAX / p + 1) * p > MAX
  {
    var q := MAX / p;
    assert MAX == p * q + MAX % p;
    assert (q + 1) * p == q * p + p;
  }

  // ----- Exactly -----

  /** The counters are exact in every run exactly if a user's limit is below
      2^64 - 1, and the global limit is too or users can hold nothing. */
  lemma ExactIff(l: Limits)
    requires l.total <= MAX && l.perUser <= MAX
    ensures (forall ss, steps :: IsRun(l, ss, steps) ==> |ss| == |steps| + 1 && Exact(l, ss[|steps|]))
            <==> l.perUser < MAX && (l.total < MAX || l.perUser == 0)
  {
    hide Exact, IsRun;
    if NoOverflow(l) {
      forall ss, steps | IsRun(l, ss, steps) ensures |ss| == |steps| + 1 && Exact(l, ss[|steps|]) {
        AlwaysExact(l, ss, steps);
        RunLength(l, ss, steps);
      }
    } else if l.perUser == MAX {
      var ss, steps := UserOverflows(l);
      RunLength(l, ss, steps);
    } else {
      var ss, steps := TotalOverflows(l);
      RunLength(l, ss, steps);
    }
  }
}
