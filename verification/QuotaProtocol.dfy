/** Two-level storage quota: calls take atomic steps (loads, weak
    compare-exchanges, subtractions) that interleave in any order. */
module QuotaProtocol {
  import opened Basics

  type Did = string

  datatype Limits = Limits(total: nat, perUser: nat)

  datatype Counters = Counters(global: nat, users: map<Did, nat>)

  function UserCount(c: Counters, did: Did): nat { ValueAt(c.users, did) }

  /** Where a reservation stands: at which atomic step of which call, with what
      the call has read. `Held` lies between a reserving and a releasing call. */
  datatype Slot =
    | Idle
    | UserLoad(did: Did, size: nat)
    | UserTry(did: Did, size: nat, seen: nat)
    | GlobalLoad(did: Did, size: nat)
    | GlobalTry(did: Did, size: nat, seen: nat)
    | RollbackLoad(did: Did, size: nat)
    | RollbackSub(did: Did, size: nat, amount: nat)
    | Held(did: Did, size: nat)
    | ReleaseGlobalLoad(did: Did, size: nat)
    | ReleaseGlobalSub(did: Did, size: nat, amount: nat)
    | ReleaseUserLoad(did: Did, size: nat)
    | ReleaseUserSub(did: Did, size: nat, amount: nat)

  datatype State = State(counters: Counters, slots: seq<Slot>)

  datatype Step =
    | Reserve(i: nat, did: Did, size: nat)
    | Release(i: nat)
    | Advance(i: nat, spurious: bool)

  predicate Enabled(s: State, step: Step) {
    step.i < |s.slots| &&
    match step
    case Reserve(i, _, size) => s.slots[i].Idle? && size <= MAX
    case Release(i) => s.slots[i].Held?
    case Advance(i, _) => !s.slots[i].Idle? && !s.slots[i].Held?
  }

  function WithUser(c: Counters, did: Did, n: nat): Counters { c.(users := c.users[did := n]) }

  /** One round of the compare-exchange loop: the new value of the counter, if
      there is one, and what becomes of the loop. */
  datatype Round = Refused | Taken(now: nat) | Retry(seen: nat)

  function TryRound(current: nat, seen: nat, size: nat, max: nat, spurious: bool): Round {
    if SaturatingAdd(seen, size) > max then Refused
    else if current == seen && !spurious then Taken(Wrap(seen + size))
    else Retry(current)
  }

  /** The next atomic step of the call in a slot. */
  function Advanced(l: Limits, c: Counters, slot: Slot, spurious: bool): (Counters, Slot)
    requires !slot.Idle? && !slot.Held?
  {
    match slot
    case UserLoad(d, n) => (c, UserTry(d, n, UserCount(c, d)))
    case UserTry(d, n, seen) =>
      (match TryRound(UserCount(c, d), seen, n, l.perUser, spurious)
       case Refused => (c, Idle)
       case Taken(now) => (WithUser(c, d, now), GlobalLoad(d, n))
       case Retry(actual) => (c, UserTry(d, n, actual)))
    case GlobalLoad(d, n) => (c, GlobalTry(d, n, c.global))
    case GlobalTry(d, n, seen) =>
      (match TryRound(c.global, seen, n, l.total, spurious)
       case Refused => (c, RollbackLoad(d, n))
       case Taken(now) => (c.(global := now), Held(d, n))
       case Retry(actual) => (c, GlobalTry(d, n, actual)))
    case RollbackLoad(d, n) => (c, RollbackSub(d, n, Min(n, UserCount(c, d))))
    case RollbackSub(d, n, amount) => (WithUser(c, d, Wrap(UserCount(c, d) - amount)), Idle)
    case ReleaseGlobalLoad(d, n) => (c, ReleaseGlobalSub(d, n, Min(n, c.global)))
    case ReleaseGlobalSub(d, n, amount) => (c.(global := Wrap(c.global - amount)), ReleaseUserLoad(d, n))
    case ReleaseUserLoad(d, n) => (c, ReleaseUserSub(d, n, Min(n, UserCount(c, d))))
    case ReleaseUserSub(d, n, amount) => (WithUser(c, d, Wrap(UserCount(c, d) - amount)), Idle)
  }

  /** A user's counter is made on the first call for that user. */
  function Touched(c: Counters, did: Did): Counters { WithUser(c, did, UserCount(c, did)) }

  function Next(l: Limits, s: State, step: Step): State
    requires Enabled(s, step)
  {
    match step
    case Reserve(i, d, n) => State(Touched(s.counters, d), s.slots[i := UserLoad(d, n)])
    case Release(i) => s.(slots := s.slots[i := ReleaseGlobalLoad(s.slots[i].did, s.slots[i].size)])
    case Advance(i, spurious) =>
      var (c, slot) := Advanced(l, s.counters, s.slots[i], spurious);
      State(c, s.slots[i := slot])
  }

  function AllIdle(k: nat): (s: seq<Slot>)
    ensures |s| == k && forall i :: 0 <= i < k ==> s[i].Idle?
  {
    seq(k, _ => Idle)
  }

  ghost predicate IsRun(l: Limits, ss: seq<State>, steps: seq<Step>) {
    && |ss| == |steps| + 1
    && ss[0] == State(Counters(0, map[]), AllIdle(|ss[0].slots|))
    && forall k :: 0 <= k < |steps| ==> Moves(l, ss[k], steps[k], ss[k + 1])
  }

  ghost predicate Moves(l: Limits, s: State, step: Step, s': State) {
    Enabled(s, step) && s' == Next(l, s, step)
  }
}
