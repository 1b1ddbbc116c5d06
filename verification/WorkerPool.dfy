/** Ten asynchronous workers that share one counter: each takes the next index,
    awaits its answer, stores it, and takes another. */
module WorkerPool {
  const LIMIT := 10

  /** `Rejected` ends a worker whose request failed. */
  datatype Worker = Ready | Busy(index: nat) | Done | Rejected(index: nat)

  /** `claimed` lists the indices in the order in which workers took them. */
  datatype Pool = Pool(next: nat, workers: seq<Worker>, finished: set<nat>, claimed: seq<nat>)

  function Start(): Pool { Pool(0, seq(LIMIT, _ => Ready), {}, []) }

  predicate Active(worker: Worker) { worker.Ready? || worker.Busy? }

  predicate Ended(p: Pool) { forall k :: 0 <= k < |p.workers| ==> !Active(p.workers[k]) }

  /** What runs between two awaits of worker `k`; requests in `failing` fail. */
  function Step(p: Pool, k: nat, n: nat, failing: set<nat>): Pool
    requires k < |p.workers| && Active(p.workers[k])
  {
    match p.workers[k]
    case Ready =>
      if p.next < n
      then p.(next := p.next + 1, workers := p.workers[k := Busy(p.next)], claimed := p.claimed + [p.next])
      else p.(workers := p.workers[k := Done])
    case Busy(i) =>
      if i in failing then p.(workers := p.workers[k := Rejected(i)])
      else p.(workers := p.workers[k := Ready], finished := p.finished + {i})
  }

  /** Who has index `i`. */
  ghost predicate Placed(p: Pool, failing: set<nat>, i: nat) {
    || i in p.finished
    || exists k :: 0 <= k < |p.workers| && (p.workers[k] == Busy(i) || (p.workers[k] == Rejected(i) && i in failing))
  }

  ghost predicate PoolSound(p: Pool, n: nat, failing: set<nat>) {
    && p.next <= n && |p.workers| == LIMIT
    && |p.claimed| == p.next && (forall i :: 0 <= i < p.next ==> p.claimed[i] == i)
    && (forall i: nat :: i < p.next ==> Placed(p, failing, i))
    && (forall i :: i in p.finished ==> i < p.next && i !in failing)
    && (forall k :: 0 <= k < |p.workers| && p.workers[k].Busy? ==>
         p.workers[k].index < p.next && p.workers[k].index !in p.finished)
    && (forall k :: 0 <= k < |p.workers| && p.workers[k].Rejected? ==>
         p.workers[k].index < p.next && p.workers[k].index in failing)
    && (forall j, k :: 0 <= j < k < |p.workers| && p.workers[j].Busy? && p.workers[k].Busy? ==>
         p.workers[j].index != p.workers[k].index)
    && (forall k :: 0 <= k < |p.workers| && p.workers[k].Done? ==> p.next == n)
  }

  lemma StartSound(n: nat, failing: set<nat>)
    ensures PoolSound(Start(), n, failing)
  {
  }

  lemma StillPlaced(p: Pool, k: nat, n: nat, failing: set<nat>, i: nat)
    requires PoolSound(p, n, failing) && k < |p.workers| && Active(p.workers[k]) && i < p.next
    ensures Placed(Step(p, k, n, failing), failing, i)
  {
    var p' := Step(p, k, n, failing);
    assert Placed(p, failing, i);
    if i !in p.finished {
      var j :| 0 <= j < |p.workers| && (p.workers[j] == Busy(i) || (p.workers[j] == Rejected(i) && i in failing));
      assert j != k ==> p'.workers[j] == p.workers[j];
      assert j == k && i in failing ==> p'.workers[k] == Rejected(i);
    }
  }

  lemma StepKeepsSound(p: Pool, k: nat, n: nat, failing: set<nat>)
    requires PoolSound(p, n, failing) && k < |p.workers| && Active(p.workers[k])
    ensures PoolSound(Step(p, k, n, failing), n, failing)
  {
    hide Placed;
    var p' := Step(p, k, n, failing);
    forall i: nat | i < p'.next ensures Placed(p', failing, i) {
      if i < p.next { StillPlaced(p, k, n, failing, i); } else { JustTaken(p, k, n, failing); }
    }
  }

  lemma JustTaken(p: Pool, k: nat, n: nat, failing: set<nat>)
    requires k < |p.workers| && p.workers[k].Ready? && p.next < n
    ensures Placed(Step(p, k, n, failing), failing, p.next)
  {
    assert Step(p, k, n, failing).workers[k] == Busy(p.next);
  }

  // ----- Every schedule -----

  /** The pool after the workers named in `schedule` have run, in that order. */
  ghost predicate Reaches(schedule: seq<nat>, n: nat, failing: set<nat>, p: Pool)
    decreases |schedule|
  {
    if schedule == [] then p == Start()
    else exists before: Pool ::
      && Reaches(schedule[..|schedule| - 1], n, failing, before)
      && schedule[|schedule| - 1] < |before.workers| && Active(before.workers[schedule[|schedule| - 1]])
      && p == Step(before, schedule[|schedule| - 1], n, failing)
  }

  function Weight(worker: Worker): nat { match worker case Ready => 1 case Busy(_) => 2 case _ => 0 }

  function Load(workers: seq<Worker>): nat {
    if workers == [] then 0 else Load(workers[..|workers| - 1]) + Weight(workers[|workers| - 1])
  }

  lemma {:induction false} LoadReplaced(workers: seq<Worker>, k: nat, worker: Worker)
    requires k < |workers|
    ensures Load(workers[k := worker]) == Load(workers) - Weight(workers[k]) + Weight(worker)
  {
    var n := |workers| - 1;
    if k < n {
      assert workers[k := worker][..n] == workers[..n][k := worker];
      LoadReplaced(workers[..n], k, worker);
    } else {
      assert workers[k := worker][..n] == workers[..n];
    }
  }

  function StepsLeft(p: Pool, n: nat): nat
    requires p.next <= n
  {
    2 * (n - p.next) + Load(p.workers)
  }

  lemma StepsShrink(p: Pool, k: nat, n: nat, failing: set<nat>)
    requires p.next <= n && k < |p.workers| && Active(p.workers[k])
    ensures Step(p, k, n, failing).next <= n && StepsLeft(Step(p, k, n, failing), n) < StepsLeft(p, n)
  {
    LoadReplaced(p.workers, k, Step(p, k, n, failing).workers[k]);
  }

  lemma {:induction false} ReachableSound(schedule: seq<nat>, n: nat, failing: set<nat>, p: Pool)
    requires Reaches(schedule, n, failing, p)
    ensures PoolSound(p, n, failing) && |schedule| + StepsLeft(p, n) <= 2 * n + LIMIT
    decreases |schedule|
  {
    hide PoolSound, Load;
    if schedule == [] {
      StartSound(n, failing);
      StartLoad();
      assert p == Start();
    } else {
      var k := schedule[|schedule| - 1];
      var before: Pool :| Reaches(schedule[..|schedule| - 1], n, failing, before) && k < |before.workers|
        && Active(before.workers[k]) && p == Step(before, k, n, failing);
      ReachableSound(schedule[..|schedule| - 1], n, failing, before);
      SoundNext(before, n, failing);
      StepKeepsSound(before, k, n, failing);
      StepsShrink(before, k, n, failing);
      SoundNext(p, n, failing);
    }
  }

  lemma SoundNext(p: Pool, n: nat, failing: set<nat>)
    requires PoolSound(p, n, failing)
    ensures p.next <= n
  {
  }

  lemma {:induction false} ReadyLoad(m: nat)
    ensures Load(seq(m, _ => Ready)) == m
  {
    if m > 0 {
      ReadyLoad(m - 1);
      assert seq(m, _ => Ready)[..m - 1] == seq(m - 1, _ => Ready);
    }
  }

  lemma StartLoad()
    ensures Load(Start().workers) == LIMIT
  {
    ReadyLoad(LIMIT);
  }

  /** Under every schedule: indices are taken in order, each once; at most
      2n + 10 steps are taken; and when all workers have ended, a worker has been
      rejected exactly if some request fails, and otherwise every index is
      finished. */
  lemma EverySchedule(schedule: seq<nat>, n: nat, failing: set<nat>, p: Pool)
    requires Reaches(schedule, n, failing, p)
    ensures p.claimed == seq(p.next, i requires 0 <= i < p.next => i) && |schedule| <= 2 * n + 10
              && |p.workers| == 10
    ensures Ended(p) ==>
              ((exists k :: 0 <= k < |p.workers| && p.workers[k].Rejected?) <==>
              (exists i :: 0 <= i < n && i in failing))
    ensures Ended(p) && (forall i :: 0 <= i < n ==> i !in failing) ==> forall i: nat :: i in p.finished <==> i < n
  {
    hide Reaches, Load;
    ReachableSound(schedule, n, failing, p);
    if Ended(p) { EndedSound(p, n, failing); }
  }

  lemma EndedSound(p: Pool, n: nat, failing: set<nat>)
    requires PoolSound(p, n, failing) && Ended(p)
    ensures (exists k :: 0 <= k < |p.workers| && p.workers[k].Rejected?) <==> (exists i :: 0 <= i < n && i in failing)
    ensures (forall i :: 0 <= i < n ==> i !in failing) ==> forall i: nat :: i in p.finished <==> i < n
  {
    if k :| 0 <= k < |p.workers| && p.workers[k].Rejected? {
      assert p.workers[k].index in failing;
    } else {
      assert !Active(p.workers[0]) && p.workers[0].Done?;
      forall i: nat | i < n ensures i in p.finished { assert Placed(p, failing, i); }
    }
  }
}
