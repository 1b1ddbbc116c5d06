/** What holds of a manager over whole runs, committee selections included. */
module Epochs {
  import opened Basics
  import opened Wrappers
  import opened PporProtocol
  import opened Committee
  import opened PporClock
  import opened Quorum

  /** Everything that changes a manager, one message at a time. */
  datatype Op =
    | Handles(msg: Message)
    | Validates(txHash: TxHash, txType: int)
    | Proposes(txHash: TxHash, sequence: nat, txType: int)
    | Rotates(timedOut: set<TxHash>)
    | Reselects(seed: Seed)
    | Adjusts(node: NodeId, delta: int)
    | PeerAnnounces(node: NodeId, reputation: nat)
    | Drops(txHash: TxHash)

  /** A peer that announces itself enters the table with the reputation it claims,
      unless it is there, and a committee is selected. */
  function Introduced(m: Manager, node: NodeId, reputation: nat): Manager {
    m.(reputation := if node in m.reputation then m.reputation else m.reputation[node := reputation])
  }

  /** Whoever is known keeps what it has; a new peer has what it claims. */
  lemma IntroducedMeans(m: Manager, node: NodeId, reputation: nat)
    ensures var after := Introduced(m, node, reputation);
            && after.reputation.Keys == m.reputation.Keys + {node}
            && (forall n :: n in m.reputation ==> after.reputation[n] == m.reputation[n])
            && (node !in m.reputation ==> after.reputation[node] == reputation)
            && after == m.(reputation := after.reputation)
  {
  }

  ghost predicate Reselected(hash: NodeHash, m: Manager, seed: Seed, m': Manager) {
    m' == m.(committee := m'.committee) && IsTop(m'.committee, m.reputation.Keys, Score(hash, seed, m.reputation))
  }

  ghost predicate OpStep(hash: NodeHash, m: Manager, op: Op, m': Manager) {
    match op
    case Handles(msg) => m' == Handle(m, msg).0
    case Validates(h, t) => m' == PporProtocol.MarkValidated(m, h, t).0
    case Proposes(h, n, t) => m' == PporProtocol.Propose(m, h, n, t).0
    case Rotates(timedOut) => Rotated(hash, m, timedOut, m')
    case Reselects(seed) => Reselected(hash, m, seed, m')
    case Adjusts(node, delta) => m' == m.(reputation := Adjusted(m.reputation, node, delta))
    case PeerAnnounces(node, reputation) =>
      Reselected(hash, Introduced(m, node, reputation), Seed(m.lastFinalizedHash, m.epoch), m')
    case Drops(h) => m' == m.(states := m.states - {h})
  }

  /** The operations that a round of the chain, or the start of an event, consists of. */
  lemma RoundIsOps(hash: NodeHash, a: Station, t: Tick, b: Station) returns (mid: Manager)
    requires Round(hash, a, t, b)
    ensures mid == a.m || OpStep(hash, a.m, Rotates(t.timedOut), mid)
    ensures b.m == mid || (a.current.Some? && OpStep(hash, mid, Handles(a.current.value), b.m))
  {
    hide Handle, Rotated;
    mid := a.m;
    if a.current.Some? { mid :| Turned(hash, a.m, t, mid) && Handle(mid, a.current.value) == (b.m, b.current); }
  }

  lemma BeginIsOps(hash: NodeHash, m: Manager, e: Event, t: Tick, first: Station) returns (mid: Manager, op: Op)
    requires Begins(hash, m, e, t, first)
    ensures mid == m || (t.expired && OpStep(hash, m, Rotates(t.timedOut), mid))
    ensures match e
            case DirectVote(msg) => first == Station(m, Some(msg))
            case GossipVote(msg) => op == Handles(msg)
            case LocalValidation(h, ty) => op == Validates(h, ty)
            case Relay(h, n, ty) => mid == m && op == Proposes(h, n, ty)
    ensures !e.DirectVote? ==> OpStep(hash, mid, op, first.m) && SentBy(mid, op) == first.current
  {
    hide Handle, Rotated, PporProtocol.MarkValidated, PporProtocol.Propose;
    mid, op := m, Rotates({});
    match e
    case DirectVote(_) =>
    case GossipVote(msg) =>
      mid :| Turned(hash, m, t, mid) && Handle(mid, msg) == (first.m, first.current);
      op := Handles(msg);
    case LocalValidation(h, ty) =>
      mid :| Turned(hash, m, t, mid) && PporProtocol.MarkValidated(mid, h, ty) == (first.m, first.current);
      op := Validates(h, ty);
    case Relay(h, n, ty) => op := Proposes(h, n, ty);
  }

  /** There is always someone to validate, and everyone seated has a reputation. */
  ghost predicate CommitteeSound(m: Manager) {
    m.committee != {} && m.committee <= m.reputation.Keys
  }

  lemma HandleKeepsSound(m: Manager, msg: Message)
    requires CommitteeSound(m)
    ensures CommitteeSound(Handle(m, msg).0)
  {
    hide Process, StateFor;
  }

  lemma TopIsSound(chosen: set<NodeId>, table: set<NodeId>, score: NodeId -> nat)
    requires IsTop(chosen, table, score) && table != {}
    ensures chosen != {} && chosen <= table && |chosen| == Min(|table|, COMMITTEE_SIZE)
  {
    assert |table| != 0;
  }

  lemma SelectionIsSound(hash: NodeHash, m: Manager, seed: Seed, m': Manager)
    requires Reselected(hash, m, seed, m') && m.reputation != map[]
    ensures CommitteeSound(m') && m'.reputation == m.reputation && |m'.committee| == Min(|m.reputation|, COMMITTEE_SIZE)
  {
    hide Score;
    assert |m.reputation| == |m.reputation.Keys| && m.reputation.Keys != {};
    TopIsSound(m'.committee, m.reputation.Keys, Score(hash, seed, m.reputation));
  }

  predicate Selects(op: Op) { op.Rotates? || op.Reselects? || op.PeerAnnounces? }

  lemma OpKeepsSound(hash: NodeHash, m: Manager, op: Op, m': Manager)
    requires CommitteeSound(m) && OpStep(hash, m, op, m')
    ensures CommitteeSound(m') && (Selects(op) ==> |m'.committee| == Min(|m'.reputation|, COMMITTEE_SIZE))
  {
    hide Handle, Score, Reselected, Validate, StateFor;
    assert m.reputation != map[];
    match op
    case Handles(msg) => HandleKeepsSound(m, msg);
    case Rotates(timedOut) => RotationReselects(hash, m, timedOut, m');
    case Reselects(seed) => SelectionIsSound(hash, m, seed, m');
    case PeerAnnounces(node, reputation) =>
      SelectionIsSound(hash, Introduced(m, node, reputation), Seed(m.lastFinalizedHash, m.epoch), m');
    case _ =>
  }

  lemma RotationReselects(hash: NodeHash, m: Manager, timedOut: set<TxHash>, m': Manager)
    requires Rotated(hash, m, timedOut, m') && m.reputation != map[]
    ensures CommitteeSound(m') && |m'.committee| == Min(|m'.reputation|, COMMITTEE_SIZE)
  {
    hide Score;
    SelectionIsSound(hash, m.(states := m.states - timedOut, epoch := m.epoch + 1),
        Seed(m.lastFinalizedHash, m.epoch + 1), m');
  }

  /** Over every run, whatever the votes, rotations (between the rounds of a chain
      too), announced peers and reputation changes, the committee stays non-empty
      and within the reputation table; a selection seats as many members as there
      are seats or nodes. */
  lemma {:induction false} CommitteeAlwaysSound(hash: NodeHash, run: seq<Manager>, ops: seq<Op>, k: nat)
    requires |run| == |ops| + 1 && k < |run| && CommitteeSound(run[0])
    requires forall i :: 0 <= i < |ops| ==> OpStep(hash, run[i], ops[i], run[i + 1])
    ensures CommitteeSound(run[k])
    ensures k > 0 && Selects(ops[k - 1]) ==> |run[k].committee| == Min(|run[k].reputation|, COMMITTEE_SIZE)
  {
    hide OpStep, CommitteeSound, Selects;
    if k > 0 {
      CommitteeAlwaysSound(hash, run, ops, k - 1);
      OpKeepsSound(hash, run[k - 1], ops[k - 1], run[k]);
    }
  }

  // ----- The chain returns nothing -----

  lemma OpMovesOn(hash: NodeHash, m: Manager, op: Op, m': Manager)
    requires MovedOn(m) && OpStep(hash, m, op, m')
    ensures MovedOn(m')
  {
    hide Handle, Score, IsTop, Reply;
    match op
    case Handles(msg) => HandleMovesOn(m, msg);
    case _ =>
  }

  /** After every run from a new manager, and whatever epochs turn meanwhile: the
      chain that the event loop then starts returns nothing. */
  lemma {:induction false} ChainAlwaysReturnsNothing(hash: NodeHash, run: seq<Manager>, ops: seq<Op>,
                                                     trace: seq<Station>, ticks: seq<Tick>)
    requires |run| == |ops| + 1 && run[0].states == map[]
    requires forall i :: 0 <= i < |ops| ==> OpStep(hash, run[i], ops[i], run[i + 1])
    requires Chained(hash, trace, ticks) && |ticks| == CHAIN_ROUNDS && trace[0].m == run[|ops|]
    ensures trace[CHAIN_ROUNDS].current == None
  {
    hide MovedOn, Chained, OpStep;
    RunMovesOn(hash, run, ops, |ops|);
    ChainReturnsNothing(hash, trace, ticks);
  }

  lemma {:induction false} RunMovesOn(hash: NodeHash, run: seq<Manager>, ops: seq<Op>, k: nat)
    requires |run| == |ops| + 1 && k < |run| && run[0].states == map[]
    requires forall i :: 0 <= i < |ops| ==> OpStep(hash, run[i], ops[i], run[i + 1])
    ensures MovedOn(run[k])
  {
    hide OpStep;
    if k > 0 {
      RunMovesOn(hash, run, ops, k - 1);
      OpMovesOn(hash, run[k - 1], ops[k - 1], run[k]);
    }
  }

  // ----- Votes and the committee snapshot -----

  /** All votes counted for a transaction are those of the committee its quorum is sized by. */
  ghost predicate VotesInSnapshot(m: Manager) {
    forall h :: h in m.states ==>
        m.states[h].prepares <= m.states[h].committee && m.states[h].commits <= m.states[h].committee
  }

  /** A vote of a sender who is seated now and was not when the transaction began. */
  predicate Foreign(m: Manager, msg: Message) {
    && (msg.phase == Prepare || msg.phase == Commit) && msg.sender in m.committee
    && msg.sender !in StateFor(m, msg.txHash, msg.view, msg.sequence, msg.txType).committee
  }

  /** Senders are tested against the current committee but counted against the
      snapshot, so after a selection a foreign vote can be counted: a message
      keeps votes within the snapshot exactly when it is no vote, its sender is
      not seated, or its sender was seated when the transaction began. */
  lemma ForeignVoteCountedIff(m: Manager, msg: Message)
    requires VotesInSnapshot(m)
    ensures VotesInSnapshot(Handle(m, msg).0) <==> !Foreign(m, msg)
  {
    hide Handle;
    HandledVotes(m, msg);
    var m1, s := Handle(m, msg).0, StateFor(m, msg.txHash, msg.view, msg.sequence, msg.txType);
    assert s.prepares <= s.committee && s.commits <= s.committee;
    forall h | h in m1.states && h != msg.txHash
      ensures m1.states[h].prepares <= m1.states[h].committee && m1.states[h].commits <= m1.states[h].committee
    {
      assert m1.states[h] == m.states[h];
    }
  }

  /** Handling changes one transaction, by at most the sender's vote. */
  lemma HandledVotes(m: Manager, msg: Message)
    ensures var m1, s := Handle(m, msg).0, StateFor(m, msg.txHash, msg.view, msg.sequence, msg.txType);
            && m1.states.Keys == m.states.Keys + {msg.txHash}
                 && (forall h :: h in m.states && h != msg.txHash ==> m1.states[h] == m.states[h])
            && m1.states[msg.txHash].committee == s.committee
            && m1.states[msg.txHash].prepares
                 == s.prepares + (if msg.phase == Prepare && msg.sender in m.committee then {msg.sender} else {})
            && m1.states[msg.txHash].commits
                 == s.commits + (if msg.phase == Commit && msg.sender in m.committee then {msg.sender} else {})
  {
    hide StateFor, Reply, Adjusted, Process, AfterTransition;
    var s := StateFor(m, msg.txHash, msg.view, msg.sequence, msg.txType);
    ProcessedVotes(s, msg.phase, msg.sender);
    forall m0: Manager, p { TransitionKeepsStates(m0, msg.sender, p, s.txHash); }
  }

  lemma ProcessedVotes(s: TxState, phase: Phase, sender: NodeId)
    ensures var s1 := Process(s, phase, sender).0;
            && s1.committee == s.committee && s1.txHash == s.txHash
            && s1.prepares == s.prepares + (if phase == Prepare then {sender} else {})
            && s1.commits == s.commits + (if phase == Commit then {sender} else {})
  {
    hide RequiredVotes;
    assert s.prepares + {} == s.prepares && s.commits + {} == s.commits;
    match phase
    case PrePrepare =>
    case Prepare => PreparedVotes(s, sender);
    case Commit => CommittedVotes(s, sender);
    case Finalized =>
  }

  lemma PreparedVotes(s: TxState, sender: NodeId)
    ensures var s1 := Process(s, Prepare, sender).0;
            && s1.committee == s.committee && s1.txHash == s.txHash
            && s1.prepares == s.prepares + {sender} && s1.commits == s.commits
  {
    hide RequiredVotes;
  }

  lemma CommittedVotes(s: TxState, sender: NodeId)
    ensures var s1 := Process(s, Commit, sender).0;
            && s1.committee == s.committee && s1.txHash == s.txHash
            && s1.prepares == s.prepares && s1.commits == s.commits + {sender}
  {
    hide RequiredVotes;
  }

  lemma TransitionKeepsStates(m: Manager, sender: NodeId, phase: Phase, txHash: TxHash)
    ensures AfterTransition(m, sender, phase, txHash).states == m.states
  {
  }

  lemma OtherOpsKeepSnapshot(hash: NodeHash, m: Manager, op: Op, m': Manager)
    requires VotesInSnapshot(m) && OpStep(hash, m, op, m') && !op.Handles?
    ensures VotesInSnapshot(m')
  {
    hide Score, Reply, IsTop;
  }

  /** Over every run: all votes counted stay within the snapshots throughout exactly
      if no vote that came was foreign when it came. */
  lemma {:induction false} SnapshotsAlwaysIff(hash: NodeHash, run: seq<Manager>, ops: seq<Op>)
    requires |run| == |ops| + 1 && VotesInSnapshot(run[0])
    requires forall i :: 0 <= i < |ops| ==> OpStep(hash, run[i], ops[i], run[i + 1])
    ensures (forall i :: 0 <= i < |run| ==> VotesInSnapshot(run[i]))
            <==> forall i :: 0 <= i < |ops| && ops[i].Handles? ==> !Foreign(run[i], ops[i].msg)
    decreases |ops|
  {
    hide OpStep, VotesInSnapshot, Foreign;
    if ops != [] {
      var n := |ops| - 1;
      var before := run[..n + 1];
      SnapshotsAlwaysIff(hash, before, ops[..n]);
      if forall i :: 0 <= i < |before| ==> VotesInSnapshot(before[i]) {
        assert VotesInSnapshot(before[n]);
        SnapshotStep(hash, run[n], ops[n], run[n + 1]);
      }
    }
  }

  lemma SnapshotStep(hash: NodeHash, m: Manager, op: Op, m': Manager)
    requires VotesInSnapshot(m) && OpStep(hash, m, op, m')
    ensures VotesInSnapshot(m') <==> op.Handles? ==> !Foreign(m, op.msg)
  {
    hide VotesInSnapshot, Foreign;
    if op.Handles? { ForeignVoteCountedIff(m, op.msg); } else { OtherOpsKeepSnapshot(hash, m, op, m'); }
  }

  lemma BeganOrWas(hash: NodeHash, m: Manager, op: Op, m': Manager, h: TxHash)
    requires OpStep(hash, m, op, m') && h in m'.states
    ensures m'.states[h].committee == m.committee
              || (h in m.states && m'.states[h].committee == m.states[h].committee)
  {
    hide Score, Reply, IsTop, Handle, StateFor;
    match op
    case Handles(msg) =>
      HandledVotes(m, msg);
      assert StateFor(m, msg.txHash, msg.view, msg.sequence, msg.txType).committee
          == if msg.txHash in m.states then m.states[msg.txHash].committee else m.committee by { CommitteeFor(m, msg); }
    case Validates(g, t) => ValidatedCommittee(m, g, t);
    case _ =>
  }

  lemma CommitteeFor(m: Manager, msg: Message)
    ensures StateFor(m, msg.txHash, msg.view, msg.sequence, msg.txType).committee
         == if msg.txHash in m.states then m.states[msg.txHash].committee else m.committee
  {
  }

  lemma ValidatedCommittee(m: Manager, h: TxHash, t: int)
    ensures var m' := PporProtocol.MarkValidated(m, h, t).0;
            && m'.states.Keys == m.states.Keys + {h}
            && (forall g :: g in m.states && g != h ==> m'.states[g] == m.states[g])
            && m'.states[h].committee == if h in m.states then m.states[h].committee else m.committee
  {
    hide Reply;
  }

  /** The snapshot of a transaction is the committee of the moment when it began. */
  lemma {:induction false} SnapshotOrigin(hash: NodeHash, run: seq<Manager>, ops: seq<Op>, k: nat, h: TxHash)
      returns (j: nat)
    requires |run| == |ops| + 1 && k < |run| && run[0].states == map[] && h in run[k].states
    requires forall i :: 0 <= i < |ops| ==> OpStep(hash, run[i], ops[i], run[i + 1])
    ensures j < k && run[j].committee == run[k].states[h].committee
    ensures forall i :: j < i <= k ==> h in run[i].states && run[i].states[h].committee == run[j].committee
  {
    hide OpStep;
    j := k - 1;
    BeganOrWas(hash, run[j], ops[j], run[k], h);
    if run[k].states[h].committee != run[j].committee { j := SnapshotOrigin(hash, run, ops, j, h); }
  }

  function NewManager(): Manager { Manager(map[], 0, "a", map["a" := 100], {"a"}, "genesis_hash", 0) }

  function FirstVote(sender: NodeId): Message { Message(Prepare, 0, 0, "h", sender, 3) }

  /** It happens: a transaction begins with a committee of one, a peer announces
      itself and is seated, and its vote is counted for that transaction. */
  lemma ForeignVoteCounted(hash: NodeHash) returns (run: seq<Manager>, ops: seq<Op>)
    ensures |run| == |ops| + 1 && run[0] == NewManager() && VotesInSnapshot(run[0])
    ensures forall i :: 0 <= i < |ops| ==> OpStep(hash, run[i], ops[i], run[i + 1])
    ensures "h" in run[|ops|].states && "b" in run[|ops|].states["h"].prepares
              && run[|ops|].states["h"].committee == {"a"} && !VotesInSnapshot(run[|ops|])
  {
    hide Score;
    var m1 := Handle(NewManager(), FirstVote("a")).0;
    var m2 := Introduced(m1, "b", 0).(committee := {"a", "b"});
    var m3 := Handle(m2, FirstVote("b")).0;
    ops := [Handles(FirstVote("a")), PeerAnnounces("b", 0), Handles(FirstVote("b"))];
    run := [NewManager(), m1, m2, m3];
    assert OpStep(hash, m1, ops[1], m2) by { BothSeated(hash, m1, m2); }
  }

  lemma BothSeated(hash: NodeHash, m: Manager, m': Manager)
    requires m.reputation.Keys == {"a"} && m' == Introduced(m, "b", 0).(committee := {"a", "b"})
    ensures OpStep(hash, m, PeerAnnounces("b", 0), m')
  {
    hide Score;
    assert Introduced(m, "b", 0).reputation.Keys == {"a", "b"};
  }

  // ----- What messages carry -----

  /** What an operation begins a transaction with, if it does. */
  function BegunAs(m: Manager, op: Op, h: TxHash): Option<(nat, nat, int)> {
    match op
    case Handles(msg) =>
      if msg.txHash == h && h !in m.states then Some((msg.view, msg.sequence, msg.txType)) else None
    case Validates(g, t) => if g == h && h !in m.states then Some((m.view, 0, t)) else None
    case Proposes(g, n, t) => if g == h && m.nodeId in m.committee then Some((m.view, n, t)) else None
    case _ => None
  }

  /** The message that an operation has the node send. */
  function SentBy(m: Manager, op: Op): Option<Message> {
    match op
    case Handles(msg) => Handle(m, msg).1
    case Validates(h, t) => PporProtocol.MarkValidated(m, h, t).1
    case Proposes(h, n, t) => PporProtocol.Propose(m, h, n, t).1
    case _ => None
  }

  /** A transaction keeps what it began with. */
  lemma KindKept(hash: NodeHash, m: Manager, op: Op, m': Manager, h: TxHash)
    requires OpStep(hash, m, op, m') && Keyed(m)
    ensures Keyed(m')
    ensures h in m'.states ==>
              match BegunAs(m, op, h)
              case Some(kind) => Kind(m'.states[h]) == kind
              case None => h in m.states && Kind(m'.states[h]) == Kind(m.states[h])
  {
    hide Score, Reply, IsTop, Handle, PporProtocol.MarkValidated;
    match op
    case Handles(msg) => HandleMeans(m, msg);
    case Validates(g, t) => MarkValidatedMeans(m, g, t);
    case _ =>
  }

  /** A message carries what its transaction has. */
  lemma SentCarries(hash: NodeHash, m: Manager, op: Op, m': Manager)
    requires OpStep(hash, m, op, m') && Keyed(m) && SentBy(m, op).Some?
    ensures var sent := SentBy(m, op).value;
            && sent.txHash in m'.states && sent.sender == m.nodeId && sent.phase == m'.states[sent.txHash].phase
            && (sent.view, sent.sequence, sent.txType) == Kind(m'.states[sent.txHash])
  {
    hide Score, Reply, IsTop, Handle, PporProtocol.MarkValidated;
    match op
    case Handles(msg) => HandleMeans(m, msg);
    case Validates(g, t) => MarkValidatedMeans(m, g, t);
    case _ =>
  }

  /** In `run` the transaction began at `j`, and was kept until `k`. */
  ghost predicate BeganAt(run: seq<Manager>, ops: seq<Op>, h: TxHash, j: nat, k: nat) {
    && j < k < |run| == |ops| + 1 && BegunAs(run[j], ops[j], h).Some?
    && forall i :: j < i < k ==> BegunAs(run[i], ops[i], h) == None
  }

  lemma {:induction false} KindOrigin(hash: NodeHash, run: seq<Manager>, ops: seq<Op>, k: nat, h: TxHash)
      returns (j: nat)
    requires |run| == |ops| + 1 && k < |run| && run[0].states == map[] && h in run[k].states
    requires forall i :: 0 <= i < |ops| ==> OpStep(hash, run[i], ops[i], run[i + 1])
    ensures BeganAt(run, ops, h, j, k) && BegunAs(run[j], ops[j], h) == Some(Kind(run[k].states[h]))
  {
    hide OpStep, BegunAs;
    j := k - 1;
    AlwaysKeyed(hash, run, ops, j);
    KindKept(hash, run[j], ops[j], run[k], h);
    if BegunAs(run[j], ops[j], h) == None { j := KindOrigin(hash, run, ops, j, h); }
  }

  lemma {:induction false} AlwaysKeyed(hash: NodeHash, run: seq<Manager>, ops: seq<Op>, k: nat)
    requires |run| == |ops| + 1 && k < |run| && run[0].states == map[]
    requires forall i :: 0 <= i < |ops| ==> OpStep(hash, run[i], ops[i], run[i + 1])
    ensures Keyed(run[k])
  {
    hide OpStep;
    if k > 0 {
      AlwaysKeyed(hash, run, ops, k - 1);
      KindKept(hash, run[k - 1], ops[k - 1], run[k], "");
    }
  }

  /** Over every run from a new manager: each message that the node sends for a
      transaction carries the view, the sequence and the type with which the
      transaction began here. */
  lemma MessagesCarryTheirBeginning(hash: NodeHash, run: seq<Manager>, ops: seq<Op>, k: nat) returns (j: nat)
    requires |run| == |ops| + 1 && k < |ops| && run[0].states == map[]
    requires forall i :: 0 <= i < |ops| ==> OpStep(hash, run[i], ops[i], run[i + 1])
    requires SentBy(run[k], ops[k]).Some?
    ensures var sent := SentBy(run[k], ops[k]).value;
            && BeganAt(run, ops, sent.txHash, j, k + 1)
            && BegunAs(run[j], ops[j], sent.txHash) == Some((sent.view, sent.sequence, sent.txType))
  {
    hide OpStep, BegunAs, SentBy;
    AlwaysKeyed(hash, run, ops, k);
    SentCarries(hash, run[k], ops[k], run[k + 1]);
    j := KindOrigin(hash, run, ops, k + 1, SentBy(run[k], ops[k]).value.txHash);
  }
}
