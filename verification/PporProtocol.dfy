/** The vote machine of `ppor.rs` as functions on values: one transaction, the
    manager that holds all of them, and the self-delivery chain of
    `swarm_loop.rs`. The classes of module Ppor are proved against these. */
module PporProtocol {
  import opened Wrappers
  import opened Quorum

  type NodeId = string
  type TxHash = string

  datatype Phase = PrePrepare | Prepare | Commit | Finalized

  datatype Message = Message(
    phase: Phase, view: nat, sequence: nat, txHash: TxHash, sender: NodeId, txType: int)

  datatype TxState = TxState(
    view: nat, sequence: nat, txHash: TxHash, txType: int,
    phase: Phase, prepares: set<NodeId>, commits: set<NodeId>,
    committee: set<NodeId>, validated: bool)

  function NewTx(view: nat, sequence: nat, txHash: TxHash, txType: int, committee: set<NodeId>): TxState {
    TxState(view, sequence, txHash, txType, PrePrepare, {}, {}, committee, false)
  }

  function Process(s: TxState, phase: Phase, sender: NodeId): (TxState, Option<Phase>) {
    var q := RequiredVotes(|s.committee|);
    match phase
    case PrePrepare =>
      if s.phase == PrePrepare && s.validated then (s.(phase := Prepare), Some(Prepare)) else (s, None)
    case Prepare =>
      var s1 := s.(prepares := s.prepares + {sender});
      if s.phase == Prepare && |s1.prepares| >= q then (s1.(phase := Commit), Some(Commit)) else (s1, None)
    case Commit =>
      var s1 := s.(commits := s.commits + {sender});
      if s.phase == Commit && |s1.commits| >= q then (s1.(phase := Finalized), Some(Finalized)) else (s1, None)
    case Finalized => (s, None)
  }

  function Validate(s: TxState): (TxState, Option<Phase>) {
    var s1 := s.(validated := true);
    if s.phase == PrePrepare then (s1.(phase := Prepare), Some(Prepare)) else (s1, None)
  }

  // ----- The manager of one node -----

  datatype Manager = Manager(
    states: map<TxHash, TxState>, view: nat, nodeId: NodeId,
    reputation: map<NodeId, nat>, committee: set<NodeId>,
    lastFinalizedHash: TxHash, epoch: nat)

  function Max(a: int, b: int): int { if a >= b then a else b }

  /** Reputation never falls below 1; an unknown node starts from 10. */
  function Adjusted(table: map<NodeId, nat>, node: NodeId, delta: int): map<NodeId, nat> {
    table[node := Max((if node in table then table[node] else 10) + delta, 1)]
  }

  const REP_PREPARE_VOTE := 1
  const REP_COMMIT_VOTE := 2

  /** The vote a phase change makes this node send, if it is a validator. */
  function Reply(m: Manager, s: TxState, phase: Phase): Option<Message> {
    if m.nodeId in m.committee
    then Some(Message(phase, s.view, s.sequence, s.txHash, m.nodeId, s.txType))
    else None
  }

  function Propose(m: Manager, txHash: TxHash, sequence: nat, txType: int): (Manager, Option<Message>) {
    if m.nodeId !in m.committee then (m, None)
    else
      var s := NewTx(m.view, sequence, txHash, txType, m.committee);
      (m.(states := m.states[txHash := s]),
       Some(Message(PrePrepare, m.view, sequence, txHash, m.nodeId, txType)))
  }

  function StateFor(m: Manager, txHash: TxHash, view: nat, sequence: nat, txType: int): TxState {
    if txHash in m.states then m.states[txHash] else NewTx(view, sequence, txHash, txType, m.committee)
  }

  /** What a phase change caused by `sender` does to the rest of the manager. */
  function AfterTransition(m: Manager, sender: NodeId, phase: Phase, txHash: TxHash): Manager {
    match phase
    case Prepare => m.(reputation := Adjusted(m.reputation, sender, REP_PREPARE_VOTE))
    case Commit => m.(reputation := Adjusted(m.reputation, sender, REP_COMMIT_VOTE))
    case Finalized => m.(lastFinalizedHash := txHash)
    case PrePrepare => m
  }

  /** `handle_message` while the epoch is running. */
  function Handle(m: Manager, msg: Message): (Manager, Option<Message>) {
    var rep := if msg.sender in m.reputation then m.reputation else m.reputation[msg.sender := 10];
    var s := StateFor(m, msg.txHash, msg.view, msg.sequence, msg.txType);
    if msg.sender !in m.committee then
      (m.(reputation := rep, states := m.states[msg.txHash := s]), None)
    else
      var (s1, phase) := Process(s, msg.phase, msg.sender);
      var m1 := m.(reputation := rep, states := m.states[msg.txHash := s1]);
      match phase
      case None => (m1, None)
      case Some(p) => (AfterTransition(m1, msg.sender, p, s1.txHash), Reply(m, s1, p))
  }

  /** `mark_validated` while the epoch is running. */
  function MarkValidated(m: Manager, txHash: TxHash, txType: int): (Manager, Option<Message>) {
    var (s1, phase) := Validate(StateFor(m, txHash, m.view, 0, txType));
    var m1 := m.(states := m.states[txHash := s1]);
    match phase
    case None => (m1, None)
    case Some(p) => (m1, Reply(m, s1, p))
  }

  // ----- The event loop's use of the manager -----

  /** Three rounds of handling one's own latest reply; the replies are also
      sent to the committee, in order. */
  function Chain(m: Manager, current: Option<Message>, rounds: nat): (Manager, Option<Message>, seq<Message>)
    decreases rounds
  {
    if rounds == 0 then (m, current, [])
    else match current
      case None => Chain(m, None, rounds - 1)
      case Some(msg) =>
        var (m1, next) := Handle(m, msg);
        var (m2, last, sent) := Chain(m1, next, rounds - 1);
        (m2, last, (if next.Some? then [next.value] else []) + sent)
  }

  const CHAIN_ROUNDS := 3

  /** What can reach a node: a vote sent to it directly or by gossip, a
      transaction that passes local validation, a relayed proposal. */
  datatype Event =
    | DirectVote(msg: Message)
    | GossipVote(msg: Message)
    | LocalValidation(txHash: TxHash, txType: int)
    | Relay(txHash: TxHash, sequence: nat, txType: int)

  function OptionSeq<T>(o: Option<T>): seq<T> { if o.Some? then [o.value] else [] }

  /** One event with a chain of `rounds` rounds: the new manager, the value
      `self_deliver_pbft_chain` returns, and every message sent. */
  function ReactFor(m: Manager, e: Event, rounds: nat): (Manager, Option<Message>, seq<Message>) {
    match e
    case DirectVote(msg) => Chain(m, Some(msg), rounds)
    case GossipVote(msg) =>
      var (m1, reply) := Handle(m, msg);
      var (m2, last, sent) := Chain(m1, reply, rounds);
      (m2, last, OptionSeq(reply) + sent)
    case LocalValidation(h, t) =>
      var (m1, reply) := MarkValidated(m, h, t);
      var (m2, last, sent) := Chain(m1, reply, rounds);
      (m2, last, OptionSeq(reply) + sent)
    case Relay(h, n, t) =>
      var (m1, proposal) := Propose(m, h, n, t);
      var (m2, last, sent) := Chain(m1, proposal, rounds);
      (m2, last, OptionSeq(proposal) + sent)
  }

  function React(m: Manager, e: Event): (Manager, Option<Message>, seq<Message>) {
    ReactFor(m, e, CHAIN_ROUNDS)
  }

  function Run(m: Manager, events: seq<Event>): Manager {
    if events == [] then m
    else React(Run(m, events[..|events| - 1]), events[|events| - 1]).0
  }

  // ----- What handling does, in full -----

  /** Transactions are kept under their own hashes. */
  ghost predicate Keyed(m: Manager) { forall h :: h in m.states ==> m.states[h].txHash == h }

  /** What a transaction began with. */
  function Kind(s: TxState): (nat, nat, int) { (s.view, s.sequence, s.txType) }

  /** A vote joins its kind's voters; a quorum of Prepare votes moves Prepare to Commit,
      one of Commit votes Commit to Finalized, and a PrePrepare what is validated on
      to Prepare. */
  lemma VotesMean(s: TxState, phase: Phase, sender: NodeId)
    ensures var (s1, next) := Process(s, phase, sender);
            && s1 == s.(phase := s1.phase, prepares := s1.prepares, commits := s1.commits)
            && s1.prepares == (if phase == Prepare then s.prepares + {sender} else s.prepares)
            && s1.commits == (if phase == Commit then s.commits + {sender} else s.commits)
            && s1.phase ==
               (if phase == PrePrepare == s.phase && s.validated then Prepare
                else if phase == Prepare == s.phase && |s1.prepares| >= RequiredVotes(|s.committee|) then Commit
                else if phase == Commit == s.phase && |s1.commits| >= RequiredVotes(|s.committee|) then Finalized
                else s.phase)
            && next == if s1.phase != s.phase then Some(s1.phase) else None
  {
    hide RequiredVotes;
    match phase
    case PrePrepare =>
    case Prepare =>
    case Commit =>
    case Finalized =>
  }

  /** A phase is reported exactly if it is a new one. */
  lemma ProcessMeans(s: TxState, phase: Phase, sender: NodeId)
    ensures var (s1, next) := Process(s, phase, sender);
            && s1.txHash == s.txHash && Kind(s1) == Kind(s) && s1.committee == s.committee
            && (next.Some? <==> s1.phase != s.phase) && (next.Some? ==> next.value == s1.phase != PrePrepare)
  {
    hide RequiredVotes;
    match phase
    case PrePrepare =>
    case Prepare =>
    case Commit =>
    case Finalized =>
  }

  /** A node answers a message exactly if it is a validator and the message moved
      the transaction on; the answer tells the phase reached, and everything else in
      it is the transaction's own: the hash, and the view, sequence and type with
      which it began, from this very message if it was not known. Other
      transactions stay. */
  lemma HandleMeans(m: Manager, msg: Message)
    requires Keyed(m)
    ensures var (m1, reply) := Handle(m, msg);
            var h := msg.txHash;
            && Keyed(m1) && m1.states.Keys == m.states.Keys + {h}
            && m1.committee == m.committee && m1.nodeId == m.nodeId && m1.epoch == m.epoch && m1.view == m.view
            && (forall g :: g in m.states && g != h ==> m1.states[g] == m.states[g])
            && Kind(m1.states[h])
                 == (if h in m.states then Kind(m.states[h]) else (msg.view, msg.sequence, msg.txType))
            && m1.states[h].committee == (if h in m.states then m.states[h].committee else m.committee)
            && (reply.Some? <==> m.nodeId in m.committee && m1.states[h].phase != PhaseAt(m, h))
            && (reply.Some? ==>
                  var s := m1.states[h];
                  reply.value == Message(s.phase, s.view, s.sequence, h, m.nodeId, s.txType))
  {
    hide Process;
    var s := StateFor(m, msg.txHash, msg.view, msg.sequence, msg.txType);
    ProcessMeans(s, msg.phase, msg.sender);
    var (s1, next) := Process(s, msg.phase, msg.sender);
    assert msg.sender in m.committee ==> Handle(m, msg).0.states == m.states[msg.txHash := s1];
  }

  function PhaseAt(m: Manager, h: TxHash): Phase { if h in m.states then m.states[h].phase else PrePrepare }

  /** A sender that is not known enters the table with 10; one that brings a
      transaction to Prepare gains 1, to Commit 2; no other node's reputation
      changes. The hash that seeds the next committee is the latest finalized. */
  lemma HandleRewards(m: Manager, msg: Message)
    ensures var m1, h := Handle(m, msg).0, msg.txHash;
            var was, now := PhaseAt(m, h), PhaseAt(m1, h);
            && m1.reputation.Keys == m.reputation.Keys + {msg.sender}
            && (forall n :: n in m.reputation && n != msg.sender ==> m1.reputation[n] == m.reputation[n])
            && m1.reputation[msg.sender]
                 == (if msg.sender in m.reputation then m.reputation[msg.sender] else 10)
                    + (if now == was then 0 else if now == Prepare then 1 else if now == Commit then 2 else 0)
            && (Keyed(m) ==>
                  m1.lastFinalizedHash == if now != was && now == Finalized then h else m.lastFinalizedHash)
  {
    hide Process;
    var s := StateFor(m, msg.txHash, msg.view, msg.sequence, msg.txType);
    ProcessMeans(s, msg.phase, msg.sender);
    var (s1, next) := Process(s, msg.phase, msg.sender);
    assert msg.sender in m.committee ==> Handle(m, msg).0.states == m.states[msg.txHash := s1];
  }

  lemma MarkValidatedMeans(m: Manager, h: TxHash, txType: int)
    requires Keyed(m)
    ensures var (m1, reply) := MarkValidated(m, h, txType);
            && Keyed(m1) && m1 == m.(states := m1.states) && m1.states.Keys == m.states.Keys + {h}
            && (forall g :: g in m.states && g != h ==> m1.states[g] == m.states[g])
            && Kind(m1.states[h]) == (if h in m.states then Kind(m.states[h]) else (m.view, 0, txType))
            && m1.states[h].committee == (if h in m.states then m.states[h].committee else m.committee)
            && m1.states[h].validated
            && m1.states[h].phase == (if PhaseAt(m, h) == PrePrepare then Prepare else PhaseAt(m, h))
            && (reply.Some? <==> m.nodeId in m.committee && PhaseAt(m, h) == PrePrepare)
            && (reply.Some? ==>
                  var s := m1.states[h];
                  reply.value == Message(Prepare, s.view, s.sequence, h, m.nodeId, s.txType))
  {
  }
}
