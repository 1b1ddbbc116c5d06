/** The classes of `ppor.rs`, updated in place, each method proved against the
    value functions of PporProtocol; and the event loop's use of them. */
module Ppor {
  import opened Basics
  import opened Wrappers
  import opened Quorum
  import opened PporProtocol
  import opened Committee
  import opened PporClock
  import opened Tables

  class PporState {
    const view: nat
    const sequence: nat
    const txHash: TxHash
    const txType: int
    var phase: Phase
    var prepares: set<NodeId>
    var commits: set<NodeId>
    const committee: set<NodeId>
    var isValidated: bool

    constructor (view: nat, sequence: nat, txHash: TxHash, txType: int, committee: set<NodeId>)
      ensures Value() == NewTx(view, sequence, txHash, txType, committee)
    {
      this.view, this.sequence, this.txHash, this.txType := view, sequence, txHash, txType;
      phase, prepares, commits := PrePrepare, {}, {};
      this.committee, isValidated := committee, false;
    }

    function Value(): TxState
      reads this
    {
      TxState(view, sequence, txHash, txType, phase, prepares, commits, committee, isValidated)
    }

    method ProcessMessage(msg: Message) returns (next: Option<Phase>)
      modifies this
      ensures (Value(), next) == Process(old(Value()), msg.phase, msg.sender)
    {
      match msg.phase {
        case PrePrepare =>
          if phase == PrePrepare && isValidated {
            phase := Prepare;
            return Some(Prepare);
          }
        case Prepare =>
          prepares := prepares + {msg.sender};
          if phase == Prepare && |prepares| >= RequiredVotes(|committee|) {
            phase := Commit;
            return Some(Commit);
          }
        case Commit =>
          commits := commits + {msg.sender};
          if phase == Commit && |commits| >= RequiredVotes(|committee|) {
            phase := Finalized;
            return Some(Finalized);
          }
        case Finalized =>
      }
      return None;
    }

    method MarkValidated() returns (next: Option<Phase>)
      modifies this
      ensures (Value(), next) == Validate(old(Value()))
      ensures isValidated && phase == if old(phase) == PrePrepare then Prepare else old(phase)
      ensures next == if phase != old(phase) then Some(phase) else None
    {
      isValidated := true;
      if phase == PrePrepare {
        phase := Prepare;
        return Some(Prepare);
      }
      return None;
    }
  }

  /** What a member's vote does to a manager that knows `s`. */
  function Tallied(m: Manager, s: TxState, msg: Message): (Manager, Option<Message>) {
    var (s1, phase) := Process(s, msg.phase, msg.sender);
    var m1 := m.(states := m.states[msg.txHash := s1]);
    if phase == None then (m1, None)
    else (AfterTransition(m1, msg.sender, phase.value, s1.txHash), Reply(m1, s1, phase.value))
  }

  lemma HandleTallies(m: Manager, msg: Message)
    ensures var s := StateFor(m, msg.txHash, msg.view, msg.sequence, msg.txType);
            var rep := if msg.sender in m.reputation then m.reputation else m.reputation[msg.sender := 10];
            var admitted := m.(reputation := rep, states := m.states[msg.txHash := s]);
            Handle(m, msg) == if msg.sender in m.committee then Tallied(admitted, s, msg) else (admitted, None)
  {
    hide StateFor, Process;
    var s := StateFor(m, msg.txHash, msg.view, msg.sequence, msg.txType);
    var s1 := Process(s, msg.phase, msg.sender).0;
    assert m.states[msg.txHash := s][msg.txHash := s1] == m.states[msg.txHash := s1];
  }

  class PporManager {
    var states: map<TxHash, PporState>
    const view: nat
    const nodeId: NodeId
    var reputationTable: map<NodeId, nat>
    var currentCommittee: set<NodeId>
    var lastFinalizedHash: TxHash
    var currentEpoch: nat
    const hash: NodeHash

    /** Each transaction owns its state, and is kept under its hash. */
    ghost predicate Valid()
      reads this
    {
      && (forall g, h :: g in states && h in states && g != h ==> states[g] != states[h])
      && (forall h :: h in states ==> states[h].txHash == h)
    }

    ghost function Model(): Manager
      reads this, states.Values
    {
      Manager(map h | h in states :: states[h].Value(), view, nodeId,
              reputationTable, currentCommittee, lastFinalizedHash, currentEpoch)
    }

    /** An empty on-chain committee falls back to the node itself. */
    constructor (nodeId: NodeId, committee: seq<NodeId>, hash: NodeHash)
      ensures Valid() && states == map[] && this.nodeId == nodeId && this.hash == hash
      ensures var members := if committee == [] then {nodeId} else set x | x in committee;
              Model() == Manager(map[], 0, nodeId, map x | x in members :: 100, members, "genesis_hash", 0)
    {
      var members := if committee == [] then {nodeId} else set x | x in committee;
      states, view, this.nodeId, this.hash := map[], 0, nodeId, hash;
      reputationTable := map x | x in members :: 100;
      currentCommittee := members;
      lastFinalizedHash, currentEpoch := "genesis_hash", 0;
    }

    method AdjustReputation(node: NodeId, delta: int)
      requires Valid()
      modifies this`reputationTable
      ensures Model() == old(Model()).(reputation := Adjusted(old(reputationTable), node, delta))
      ensures reputationTable.Keys == old(reputationTable).Keys + {node}
      ensures forall n :: n in old(reputationTable) && n != node ==> reputationTable[n] == old(reputationTable)[n]
      ensures var moved := (if node in old(reputationTable) then old(reputationTable)[node] else 10) + delta;
              reputationTable[node] == if moved < 1 then 1 else moved
    {
      var entry := if node in reputationTable then reputationTable[node] else 10;
      reputationTable := reputationTable[node := Max(entry + delta, 1)];
    }

    method Seat(kept: seq<NodeId>)
      modifies this`currentCommittee
      ensures currentCommittee == set x | x in kept
    {
      currentCommittee := {};
      for k := 0 to |kept|
        invariant currentCommittee == set x | x in kept[..k]
      {
        currentCommittee := currentCommittee + {kept[k]};
      }
      assert kept[..|kept|] == kept;
    }

    method SelectCommitteeWeighted(seed: Seed)
      requires Valid()
      modifies this`currentCommittee
      ensures IsTop(currentCommittee, reputationTable.Keys, Score(hash, seed, reputationTable))
      ensures currentCommittee <= reputationTable.Keys && |currentCommittee| == Min(|reputationTable|, 21)
      ensures NoneOutscored(currentCommittee, hash, seed, reputationTable)
      ensures Model() == old(Model()).(committee := currentCommittee)
    {
      hide IsTop, SortDesc, Score, IsOrderOf, Keep, NoneOutscored;
      var score := Score(hash, seed, reputationTable);
      var order := Iterate(reputationTable.Keys);
      SelectedIsTop(order, reputationTable.Keys, score);
      TopByHashAndReputation(Selected(order, score), hash, seed, reputationTable);
      Seat(Keep(SortDesc(order, score)));
    }

    method RotateEpoch(timedOut: set<TxHash>)
      requires Valid()
      modifies this`states, this`currentEpoch, this`currentCommittee
      ensures Valid() && states == old(states) - timedOut
      ensures Rotated(hash, old(Model()), timedOut, Model())
      ensures currentEpoch == old(currentEpoch) + 1 && |currentCommittee| == Min(|reputationTable|, 21)
      ensures NoneOutscored(currentCommittee, hash, Seed(lastFinalizedHash, old(currentEpoch) + 1), reputationTable)
    {
      hide Score, IsTop, NoneOutscored, Rotated;
      Turn(timedOut);
      SelectCommitteeWeighted(Seed(lastFinalizedHash, currentEpoch));
      RotatedBy(hash, old(Model()), timedOut, Model());
    }

    /** Drops what timed out, and advances. */
    method Turn(timedOut: set<TxHash>)
      requires Valid()
      modifies this`states, this`currentEpoch
      ensures Valid() && states == old(states) - timedOut && currentEpoch == old(currentEpoch) + 1
      ensures Model() == old(Model()).(states := old(Model()).states - timedOut, epoch := old(Model()).epoch + 1)
    {
      states := states - timedOut;
      currentEpoch := currentEpoch + 1;
      assert Model().states == old(Model()).states - timedOut;
    }

    /** Drops a transaction that has been applied; its archive entry is for audits. */
    method Forget(txHash: TxHash)
      requires Valid()
      modifies this`states
      ensures Valid() && states == old(states) - {txHash}
                && Model() == old(Model()).(states := old(Model()).states - {txHash})
    {
      states := states - {txHash};
      assert Model().states == old(Model()).states - {txHash};
    }

    method Propose(txHash: TxHash, sequence: nat, txType: int) returns (proposal: Option<Message>)
      requires Valid()
      modifies this`states
      ensures Valid() && fresh(states.Values - old(states.Values))
      ensures (Model(), proposal) == PporProtocol.Propose(old(Model()), txHash, sequence, txType)
      ensures proposal == if nodeId in currentCommittee
                then Some(Message(PrePrepare, view, sequence, txHash, nodeId, txType)) else None
      ensures proposal.Some? ==>
                txHash in states && states[txHash].Value() ==
                    TxState(view, sequence, txHash, txType, PrePrepare, {}, {}, currentCommittee, false)
    {
      if nodeId !in currentCommittee {
        return None;
      }
      var state := new PporState(view, sequence, txHash, txType, currentCommittee);
      states := states[txHash := state];
      assert Model().states == old(Model()).states[txHash := state.Value()];
      return Some(Message(PrePrepare, view, sequence, txHash, nodeId, txType));
    }

    /** The state of a transaction, created when it is first heard of. */
    method EntryOrInsert(txHash: TxHash, view: nat, sequence: nat, txType: int) returns (state: PporState)
      requires Valid()
      modifies this`states
      ensures Valid() && fresh(states.Values - old(states.Values))
      ensures txHash in states && states[txHash] == state
      ensures var s := StateFor(old(Model()), txHash, view, sequence, txType);
              state.Value() == s && Model() == old(Model()).(states := old(Model()).states[txHash := s])
    {
      if txHash !in states {
        state := new PporState(view, sequence, txHash, txType, currentCommittee);
        states := states[txHash := state];
      }
      state := states[txHash];
    }

    method Announce(state: PporState, phase: Phase) returns (reply: Option<Message>)
      ensures reply == Reply(Model(), state.Value(), phase)
    {
      if nodeId in currentCommittee {
        return Some(Message(phase, state.view, state.sequence, state.txHash, nodeId, state.txType));
      }
      return None;
    }

    /** Rotates if the epoch clock has run out; `timedOut` tells which
        transactions' clocks have. */
    method MaybeRotateEpoch(expired: bool, timedOut: set<TxHash>)
      requires Valid()
      modifies this`states, this`currentEpoch, this`currentCommittee
      ensures Valid() && states.Values <= old(states.Values)
      ensures if expired then Rotated(hash, old(Model()), timedOut, Model()) else Model() == old(Model())
    {
      hide Rotated;
      if expired {
        RotateEpoch(timedOut);
        forall x | x in states.Values ensures x in old(states.Values) {
          var h :| h in states && states[h] == x;
          assert old(states)[h] == x;
        }
      }
    }

    /** The reputation and finality bookkeeping of a phase change. */
    method Record(sender: NodeId, next: Phase, txHash: TxHash)
      requires Valid()
      modifies this`reputationTable, this`lastFinalizedHash
      ensures Valid() && Model() == AfterTransition(old(Model()), sender, next, txHash)
    {
      match next {
        case Prepare => AdjustReputation(sender, REP_PREPARE_VOTE);
        case Commit => AdjustReputation(sender, REP_COMMIT_VOTE);
        case Finalized => lastFinalizedHash := txHash;
        case PrePrepare =>
      }
    }

    /** Makes the sender and the transaction known. */
    method Admit(msg: Message) returns (state: PporState)
      requires Valid()
      modifies this`states, this`reputationTable
      ensures Valid() && fresh(states.Values - old(states.Values))
      ensures msg.txHash in states && states[msg.txHash] == state
      ensures var m := old(Model());
              state.Value() == StateFor(m, msg.txHash, msg.view, msg.sequence, msg.txType)
              && Model() == m.(reputation := if msg.sender in m.reputation then m.reputation
                   else m.reputation[msg.sender := 10],
                               states := m.states[msg.txHash := state.Value()])
    {
      hide StateFor, NewTx;
      if msg.sender !in reputationTable {
        reputationTable := reputationTable[msg.sender := 10];
      }
      StateIgnoresReputation(old(Model()), Model(), msg);
      state := EntryOrInsert(msg.txHash, msg.view, msg.sequence, msg.txType);
    }

    /** Lets a transaction's own state process a vote. */
    method Advance(state: PporState, msg: Message) returns (next: Option<Phase>)
      requires Valid() && msg.txHash in states && states[msg.txHash] == state
      modifies state
      ensures var (s1, p) := Process(old(state.Value()), msg.phase, msg.sender);
              next == p && state.Value() == s1
                  && Model() == old(Model()).(states := old(Model()).states[msg.txHash := s1])
    {
      hide Process;
      next := state.ProcessMessage(msg);
      assert Model().states == old(Model()).states[msg.txHash := state.Value()];
    }

    /** Handles a vote within the current epoch. */
    method CountVote(msg: Message) returns (reply: Option<Message>)
      requires Valid()
      modifies this, states.Values
      ensures Valid() && fresh(states.Values - old(states.Values))
      ensures (Model(), reply) == Handle(old(Model()), msg)
    {
      hide Process, AfterTransition, Reply, StateFor, NewTx, Tallied;
      HandleTallies(Model(), msg);
      var state := Admit(msg);
      if msg.sender !in currentCommittee {
        return None;
      }
      reply := Tally(state, msg);
    }

    /** Counts a member's vote for a transaction that is known. */
    method Tally(state: PporState, msg: Message) returns (reply: Option<Message>)
      requires Valid() && msg.txHash in states && states[msg.txHash] == state
      modifies this`reputationTable, this`lastFinalizedHash, state
      ensures Valid() && (Model(), reply) == Tallied(old(Model()), old(state.Value()), msg)
    {
      hide Process, AfterTransition, Reply;
      var next := Advance(state, msg);
      if next == None {
        return None;
      }
      ghost var m1 := Model();
      Record(msg.sender, next.value, state.txHash);
      ReplyIgnoresBookkeeping(m1, m1, msg.sender, next.value, state.Value());
      reply := Announce(state, next.value);
    }

    /** Handles a vote; `mid` is the manager after the rotation it may cause. */
    method HandleMessage(msg: Message, expired: bool, timedOut: set<TxHash>)
      returns (reply: Option<Message>, ghost mid: Manager)
      requires Valid()
      modifies this, states.Values
      ensures Valid() && fresh(states.Values - old(states.Values))
      ensures if expired then Rotated(hash, old(Model()), timedOut, mid) else mid == old(Model())
      ensures (Model(), reply) == Handle(mid, msg) && msg.txHash in states
      ensures reply.Some? ==>
                var s := states[msg.txHash];
                nodeId in currentCommittee
                && reply.value == Message(s.phase, s.view, s.sequence, msg.txHash, nodeId, s.txType)
      ensures msg.txHash !in mid.states ==>
                var s := states[msg.txHash]; s.view == msg.view && s.sequence == msg.sequence && s.txType == msg.txType
    {
      hide Handle, Rotated;
      MaybeRotateEpoch(expired, timedOut);
      mid := Model();
      HandleMeans(mid, msg);
      reply := CountVote(msg);
      SameStates(Model(), msg.txHash);
    }

    method AcceptValidation(txHash: TxHash, txType: int) returns (reply: Option<Message>)
      requires Valid()
      modifies this`states, states.Values
      ensures Valid() && fresh(states.Values - old(states.Values))
      ensures (Model(), reply) == PporProtocol.MarkValidated(old(Model()), txHash, txType)
    {
      hide Validate, Reply, StateFor, NewTx;
      ghost var m := Model();
      var state := EntryOrInsert(txHash, view, 0, txType);
      var next := Acknowledge(txHash, state);
      assert Model().states == m.states[txHash := state.Value()];
      if next == None {
        return None;
      }
      ReplyIgnoresBookkeeping(m, Model(), nodeId, PrePrepare, state.Value());
      reply := Announce(state, next.value);
    }

    /** Lets a transaction's own state take in that it was validated here. */
    method Acknowledge(txHash: TxHash, state: PporState) returns (next: Option<Phase>)
      requires Valid() && txHash in states && states[txHash] == state
      modifies state
      ensures (state.Value(), next) == Validate(old(state.Value()))
      ensures Model() == old(Model()).(states := old(Model()).states[txHash := state.Value()])
    {
      hide Validate;
      next := state.MarkValidated();
      assert Model().states == old(Model()).states[txHash := state.Value()];
    }

    method MarkValidated(txHash: TxHash, txType: int, expired: bool, timedOut: set<TxHash>)
      returns (reply: Option<Message>, ghost mid: Manager)
      requires Valid()
      modifies this, states.Values
      ensures Valid() && fresh(states.Values - old(states.Values))
      ensures if expired then Rotated(hash, old(Model()), timedOut, mid) else mid == old(Model())
      ensures (Model(), reply) == PporProtocol.MarkValidated(mid, txHash, txType) && txHash in states
      ensures reply.Some? ==>
                var s := states[txHash];
                nodeId in currentCommittee && s.phase == Prepare && s.isValidated
                && reply.value == Message(Prepare, s.view, s.sequence, txHash, nodeId, s.txType)
      ensures txHash !in mid.states ==>
                var s := states[txHash]; s.view == view && s.sequence == 0 && s.txType == txType
    {
      hide PporProtocol.MarkValidated, Rotated;
      MaybeRotateEpoch(expired, timedOut);
      mid := Model();
      MarkValidatedMeans(mid, txHash, txType);
      reply := AcceptValidation(txHash, txType);
      SameStates(Model(), txHash);
    }

    lemma SameStates(m: Manager, h: TxHash)
      requires m == Model()
      ensures h in m.states <==> h in states
      ensures h in states ==> m.states[h] == states[h].Value()
    {
    }
  }

  lemma StateIgnoresReputation(m: Manager, m': Manager, msg: Message)
    requires m'.states == m.states && m'.committee == m.committee
    ensures StateFor(m', msg.txHash, msg.view, msg.sequence, msg.txType)
              == StateFor(m, msg.txHash, msg.view, msg.sequence, msg.txType)
  {
  }

  lemma ReplyIgnoresBookkeeping(m: Manager, m': Manager, sender: NodeId, p: Phase, s: TxState)
    requires m'.nodeId == m.nodeId && m'.committee == m.committee
    ensures forall next :: Reply(AfterTransition(m', sender, p, s.txHash), s, next) == Reply(m, s, next)
    ensures forall next :: Reply(m', s, next) == Reply(m, s, next)
  {
  }

  // ----- The event loop -----

  /** `handle_message` at one's own latest reply, up to three times, each time
      after the rotation that the clock may ask for; each reply is sent on. */
  method SelfDeliverPbftChain(manager: PporManager, initial: Option<Message>, ticks: seq<Tick>)
    returns (current: Option<Message>, sent: seq<Message>, ghost trace: seq<Station>)
    requires manager.Valid() && |ticks| == CHAIN_ROUNDS
    modifies manager, manager.states.Values
    ensures manager.Valid() && fresh(manager.states.Values - old(manager.states.Values))
    ensures Chained(manager.hash, trace, ticks) && trace[0] == Station(old(manager.Model()), initial)
    ensures trace[CHAIN_ROUNDS] == Station(manager.Model(), current) && sent == SentIn(trace)
  {
    hide Handle, Round, SentIn;
    current, sent := initial, [];
    trace := [Station(manager.Model(), initial)];
    NothingSent(trace[0]);
    for round := 0 to CHAIN_ROUNDS
      invariant manager.Valid() && fresh(manager.states.Values - old(manager.states.Values))
      invariant |trace| == round + 1 && Chained(manager.hash, trace, ticks[..round])
      invariant trace[0] == Station(old(manager.Model()), initial) && trace[round] == Station(manager.Model(), current)
      invariant sent == SentIn(trace)
    {
      var next := DeliverOnce(manager, current, ticks[round]);
      if next.Some? {
        sent := sent + [next.value];
      }
      OneRoundMore(manager.hash, trace, ticks[..round], ticks[round], Station(manager.Model(), next));
      assert ticks[..round] + [ticks[round]] == ticks[..round + 1];
      trace := trace + [Station(manager.Model(), next)];
      current := next;
    }
    assert ticks[..CHAIN_ROUNDS] == ticks;
  }

  method DeliverOnce(manager: PporManager, current: Option<Message>, tick: Tick) returns (next: Option<Message>)
    requires manager.Valid()
    modifies manager, manager.states.Values
    ensures manager.Valid() && fresh(manager.states.Values - old(manager.states.Values))
    ensures Round(manager.hash, Station(old(manager.Model()), current), tick, Station(manager.Model(), next))
  {
    hide Handle, Rotated;
    next := None;
    if current.Some? {
      ghost var mid;
      next, mid := manager.HandleMessage(current.value, tick.expired, tick.timedOut);
      assert Turned(manager.hash, old(manager.Model()), tick, mid);
    }
  }

  /** One event of the swarm loop. In direct mode the node's first message goes to
      the committee, and a relayed proposal is handled here at once; otherwise it
      is published for all, a proposal with nothing more. */
  method OnEvent(manager: PporManager, e: Event, direct: bool, tick: Tick, ticks: seq<Tick>)
    returns (last: Option<Message>, sent: seq<Message>, published: Option<Message>,
             ghost first: Station, ghost trace: seq<Station>)
    requires manager.Valid() && |ticks| == CHAIN_ROUNDS
    modifies manager, manager.states.Values
    ensures manager.Valid() && fresh(manager.states.Values - old(manager.states.Values))
    ensures Begins(manager.hash, old(manager.Model()), e, tick, first)
    ensures var chained := direct || !e.Relay?;
            && (chained ==> Chained(manager.hash, trace, ticks) && trace[0] == first)
            && (!chained ==> trace == [first])
            && trace[|trace| - 1].m == manager.Model() && last == (if chained then trace[|trace| - 1].current else None)
    ensures published == if direct then None else Opening(e, first)
    ensures sent == (if direct then OptionSeq(Opening(e, first)) else []) + SentIn(trace)
  {
    hide Handle, Round, Rotated, SentIn;
    var reply := FirstStep(manager, e, tick);
    first := Station(manager.Model(), reply);
    var opening := if e.DirectVote? then None else reply;
    published := if direct then None else opening;
    if !direct && e.Relay? {
      trace := [first];
      NothingSent(first);
      return None, [], published, first, trace;
    }
    last, sent, trace := SelfDeliverPbftChain(manager, reply, ticks);
    sent := (if direct then OptionSeq(opening) else []) + sent;
  }

  method FirstStep(manager: PporManager, e: Event, tick: Tick) returns (reply: Option<Message>)
    requires manager.Valid()
    modifies manager, manager.states.Values
    ensures manager.Valid() && fresh(manager.states.Values - old(manager.states.Values))
    ensures Begins(manager.hash, old(manager.Model()), e, tick, Station(manager.Model(), reply))
  {
    hide Handle, Rotated, PporProtocol.MarkValidated, PporProtocol.Propose;
    ghost var mid;
    match e {
      case DirectVote(msg) => reply := Some(msg);
      case GossipVote(msg) =>
        reply, mid := manager.HandleMessage(msg, tick.expired, tick.timedOut);
        assert Turned(manager.hash, old(manager.Model()), tick, mid);
      case LocalValidation(txHash, txType) =>
        reply, mid := manager.MarkValidated(txHash, txType, tick.expired, tick.timedOut);
        assert Turned(manager.hash, old(manager.Model()), tick, mid);
      case Relay(txHash, sequence, txType) => reply := manager.Propose(txHash, sequence, txType);
    }
  }
}
