/** Order-independence of one node's vote machine. The manager is projected, one
    transaction at a time, to the part that votes decide (its core); every event
    acts on the core alone, and leaves it in the state that the set of delivered
    votes determines. */
module Confluence {
  import opened Wrappers
  import opened Basics
  import opened Quorum
  import opened PporProtocol

  datatype Core = Core(validated: bool, phase: Phase, prepares: set<NodeId>, commits: set<NodeId>)

  const FRESH := Core(false, PrePrepare, {}, {})

  function CoreOf(m: Manager, h: TxHash): Core {
    if h in m.states
    then Core(m.states[h].validated, m.states[h].phase, m.states[h].prepares, m.states[h].commits)
    else FRESH
  }

  /** A committee member whose transactions all carry the current committee:
      what a node looks like between two committee selections. */
  ghost predicate SteadyMember(m: Manager) {
    && m.nodeId in m.committee
    && forall h :: h in m.states ==> m.states[h].txHash == h && m.states[h].committee == m.committee
  }

  function QuorumOf(m: Manager): nat { RequiredVotes(|m.committee|) }

  // ----- The state that votes determine -----

  function PhaseOf(validated: bool, p: nat, c: nat, q: nat): Phase {
    if !validated then PrePrepare
    else if p < q then Prepare
    else if c < q then Commit
    else Finalized
  }

  /** The core after local validation (or not), Prepare votes from `p` and
      Commit votes from `c` have reached node `me`, in whatever order. */
  function Settled(validated: bool, p: set<NodeId>, c: set<NodeId>, me: NodeId, q: nat): Core {
    var p1 := if validated then p + {me} else p;
    var c1 := if validated && |p1| >= q then c + {me} else c;
    Core(validated, PhaseOf(validated, |p1|, |c1|, q), p1, c1)
  }

  /** The phase is the one the votes determine, and the node's own votes are in. */
  predicate Drained(core: Core, me: NodeId, q: nat) {
    && core.phase == PhaseOf(core.validated, |core.prepares|, |core.commits|, q)
    && (core.validated ==> me in core.prepares)
    && (core.validated && |core.prepares| >= q ==> me in core.commits)
  }

  lemma DrainedIsSettled(core: Core, me: NodeId, q: nat)
    requires Drained(core, me, q)
    ensures core == Settled(core.validated, core.prepares, core.commits, me, q)
  {
    if core.validated {
      assert core.prepares + {me} == core.prepares;
      if |core.prepares| >= q {
        assert core.commits + {me} == core.commits;
      }
    }
  }

  function Rank(p: Phase): (r: nat)
    ensures r < 4
  {
    match p case PrePrepare => 0 case Prepare => 1 case Commit => 2 case Finalized => 3
  }

  const PHASES := [PrePrepare, Prepare, Commit, Finalized]

  /** What a node announces to the committee on its way from one phase to another:
      each phase that it comes to, once and in turn. */
  function Announced(before: Phase, after: Phase): seq<Phase> {
    if Rank(before) <= Rank(after) then PHASES[Rank(before) + 1..Rank(after) + 1] else []
  }

  // ----- Messages on the core -----

  function Add(s: set<NodeId>, from: NodeId, phase: Phase, kind: Phase): set<NodeId> {
    if phase == kind then s + {from} else s
  }

  function CoreHandle(core: Core, phase: Phase, from: NodeId, q: nat): (Core, Option<Phase>) {
    var k := core.(prepares := Add(core.prepares, from, phase, Prepare),
                   commits := Add(core.commits, from, phase, Commit));
    if phase == PrePrepare && k.phase == PrePrepare && k.validated then (k.(phase := Prepare), Some(Prepare))
    else if phase == Prepare && k.phase == Prepare && |k.prepares| >= q then (k.(phase := Commit), Some(Commit))
    else if phase == Commit && k.phase == Commit && |k.commits| >= q then (k.(phase := Finalized), Some(Finalized))
    else (k, None)
  }

  /** The self-delivery chain on the core, with the phases it announces. */
  function CoreChain(core: Core, phase: Option<Phase>, from: NodeId, me: NodeId, q: nat, rounds: nat):
    (Core, Option<Phase>)
    decreases rounds
  {
    if rounds == 0 || phase == None then (core, phase)
    else
      var (k, next) := CoreHandle(core, phase.value, from, q);
      CoreChain(k, next, me, me, q, rounds - 1)
  }

  function ChainAnnounces(core: Core, phase: Option<Phase>, from: NodeId, me: NodeId, q: nat, rounds: nat): seq<Phase>
    decreases rounds
  {
    if rounds == 0 || phase == None then []
    else
      var (k, next) := CoreHandle(core, phase.value, from, q);
      OptionSeq(next) + ChainAnnounces(k, next, me, me, q, rounds - 1)
  }

  lemma NothingAnnounced(a: Phase)
    ensures Announced(a, a) == []
    ensures Announced(PrePrepare, Prepare) == [Prepare] && Announced(Prepare, Commit) == [Commit]
    ensures Announced(Commit, Finalized) == [Finalized]
  {
  }

  lemma HandleMovesOneUp(core: Core, phase: Phase, from: NodeId, q: nat)
    ensures var (k, next) := CoreHandle(core, phase, from, q);
            OptionSeq(next) == Announced(core.phase, k.phase)
            && Rank(core.phase) <= Rank(k.phase)
  {
    hide Announced;
    NothingAnnounced(core.phase);
  }

  lemma AnnouncedInTurn(a: Phase, b: Phase, c: Phase)
    requires Rank(a) <= Rank(b) <= Rank(c)
    ensures Announced(a, b) + Announced(b, c) == Announced(a, c)
  {
  }

  lemma PhasesByRank()
    ensures |PHASES| == 4 && forall i :: 0 <= i < 4 ==> Rank(PHASES[i]) == i
    ensures forall p: Phase :: PHASES[Rank(p)] == p
  {
  }

  lemma AnnouncedIs(a: Phase, b: Phase)
    ensures forall p: Phase :: p in Announced(a, b) <==> Rank(a) < Rank(p) <= Rank(b)
  {
    hide Rank, PHASES;
    PhasesByRank();
    var list := Announced(a, b);
    forall p | p in list ensures Rank(a) < Rank(p) <= Rank(b) {
      var i :| 0 <= i < |list| && list[i] == p;
      assert PHASES[Rank(a) + 1 + i] == p;
    }
    forall p: Phase | Rank(a) < Rank(p) <= Rank(b) ensures p in list {
      assert list[Rank(p) - Rank(a) - 1] == p;
    }
  }

  /** A chain announces each phase that it comes to, once and in turn. */
  lemma {:induction false} AnnouncesPhasesPassed(core: Core, phase: Option<Phase>, from: NodeId, me: NodeId, q: nat,
                                                 rounds: nat)
    ensures Rank(core.phase) <= Rank(CoreChain(core, phase, from, me, q, rounds).0.phase)
    ensures ChainAnnounces(core, phase, from, me, q, rounds)
         == Announced(core.phase, CoreChain(core, phase, from, me, q, rounds).0.phase)
    decreases rounds
  {
    if rounds > 0 && phase.Some? {
      var (k, next) := CoreHandle(core, phase.value, from, q);
      HandleMovesOneUp(core, phase.value, from, q);
      AnnouncesPhasesPassed(k, next, me, me, q, rounds - 1);
      AnnouncedInTurn(core.phase, k.phase, CoreChain(core, phase, from, me, q, rounds).0.phase);
    }
  }

  // ----- Draining -----

  /** A node that has just reached Commit handles its own Commit vote, and that
      either completes the quorum or ends the chain. */
  lemma OwnCommitSettles(core: Core, me: NodeId, q: nat, rounds: nat)
    requires core.phase == Commit && rounds >= 2
    ensures CoreChain(core, Some(Commit), me, me, q, rounds) ==
            (var c := core.commits + {me};
             (core.(commits := c, phase := if |c| >= q then Finalized else Commit), None))
  {
    var (k1, next) := CoreHandle(core, Commit, me, q);
    if next.Some? {
      assert CoreHandle(k1, Finalized, me, q) == (k1, None);
      assert CoreChain(k1, next, me, me, q, rounds - 1) == (k1, None);
    }
  }

  /** A Prepare vote: it may complete the quorum of a node that was waiting for it. */
  lemma PrepareVoteSettles(core: Core, from: NodeId, me: NodeId, q: nat, rounds: nat)
    requires Drained(core, me, q) && rounds >= 3
    ensures CoreChain(core, Some(Prepare), from, me, q, rounds) ==
            (Settled(core.validated, core.prepares + {from}, core.commits, me, q), None)
  {
    var (k1, next) := CoreHandle(core, Prepare, from, q);
    assert core.validated ==> k1.prepares + {me} == k1.prepares;
    if next.Some? {
      OwnCommitSettles(k1, me, q, rounds - 1);
    } else {
      SubsetSize(core.prepares, core.prepares + {from});
      DrainedIsSettled(k1, me, q);
    }
  }

  /** A Commit vote: likewise for the second quorum. */
  lemma CommitVoteSettles(core: Core, from: NodeId, me: NodeId, q: nat, rounds: nat)
    requires Drained(core, me, q) && rounds >= 3
    ensures CoreChain(core, Some(Commit), from, me, q, rounds) ==
            (Settled(core.validated, core.prepares, core.commits + {from}, me, q), None)
  {
    var (k1, next) := CoreHandle(core, Commit, from, q);
    SubsetSize(core.commits, core.commits + {from});
    DrainedIsSettled(k1, me, q);
    if next.Some? {
      assert CoreHandle(k1, Finalized, me, q) == (k1, None);
      assert CoreChain(k1, next, me, me, q, rounds - 1) == (k1, None);
    }
  }

  /** Three rounds drain everything a settled core can do with one more vote. */
  lemma VoteSettles(core: Core, phase: Phase, from: NodeId, me: NodeId, q: nat, rounds: nat)
    requires Drained(core, me, q) && rounds >= 3
    ensures CoreChain(core, Some(phase), from, me, q, rounds) ==
            (Settled(core.validated, Add(core.prepares, from, phase, Prepare),
                     Add(core.commits, from, phase, Commit), me, q), None)
  {
    match phase
    case Prepare => PrepareVoteSettles(core, from, me, q, rounds);
    case Commit => CommitVoteSettles(core, from, me, q, rounds);
    case _ =>
      assert CoreHandle(core, phase, from, q) == (core, None);
      DrainedIsSettled(core, me, q);
  }

  /** So does the chain that follows local validation. */
  lemma ValidationSettles(core: Core, me: NodeId, q: nat, rounds: nat)
    requires Drained(core, me, q) && !core.validated && rounds >= 3
    ensures CoreChain(core.(validated := true, phase := Prepare), Some(Prepare), me, me, q, rounds) ==
            (Settled(true, core.prepares, core.commits, me, q), None)
  {
    var k0 := core.(validated := true, phase := Prepare);
    var (k1, next) := CoreHandle(k0, Prepare, me, q);
    if next.Some? {
      OwnCommitSettles(k1, me, q, rounds - 1);
    }
  }

  // ----- The manager acts on the core -----

  function Phases(sent: seq<Message>): (phases: seq<Phase>)
    ensures |phases| == |sent| && forall i :: 0 <= i < |sent| ==> phases[i] == sent[i].phase
  {
    if sent == [] then [] else [sent[0].phase] + Phases(sent[1..])
  }

  ghost predicate AllFrom(sent: seq<Message>, h: TxHash, me: NodeId) {
    forall msg :: msg in sent ==> msg.txHash == h && msg.sender == me
  }

  /** Between selections, an event about `h` leaves the rest of the node alone. */
  ghost predicate TouchesOnly(m: Manager, m': Manager, h: TxHash) {
    && SteadyMember(m') && m'.nodeId == m.nodeId && m'.committee == m.committee
    && forall g :: g != h ==> CoreOf(m', g) == CoreOf(m, g)
  }

  /** What handling `msg` did to the core of its transaction, and the answer. */
  ghost predicate HandledOnCore(m: Manager, msg: Message, r: (Manager, Option<Message>)) {
    && (r.1.Some? ==> r.1.value.txHash == msg.txHash && r.1.value.sender == m.nodeId)
    && (msg.sender !in m.committee ==> r.1 == None && CoreOf(r.0, msg.txHash) == CoreOf(m, msg.txHash))
    && (msg.sender in m.committee ==>
          var (k, next) := CoreHandle(CoreOf(m, msg.txHash), msg.phase, msg.sender, QuorumOf(m));
          CoreOf(r.0, msg.txHash) == k && PhaseIn(r.1) == next)
  }

  lemma ProcessProjects(s: TxState, phase: Phase, from: NodeId)
    ensures var (s1, next) := Process(s, phase, from);
            && CoreHandle(Core(s.validated, s.phase, s.prepares, s.commits), phase, from, RequiredVotes(|s.committee|))
               == (Core(s1.validated, s1.phase, s1.prepares, s1.commits), next)
            && s1 == s.(phase := s1.phase, prepares := s1.prepares, commits := s1.commits)
  {
    hide RequiredVotes;
    match phase
    case PrePrepare =>
    case Prepare =>
    case Commit =>
    case Finalized =>
  }

  lemma HandleProjects(m: Manager, msg: Message)
    requires SteadyMember(m)
    ensures m.nodeId in m.committee && TouchesOnly(m, Handle(m, msg).0, msg.txHash)
    ensures HandledOnCore(m, msg, Handle(m, msg))
  {
    hide Process, CoreHandle, RequiredVotes;
    ProcessProjects(StateFor(m, msg.txHash, msg.view, msg.sequence, msg.txType), msg.phase, msg.sender);
  }

  function PhaseIn(msg: Option<Message>): Option<Phase> {
    if msg.Some? then Some(msg.value.phase) else None
  }

  lemma {:induction false} ChainProjects(m: Manager, msg: Message, rounds: nat)
    requires SteadyMember(m) && msg.sender in m.committee
    ensures TouchesOnly(m, Chain(m, Some(msg), rounds).0, msg.txHash)
    ensures CoreChain(CoreOf(m, msg.txHash), Some(msg.phase), msg.sender, m.nodeId, QuorumOf(m), rounds)
         == (CoreOf(Chain(m, Some(msg), rounds).0, msg.txHash), PhaseIn(Chain(m, Some(msg), rounds).1))
    decreases rounds
  {
    hide Handle, CoreHandle, RequiredVotes, Chain, SteadyMember;
    ChainOnce(m, msg, rounds);
    if rounds > 0 {
      HandleProjects(m, msg);
      var (m1, reply) := Handle(m, msg);
      if reply.Some? {
        ChainProjects(m1, reply.value, rounds - 1);
      } else {
        ChainOfNothing(m1, rounds - 1);
      }
    }
  }

  lemma {:induction false} ChainSends(m: Manager, msg: Message, rounds: nat)
    requires SteadyMember(m) && msg.sender in m.committee
    ensures AllFrom(Chain(m, Some(msg), rounds).2, msg.txHash, m.nodeId)
    ensures Phases(Chain(m, Some(msg), rounds).2)
         == ChainAnnounces(CoreOf(m, msg.txHash), Some(msg.phase), msg.sender, m.nodeId, QuorumOf(m), rounds)
    decreases rounds
  {
    hide Handle, CoreHandle, RequiredVotes, Chain, SteadyMember, Phases;
    ChainOnce(m, msg, rounds);
    if rounds > 0 {
      HandleProjects(m, msg);
      var (m1, reply) := Handle(m, msg);
      if reply.Some? {
        ChainSends(m1, reply.value, rounds - 1);
        PhasesOfCons(reply.value, Chain(m1, reply, rounds - 1).2);
      } else {
        ChainOfNothing(m1, rounds - 1);
      }
    }
  }

  lemma ChainOnce(m: Manager, msg: Message, rounds: nat)
    ensures rounds == 0 ==> Chain(m, Some(msg), rounds) == (m, Some(msg), [])
    ensures rounds > 0 ==>
              var (m1, reply) := Handle(m, msg);
              var left := Chain(m1, reply, rounds - 1);
              Chain(m, Some(msg), rounds) == (left.0, left.1, (if reply.Some? then [reply.value] else []) + left.2)
  {
    hide Handle;
  }

  lemma PhasesOfCons(msg: Message, sent: seq<Message>)
    ensures Phases([msg] + sent) == [msg.phase] + Phases(sent)
  {
    assert ([msg] + sent)[1..] == sent;
  }

  lemma {:induction false} ChainOfNothing(m: Manager, rounds: nat)
    ensures Chain(m, None, rounds) == (m, None, [])
    decreases rounds
  {
    if rounds > 0 {
      ChainOfNothing(m, rounds - 1);
    }
  }

  /** A vote from outside the committee changes no core and draws no answer. */
  lemma OutsiderIgnored(m: Manager, msg: Message, rounds: nat)
    requires SteadyMember(m) && msg.sender !in m.committee && rounds >= 1
    ensures var (m1, last, sent) := Chain(m, Some(msg), rounds);
            TouchesOnly(m, m1, msg.txHash) && CoreOf(m1, msg.txHash) == CoreOf(m, msg.txHash)
            && last == None && sent == []
  {
    HandleProjects(m, msg);
    ChainOfNothing(Handle(m, msg).0, rounds - 1);
  }

  // ----- One event -----

  function Subject(e: Event): TxHash {
    match e
    case DirectVote(msg) => msg.txHash
    case GossipVote(msg) => msg.txHash
    case LocalValidation(h, _) => h
    case Relay(h, _, _) => h
  }

  predicate Votes(e: Event, h: TxHash, phase: Phase, committee: set<NodeId>) {
    (e.DirectVote? || e.GossipVote?) && e.msg.txHash == h && e.msg.phase == phase && e.msg.sender in committee
  }

  function VoterOf(e: Event, h: TxHash, phase: Phase, committee: set<NodeId>): set<NodeId> {
    if Votes(e, h, phase, committee) then {e.msg.sender} else {}
  }

  predicate Validates(e: Event, h: TxHash) {
    e.LocalValidation? && e.txHash == h
  }

  /** The step of the core that an event amounts to. */
  function CoreStep(core: Core, e: Event, h: TxHash, committee: set<NodeId>, me: NodeId): Core {
    Settled(core.validated || Validates(e, h),
            core.prepares + VoterOf(e, h, Prepare, committee),
            core.commits + VoterOf(e, h, Commit, committee),
            me, RequiredVotes(|committee|))
  }

  /** A relayed proposal overwrites what is there, so it must find nothing. */
  predicate Admissible(m: Manager, e: Event) {
    e.Relay? ==> CoreOf(m, e.txHash) == FRESH
  }

  /** An event acted on its own transaction as `CoreStep` says, announced the
      phases passed (a relay its proposal), and returned nothing to the loop. */
  ghost predicate ReactionIs(m: Manager, e: Event, r: (Manager, Option<Message>, seq<Message>)) {
    var h := Subject(e);
    && TouchesOnly(m, r.0, h) && r.1 == None && AllFrom(r.2, h, m.nodeId)
    && CoreOf(r.0, h) == CoreStep(CoreOf(m, h), e, h, m.committee, m.nodeId)
    && Phases(r.2) == (if e.Relay? then [PrePrepare] else Announced(CoreOf(m, h).phase, CoreOf(r.0, h).phase))
  }

  ghost predicate EventResult(m: Manager, e: Event, rounds: nat) {
    ReactionIs(m, e, ReactFor(m, e, rounds))
  }

  /** An event that carries no vote leaves the votes of a settled core as they are. */
  lemma NoVoteStep(core: Core, e: Event, h: TxHash, committee: set<NodeId>, me: NodeId)
    requires VoterOf(e, h, Prepare, committee) == {} && VoterOf(e, h, Commit, committee) == {}
    ensures CoreStep(core, e, h, committee, me)
         == Settled(core.validated || Validates(e, h), core.prepares, core.commits, me, RequiredVotes(|committee|))
  {
    assert core.prepares + {} == core.prepares && core.commits + {} == core.commits;
  }

  lemma VoteProjects(m: Manager, msg: Message, rounds: nat)
    requires SteadyMember(m) && rounds >= 3
    requires Drained(CoreOf(m, msg.txHash), m.nodeId, QuorumOf(m))
    ensures ReactionIs(m, DirectVote(msg), Chain(m, Some(msg), rounds))
  {
    hide Chain, CoreChain, ChainAnnounces, Announced, RequiredVotes, Settled;
    var core, q := CoreOf(m, msg.txHash), QuorumOf(m);
    if msg.sender in m.committee {
      ChainProjects(m, msg, rounds);
      ChainSends(m, msg, rounds);
      VoteSettles(core, msg.phase, msg.sender, m.nodeId, q, rounds);
      MemberVoteStep(core, msg, m.committee, m.nodeId);
      AnnouncesPhasesPassed(core, Some(msg.phase), msg.sender, m.nodeId, q, rounds);
    } else {
      OutsiderIgnored(m, msg, rounds);
      DrainedIsSettled(core, m.nodeId, q);
      NoVoteStep(core, DirectVote(msg), msg.txHash, m.committee, m.nodeId);
      NothingAnnounced(core.phase);
      assert Phases([]) == [];
    }
  }

  lemma MemberVoteStep(core: Core, msg: Message, committee: set<NodeId>, me: NodeId)
    requires msg.sender in committee
    ensures CoreStep(core, DirectVote(msg), msg.txHash, committee, me)
         == Settled(core.validated, Add(core.prepares, msg.sender, msg.phase, Prepare),
                    Add(core.commits, msg.sender, msg.phase, Commit), me, RequiredVotes(|committee|))
  {
    hide Settled;
    assert core.prepares + {} == core.prepares && core.commits + {} == core.commits;
  }

  lemma MarkProjects(m: Manager, h: TxHash, t: int)
    requires SteadyMember(m) && !CoreOf(m, h).validated && CoreOf(m, h).phase == PrePrepare
    ensures var (m1, reply) := MarkValidated(m, h, t);
            && TouchesOnly(m, m1, h) && CoreOf(m1, h) == CoreOf(m, h).(validated := true, phase := Prepare)
            && reply.Some? && reply.value.txHash == h && reply.value.sender == m.nodeId && reply.value.phase == Prepare
  {
  }

  lemma LocalValidationProjects(m: Manager, h: TxHash, t: int, rounds: nat)
    requires rounds >= 3
    requires SteadyMember(m) && !CoreOf(m, h).validated
    requires Drained(CoreOf(m, h), m.nodeId, QuorumOf(m))
    ensures EventResult(m, LocalValidation(h, t), rounds)
  {
    hide Chain, CoreChain, ChainAnnounces, Announced, RequiredVotes, Handle, MarkValidated, Settled;
    var core, q := CoreOf(m, h), QuorumOf(m);
    MarkProjects(m, h, t);
    var (m1, reply) := MarkValidated(m, h, t);
    var first := reply.value;
    ChainProjects(m1, first, rounds);
    ChainSends(m1, first, rounds);
    ValidationSettles(core, m.nodeId, q, rounds);
    AnnouncesPhasesPassed(CoreOf(m1, h), Some(Prepare), m.nodeId, m.nodeId, q, rounds);
    var (m2, last, sent) := Chain(m1, reply, rounds);
    AnnouncedInTurn(PrePrepare, Prepare, CoreOf(m2, h).phase);
    PhasesOfCons(first, sent);
    NoVoteStep(core, LocalValidation(h, t), h, m.committee, m.nodeId);
    NothingAnnounced(PrePrepare);
  }

  lemma RevalidationProjects(m: Manager, h: TxHash, t: int, rounds: nat)
    requires rounds >= 3
    requires SteadyMember(m) && CoreOf(m, h).validated
    requires Drained(CoreOf(m, h), m.nodeId, QuorumOf(m))
    ensures EventResult(m, LocalValidation(h, t), rounds)
  {
    hide Chain, RequiredVotes, Announced;
    ChainOfNothing(MarkValidated(m, h, t).0, rounds);
    DrainedIsSettled(CoreOf(m, h), m.nodeId, QuorumOf(m));
    NoVoteStep(CoreOf(m, h), LocalValidation(h, t), h, m.committee, m.nodeId);
    NothingAnnounced(CoreOf(m, h).phase);
    assert Phases([]) == [];
  }

  lemma RelayProjects(m: Manager, h: TxHash, n: nat, t: int, rounds: nat)
    requires rounds >= 3
    requires SteadyMember(m) && CoreOf(m, h) == FRESH
    ensures EventResult(m, Relay(h, n, t), rounds)
  {
    hide CoreChain, ChainAnnounces, Announced, RequiredVotes, Handle;
    var (m1, proposal) := Propose(m, h, n, t);
    HandleProjects(m1, proposal.value);
    ChainOfNothing(Handle(m1, proposal.value).0, rounds - 1);
    PhasesOfCons(proposal.value, []);
  }

  /** A gossiped vote is handled once before the chain: one more round of it. */
  lemma GossipIsLongerChain(m: Manager, msg: Message, rounds: nat)
    ensures ReactFor(m, GossipVote(msg), rounds) == Chain(m, Some(msg), rounds + 1)
  {
    var (m1, reply) := Handle(m, msg);
    if reply.None? {
      ChainOfNothing(m1, rounds);
    }
  }

  lemma EventProjects(m: Manager, e: Event, rounds: nat)
    requires rounds >= 3
    requires SteadyMember(m) && Admissible(m, e)
    requires Drained(CoreOf(m, Subject(e)), m.nodeId, QuorumOf(m))
    ensures EventResult(m, e, rounds)
  {
    hide Chain, CoreChain, ChainAnnounces, RequiredVotes, Handle, Announced;
    match e {
      case DirectVote(msg) => VoteProjects(m, msg, rounds);
      case GossipVote(msg) =>
        GossipIsLongerChain(m, msg, rounds);
        VoteProjects(m, msg, rounds + 1);
      case LocalValidation(h, t) =>
        if CoreOf(m, h).validated {
          RevalidationProjects(m, h, t, rounds);
        } else {
          LocalValidationProjects(m, h, t, rounds);
        }
      case Relay(h, n, t) => RelayProjects(m, h, n, t, rounds);
    }
  }

  // ----- Runs -----

  ghost predicate ValidatedIn(events: seq<Event>, h: TxHash) {
    exists e :: e in events && Validates(e, h)
  }

  /** The committee members whose votes of one kind the events deliver. */
  function VotersIn(events: seq<Event>, h: TxHash, phase: Phase, committee: set<NodeId>): set<NodeId> {
    set e | e in events && Votes(e, h, phase, committee) :: e.msg.sender
  }

  /** No relay in the run meets a transaction that already holds votes. */
  ghost predicate AdmissibleRun(m: Manager, events: seq<Event>) {
    forall k :: 0 <= k < |events| ==> Admissible(Run(m, events[..k]), events[k])
  }

  lemma {:induction false} VotersGrow(events: seq<Event>, e: Event, h: TxHash, phase: Phase, committee: set<NodeId>)
    ensures VotersIn(events + [e], h, phase, committee)
         == VotersIn(events, h, phase, committee) + VoterOf(e, h, phase, committee)
  {
    var lhs, rhs := VotersIn(events + [e], h, phase, committee),
        VotersIn(events, h, phase, committee) + VoterOf(e, h, phase, committee);
    forall x ensures x in lhs <==> x in rhs {
      if x in rhs {
        if x in VoterOf(e, h, phase, committee) {
          assert e in events + [e];
        }
      }
    }
  }

  lemma ValidatedGrows(events: seq<Event>, e: Event, h: TxHash)
    ensures ValidatedIn(events + [e], h) <==> ValidatedIn(events, h) || Validates(e, h)
  {
    assert forall x :: x in events + [e] <==> x in events || x == e;
  }

  /** Settling in two steps is settling once with all the votes. */
  lemma SettledTwice(v: bool, p: set<NodeId>, c: set<NodeId>, v': bool, p': set<NodeId>, c': set<NodeId>, me: NodeId,
                     q: nat)
    ensures var k := Settled(v, p, c, me, q);
            Drained(k, me, q) &&
            Settled(k.validated || v', k.prepares + p', k.commits + c', me, q)
                == Settled(v || v', p + p', c + c', me, q)
  {
    var k := Settled(v, p, c, me, q);
    var p1 := if v || v' then p + p' + {me} else p + p';
    assert (if v || v' then k.prepares + p' + {me} else k.prepares + p') == p1;
    SubsetSize(k.prepares, p1);
    if (v || v') && |p1| >= q {
      assert k.commits + c' + {me} == c + c' + {me};
    } else {
      assert k.commits + c' == c + c';
    }
  }

  /** After any events whatever, the core of every transaction is the one that
      the delivered votes and the local validation determine. */
  lemma {:induction false} Confluence(m: Manager, events: seq<Event>, h: TxHash)
    requires SteadyMember(m) && (forall g :: CoreOf(m, g) == FRESH)
    requires AdmissibleRun(m, events)
    ensures SteadyMember(Run(m, events)) && Run(m, events).nodeId == m.nodeId && Run(m, events).committee == m.committee
    ensures CoreOf(Run(m, events), h)
         == Settled(ValidatedIn(events, h), VotersIn(events, h, Prepare, m.committee),
                    VotersIn(events, h, Commit, m.committee), m.nodeId, QuorumOf(m))
  {
    hide React, Settled;
    if events == [] {
      assert VotersIn(events, h, Prepare, m.committee) == {} && VotersIn(events, h, Commit, m.committee) == {};
      FreshIsSettled(m.nodeId, QuorumOf(m));
    } else {
      var prior, e := events[..|events| - 1], events[|events| - 1];
      assert events == prior + [e];
      assert AdmissibleRun(m, prior) by {
        forall k | 0 <= k < |prior| ensures Admissible(Run(m, prior[..k]), prior[k]) {
          assert prior[..k] == events[..k];
        }
      }
      Confluence(m, prior, h);
      Confluence(m, prior, Subject(e));
      var m1 := Run(m, prior);
      var own := Subject(e);
      RunStep(m1, e, h,
              ValidatedIn(prior, h), VotersIn(prior, h, Prepare, m.committee), VotersIn(prior, h, Commit, m.committee),
              ValidatedIn(prior, own), VotersIn(prior, own, Prepare, m.committee),
              VotersIn(prior, own, Commit, m.committee));
      VotersGrow(prior, e, h, Prepare, m.committee);
      VotersGrow(prior, e, h, Commit, m.committee);
      ValidatedGrows(prior, e, h);
    }
  }

  lemma FreshIsSettled(me: NodeId, q: nat)
    ensures FRESH == Settled(false, {}, {}, me, q)
  {
  }

  lemma RunStep(m: Manager, e: Event, h: TxHash, v: bool, p: set<NodeId>, c: set<NodeId>,
                vs: bool, ps: set<NodeId>, cs: set<NodeId>)
    requires SteadyMember(m) && Admissible(m, e)
    requires CoreOf(m, h) == Settled(v, p, c, m.nodeId, QuorumOf(m))
    requires CoreOf(m, Subject(e)) == Settled(vs, ps, cs, m.nodeId, QuorumOf(m))
    ensures var m1 := React(m, e).0;
            && SteadyMember(m1) && m1.nodeId == m.nodeId && m1.committee == m.committee
            && CoreOf(m1, h) == Settled(v || Validates(e, h), p + VoterOf(e, h, Prepare, m.committee),
                                        c + VoterOf(e, h, Commit, m.committee), m.nodeId, QuorumOf(m))
  {
    hide Settled, React, RequiredVotes, VoterOf, Validates, Drained, Subject, SteadyMember, CoreOf, Admissible,
         CoreStep;
    SettledTwice(vs, ps, cs, false, {}, {}, m.nodeId, QuorumOf(m));
    ReactsAt(m, e, h);
    if h == Subject(e) {
      StepOfSettled(e, h, v, p, c, m.committee, m.nodeId);
    } else {
      NothingElsewhere(e, h, m.committee);
      assert p + {} == p && c + {} == c;
    }
  }

  lemma StepOfSettled(e: Event, h: TxHash, v: bool, p: set<NodeId>, c: set<NodeId>, committee: set<NodeId>, me: NodeId)
    ensures CoreStep(Settled(v, p, c, me, RequiredVotes(|committee|)), e, h, committee, me)
         == Settled(v || Validates(e, h), p + VoterOf(e, h, Prepare, committee), c + VoterOf(e, h, Commit, committee),
                    me, RequiredVotes(|committee|))
  {
    hide Settled, VoterOf, Validates, Drained, RequiredVotes;
    SettledTwice(v, p, c, Validates(e, h), VoterOf(e, h, Prepare, committee),
        VoterOf(e, h, Commit, committee), me, RequiredVotes(|committee|));
  }

  /** One event on the core of any transaction. */
  lemma ReactsAt(m: Manager, e: Event, h: TxHash)
    requires SteadyMember(m) && Admissible(m, e) && Drained(CoreOf(m, Subject(e)), m.nodeId, QuorumOf(m))
    ensures var m1 := React(m, e).0;
            && SteadyMember(m1) && m1.nodeId == m.nodeId && m1.committee == m.committee
            && CoreOf(m1, h) == if h == Subject(e) then CoreStep(CoreOf(m, h), e, h, m.committee, m.nodeId)
                 else CoreOf(m, h)
  {
    hide ReactFor, CoreStep, Drained, Announced, Phases, RequiredVotes;
    EventProjects(m, e, CHAIN_ROUNDS);
  }

  lemma NothingElsewhere(e: Event, h: TxHash, committee: set<NodeId>)
    requires h != Subject(e)
    ensures !Validates(e, h) && VoterOf(e, h, Prepare, committee) == {} && VoterOf(e, h, Commit, committee) == {}
  {
  }

  /** Two runs that deliver the same events, in any order and with any
      repetition, leave every transaction in the same phase with the same votes. */
  lemma OrderDoesNotMatter(m: Manager, events: seq<Event>, others: seq<Event>, h: TxHash)
    requires SteadyMember(m) && (forall g :: CoreOf(m, g) == FRESH)
    requires AdmissibleRun(m, events) && AdmissibleRun(m, others)
    requires forall e :: e in events <==> e in others
    ensures CoreOf(Run(m, events), h) == CoreOf(Run(m, others), h)
  {
    hide Settled, Run;
    Confluence(m, events, h);
    Confluence(m, others, h);
    assert VotersIn(events, h, Prepare, m.committee) == VotersIn(others, h, Prepare, m.committee);
    assert VotersIn(events, h, Commit, m.committee) == VotersIn(others, h, Commit, m.committee);
  }

  /** A relayed proposal forgets the transaction it names, so it is harmless
      exactly when there was nothing to forget. */
  lemma RelayHarmlessIffFresh(m: Manager, h: TxHash, n: nat, t: int)
    requires SteadyMember(m)
    ensures CoreOf(React(m, Relay(h, n, t)).0, h) == CoreOf(m, h) <==> CoreOf(m, h) == FRESH
  {
    hide ReactFor;
    var m0 := m.(states := m.states - {h});
    RelaySameFromScratch(m, m0, h, n, t, CHAIN_ROUNDS);
    RelayProjects(m0, h, n, t, CHAIN_ROUNDS);
    FreshIsSettled(m.nodeId, QuorumOf(m));
    NoVoteStep(FRESH, Relay(h, n, t), h, m.committee, m.nodeId);
  }

  lemma RelaySameFromScratch(m: Manager, m0: Manager, h: TxHash, n: nat, t: int, rounds: nat)
    requires SteadyMember(m) && m0 == m.(states := m.states - {h})
    ensures ReactFor(m, Relay(h, n, t), rounds) == ReactFor(m0, Relay(h, n, t), rounds)
  {
    hide Chain;
    assert Propose(m, h, n, t).0.states == Propose(m0, h, n, t).0.states;
  }
}
