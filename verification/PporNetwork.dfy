/** A committee of nodes running the vote machine over an asynchronous network:
    every correct member is a manager reacting to events, and everyone else may
    send anything under a name that is not a correct member's. */
module PporNetwork {
  import opened Basics
  import opened Quorum
  import opened PporProtocol
  import opened Confluence

  datatype Config = Config(members: set<NodeId>, faulty: set<NodeId>) {
    ghost predicate Valid() {
      members != {} && faulty <= members && |faulty| <= MaxFaulty(|members|)
    }
    function Correct(): set<NodeId> { members - faulty }
    function Q(): nat { RequiredVotes(|members|) }
  }

  /** `sent` only grows: a message may be delivered late, repeatedly or never. */
  datatype Network = Network(
    nodes: map<NodeId, Manager>, sent: set<Message>, delivered: set<(NodeId, Message)>)

  datatype Action = NodeReacts(node: NodeId, event: Event) | Forge(msg: Message)

  ghost predicate Init(c: Config, s: Network) {
    && s.nodes.Keys == c.Correct() && s.sent == {} && s.delivered == {}
    && forall i :: i in s.nodes ==>
         s.nodes[i].nodeId == i && s.nodes[i].committee == c.members && s.nodes[i].states == map[]
  }

  function Carried(e: Event, node: NodeId): set<(NodeId, Message)> {
    if e.DirectVote? || e.GossipVote? then {(node, e.msg)} else {}
  }

  function Elements(msgs: seq<Message>): set<Message> { set x | x in msgs }

  /** A vote is delivered only if it was sent; nobody forges a correct member's name. */
  ghost predicate Enabled(c: Config, s: Network, a: Action) {
    match a
    case Forge(msg) => msg.sender !in c.Correct()
    case NodeReacts(i, e) =>
      && i in s.nodes && Admissible(s.nodes[i], e)
      && ((e.DirectVote? || e.GossipVote?) ==> e.msg in s.sent)
  }

  ghost function Step(s: Network, a: Action): Network
    requires a.NodeReacts? ==> a.node in s.nodes
  {
    match a
    case Forge(msg) => s.(sent := s.sent + {msg})
    case NodeReacts(i, e) =>
      var (m1, _, sent) := React(s.nodes[i], e);
      Network(s.nodes[i := m1], s.sent + Elements(sent), s.delivered + Carried(e, i))
  }

  /** A run: `trace[0]` is initial, and `trace[k + 1]` follows by `actions[k]`. */
  ghost predicate Execution(c: Config, trace: seq<Network>, actions: seq<Action>) {
    && |trace| == |actions| + 1 && Init(c, trace[0])
    && forall k :: 0 <= k < |actions| ==>
         Enabled(c, trace[k], actions[k]) && trace[k + 1] == Step(trace[k], actions[k])
  }

  // ----- The invariant -----

  ghost function CoreAt(s: Network, i: NodeId, h: TxHash): Core
    requires i in s.nodes
  {
    CoreOf(s.nodes[i], h)
  }

  ghost predicate NodesSteady(c: Config, s: Network) {
    && s.nodes.Keys == c.Correct()
    && (forall i :: i in s.nodes ==>
         SteadyMember(s.nodes[i]) && s.nodes[i].nodeId == i && s.nodes[i].committee == c.members)
    && (forall i, h :: i in s.nodes ==> Drained(CoreAt(s, i, h), i, c.Q()))
  }

  /** A correct member's votes never run ahead of its phase ... */
  ghost predicate VotesEarned(s: Network) {
    forall msg :: msg in s.sent && msg.sender in s.nodes ==>
        Rank(msg.phase) <= Rank(CoreAt(s, msg.sender, msg.txHash).phase)
  }

  /** ... nor do the votes recorded for it at a core, all of them members'. */
  ghost predicate CoreEarned(c: Config, s: Network, k: Core, h: TxHash) {
    && k.prepares <= c.members && k.commits <= c.members
    && (forall j :: j in k.prepares && j in s.nodes ==> Rank(CoreAt(s, j, h).phase) >= 1)
    && (forall j :: j in k.commits && j in s.nodes ==> Rank(CoreAt(s, j, h).phase) >= 2)
  }

  ghost predicate RecordsEarned(c: Config, s: Network) {
    forall i, h :: i in s.nodes ==> CoreEarned(c, s, CoreAt(s, i, h), h)
  }

  ghost predicate HasSent(s: Network, i: NodeId, h: TxHash, phase: Phase) {
    exists msg :: msg in s.sent && msg.sender == i && msg.txHash == h && msg.phase == phase
  }

  /** Every phase a correct member has passed was announced ... */
  ghost predicate PhasesAnnounced(s: Network) {
    forall i, h, p :: i in s.nodes && p in {Prepare, Commit, Finalized} && Rank(p) <= Rank(CoreAt(s, i, h).phase) ==>
        HasSent(s, i, h, p)
  }

  /** ... and every vote that arrived from a member was recorded. */
  ghost predicate DeliveriesRecorded(c: Config, s: Network) {
    forall i, msg :: (i, msg) in s.delivered && i in s.nodes && msg.sender in c.members ==>
      && (msg.phase == Prepare ==> msg.sender in CoreAt(s, i, msg.txHash).prepares)
      && (msg.phase == Commit ==> msg.sender in CoreAt(s, i, msg.txHash).commits)
  }

  ghost predicate Inv(c: Config, s: Network) {
    NodesSteady(c, s) && VotesEarned(s) && RecordsEarned(c, s) && PhasesAnnounced(s) && DeliveriesRecorded(c, s)
  }

  // ----- What one reaction does -----

  /** The core only grows, by the vote delivered and by the node's own. */
  ghost predicate CoreGrew(k: Core, k': Core, p: set<NodeId>, v: set<NodeId>, me: NodeId) {
    && Rank(k.phase) <= Rank(k'.phase)
    && k.prepares + p <= k'.prepares <= k.prepares + p + (if Rank(k'.phase) >= 1 then {me} else {})
    && k.commits + v <= k'.commits <= k.commits + v + (if Rank(k'.phase) >= 2 then {me} else {})
  }

  lemma SettledGrows(k: Core, v: bool, p: set<NodeId>, c: set<NodeId>, me: NodeId, q: nat)
    requires Drained(k, me, q)
    ensures var k' := Settled(k.validated || v, k.prepares + p, k.commits + c, me, q);
            Drained(k', me, q) && CoreGrew(k, k', p, c, me)
  {
    var k' := Settled(k.validated || v, k.prepares + p, k.commits + c, me, q);
    assert k.prepares + p <= k'.prepares && k.commits + c <= k'.commits;
    SubsetSize(k.prepares, k'.prepares);
    SubsetSize(k.commits, k'.commits);
    if k'.validated {
      assert k'.prepares + {me} == k'.prepares;
    }
  }

  lemma CoreStepGrows(k: Core, e: Event, h: TxHash, committee: set<NodeId>, me: NodeId)
    requires Drained(k, me, RequiredVotes(|committee|))
    ensures Drained(CoreStep(k, e, h, committee, me), me, RequiredVotes(|committee|))
    ensures CoreGrew(k, CoreStep(k, e, h, committee, me), VoterOf(e, h, Prepare, committee),
              VoterOf(e, h, Commit, committee), me)
  {
    hide RequiredVotes, VoterOf, Drained, CoreGrew, Settled;
    SettledGrows(k, Validates(e, h), VoterOf(e, h, Prepare, committee),
        VoterOf(e, h, Commit, committee), me, RequiredVotes(|committee|));
  }

  /** A node sends only votes its phase covers, and one for every phase passed. */
  ghost predicate SentInBetween(sent: set<Message>, h: TxHash, i: NodeId, k: Core, k': Core) {
    && (forall msg :: msg in sent ==> msg.txHash == h && msg.sender == i && Rank(msg.phase) <= Rank(k'.phase))
    && (forall p: Phase :: Rank(k.phase) < Rank(p) <= Rank(k'.phase) ==> exists msg :: msg in sent && msg.phase == p)
  }

  /** Everything the invariant needs to know about a reaction. */
  ghost predicate Reacted(c: Config, i: NodeId, m: Manager, e: Event, m': Manager, sent: set<Message>) {
    var h := Subject(e);
    var k, k' := CoreOf(m, h), CoreOf(m', h);
    && TouchesOnly(m, m', h) && Drained(k', i, c.Q())
    && CoreGrew(k, k', VoterOf(e, h, Prepare, c.members), VoterOf(e, h, Commit, c.members), i)
    && SentInBetween(sent, h, i, k, k')
  }

  /** A relay meets a fresh transaction and leaves it fresh. */
  lemma RelayKeepsCore(m: Manager, e: Event)
    requires e.Relay? && CoreOf(m, e.txHash) == FRESH
    ensures CoreStep(CoreOf(m, e.txHash), e, e.txHash, m.committee, m.nodeId) == FRESH
  {
    NoVoteStep(FRESH, e, e.txHash, m.committee, m.nodeId);
    FreshIsSettled(m.nodeId, RequiredVotes(|m.committee|));
  }

  lemma AnnouncedInBetween(sent: seq<Message>, e: Event, h: TxHash, i: NodeId, k: Core, k': Core)
    requires AllFrom(sent, h, i) && (e.Relay? ==> k' == k)
    requires Phases(sent) == if e.Relay? then [PrePrepare] else Announced(k.phase, k'.phase)
    ensures SentInBetween(Elements(sent), h, i, k, k')
  {
    hide Phases, Rank, Announced;
    SentPhases(sent, Phases(sent));
    RankOfPrePrepare();
    AnnouncedIs(k.phase, k'.phase);
    forall p: Phase | Rank(k.phase) < Rank(p) <= Rank(k'.phase)
      ensures exists msg :: msg in Elements(sent) && msg.phase == p
    {
      assert !e.Relay? && p in Announced(k.phase, k'.phase);
      var msg :| msg in sent && msg.phase == p;
      assert msg in Elements(sent);
    }
  }

  lemma ReactionFacts(c: Config, m: Manager, e: Event)
    requires SteadyMember(m) && m.committee == c.members && Admissible(m, e)
    requires Drained(CoreOf(m, Subject(e)), m.nodeId, c.Q())
    ensures Reacted(c, m.nodeId, m, e, React(m, e).0, Elements(React(m, e).2))
  {
    hide ReactFor, Phases, CoreStep, RequiredVotes, Drained, Rank, CoreOf, CoreGrew, Announced, SteadyMember, VoterOf;
    EventProjects(m, e, CHAIN_ROUNDS);
    var (m1, last, sent) := React(m, e);
    var h := Subject(e);
    CoreStepGrows(CoreOf(m, h), e, h, m.committee, m.nodeId);
    if e.Relay? {
      RelayKeepsCore(m, e);
    }
    AnnouncedInBetween(sent, e, h, m.nodeId, CoreOf(m, h), CoreOf(m1, h));
  }

  lemma RankOfPrePrepare()
    ensures Rank(PrePrepare) == 0 && forall p :: 0 <= Rank(p)
  {
  }

  lemma SentPhases(sent: seq<Message>, phases: seq<Phase>)
    requires Phases(sent) == phases
    ensures forall msg :: msg in sent ==> msg.phase in phases
    ensures forall p :: p in phases ==> exists msg :: msg in sent && msg.phase == p
  {
    forall p | p in phases ensures exists msg :: msg in sent && msg.phase == p {
      var i :| 0 <= i < |phases| && phases[i] == p;
      assert sent[i] in sent && sent[i].phase == p;
    }
  }

  // ----- The invariant holds in every run -----

  lemma InitKeepsInv(c: Config, s: Network)
    requires c.Valid() && Init(c, s)
    ensures Inv(c, s)
  {
  }

  /** Between two network states a correct member's phases only rise. */
  ghost predicate PhasesRise(s: Network, s': Network) {
    && s.nodes.Keys == s'.nodes.Keys && s.sent <= s'.sent && s.delivered <= s'.delivered
    && forall i, h :: i in s.nodes ==>
         && Rank(CoreAt(s, i, h).phase) <= Rank(CoreAt(s', i, h).phase)
         && CoreAt(s, i, h).prepares <= CoreAt(s', i, h).prepares
         && CoreAt(s, i, h).commits <= CoreAt(s', i, h).commits
  }

  lemma ForgeKeepsInv(c: Config, s: Network, msg: Message)
    requires Inv(c, s) && Enabled(c, s, Forge(msg))
    ensures Inv(c, Step(s, Forge(msg))) && PhasesRise(s, Step(s, Forge(msg)))
  {
    hide Drained, SteadyMember, Rank, CoreOf;
    var s' := Step(s, Forge(msg));
    forall i, h | i in s.nodes ensures CoreAt(s', i, h) == CoreAt(s, i, h) {
    }
    forall i, h, p | i in s.nodes && HasSent(s, i, h, p) ensures HasSent(s', i, h, p) {
      var v :| v in s.sent && v.sender == i && v.txHash == h && v.phase == p;
      assert v in s'.sent;
    }
    assert NodesSteady(c, s');
    assert VotesEarned(s');
    assert RecordsEarned(c, s');
    assert PhasesAnnounced(s');
    assert DeliveriesRecorded(c, s');
  }

  lemma ReactionKeepsInv(c: Config, s: Network, i: NodeId, e: Event)
    requires Inv(c, s) && Enabled(c, s, NodeReacts(i, e))
    ensures Inv(c, Step(s, NodeReacts(i, e))) && PhasesRise(s, Step(s, NodeReacts(i, e)))
  {
    hide React, Drained, SteadyMember, Rank, CoreOf;
    var s' := Step(s, NodeReacts(i, e));
    var m, m1, sent := s.nodes[i], s'.nodes[i], Elements(React(s.nodes[i], e).2);
    assert Drained(CoreAt(s, i, Subject(e)), i, c.Q());
    ReactionFacts(c, m, e);
    ReactionSteady(c, s, s', i, e, sent);
    ReactionVotes(c, s, s', i, e, sent);
    ReactionRecords(c, s, s', i, e, sent);
    ReactionAnnounces(c, s, s', i, e, sent);
    ReactionDelivers(c, s, s', i, e, sent);
  }

  ghost predicate Moved(c: Config, s: Network, s': Network, i: NodeId, e: Event, sent: set<Message>) {
    && i in s.nodes && i in s'.nodes && s'.nodes == s.nodes[i := s'.nodes[i]]
    && s'.sent == s.sent + sent && s'.delivered == s.delivered + Carried(e, i)
    && Reacted(c, i, s.nodes[i], e, s'.nodes[i], sent)
  }

  lemma ReactionSteady(c: Config, s: Network, s': Network, i: NodeId, e: Event, sent: set<Message>)
    requires NodesSteady(c, s) && Moved(c, s, s', i, e, sent)
    ensures NodesSteady(c, s') && PhasesRise(s, s')
  {
    hide Drained, SteadyMember, Rank, CoreOf;
    forall j, h | j in s.nodes
      ensures Drained(CoreAt(s', j, h), j, c.Q())
      ensures Rank(CoreAt(s, j, h).phase) <= Rank(CoreAt(s', j, h).phase)
      ensures CoreAt(s, j, h).prepares <= CoreAt(s', j, h).prepares
      ensures CoreAt(s, j, h).commits <= CoreAt(s', j, h).commits
    {
      assert j != i || h != Subject(e) ==> CoreAt(s', j, h) == CoreAt(s, j, h);
    }
  }

  lemma ReactionVotes(c: Config, s: Network, s': Network, i: NodeId, e: Event, sent: set<Message>)
    requires VotesEarned(s) && PhasesRise(s, s') && Moved(c, s, s', i, e, sent)
    ensures VotesEarned(s')
  {
    hide Drained, SteadyMember, Rank, CoreOf;
    forall msg | msg in s'.sent && msg.sender in s'.nodes
      ensures Rank(msg.phase) <= Rank(CoreAt(s', msg.sender, msg.txHash).phase)
    {
      if msg in s.sent {
        assert Rank(CoreAt(s, msg.sender, msg.txHash).phase) <= Rank(CoreAt(s', msg.sender, msg.txHash).phase);
      }
    }
  }

  lemma RaisedStaysEarned(c: Config, s: Network, s': Network, k: Core, h: TxHash)
    requires CoreEarned(c, s, k, h) && PhasesRise(s, s')
    ensures CoreEarned(c, s', k, h)
  {
    hide CoreOf, Rank;
    assert forall j :: j in s.nodes ==> Rank(CoreAt(s, j, h).phase) <= Rank(CoreAt(s', j, h).phase);
  }

  lemma ReactionRecords(c: Config, s: Network, s': Network, i: NodeId, e: Event, sent: set<Message>)
    requires NodesSteady(c, s) && VotesEarned(s) && RecordsEarned(c, s) && PhasesRise(s, s')
    requires Moved(c, s, s', i, e, sent)
    requires (e.DirectVote? || e.GossipVote?) ==> e.msg in s.sent
    ensures RecordsEarned(c, s')
  {
    hide Drained, SteadyMember, CoreOf, Rank, CoreGrew;
    forall j, h | j in s'.nodes ensures CoreEarned(c, s', CoreAt(s', j, h), h) {
      assert CoreEarned(c, s, CoreAt(s, j, h), h);
      RaisedStaysEarned(c, s, s', CoreAt(s, j, h), h);
      if j != i || h != Subject(e) {
        assert CoreAt(s', j, h) == CoreAt(s, j, h);
      } else {
        ReactedCoreEarned(c, s, s', i, e, sent);
      }
    }
  }

  lemma ReactedCoreEarned(c: Config, s: Network, s': Network, i: NodeId, e: Event, sent: set<Message>)
    requires VotesEarned(s) && PhasesRise(s, s') && Moved(c, s, s', i, e, sent) && i in c.members
    requires (e.DirectVote? || e.GossipVote?) ==> e.msg in s.sent
    requires CoreEarned(c, s', CoreAt(s, i, Subject(e)), Subject(e))
    ensures CoreEarned(c, s', CoreAt(s', i, Subject(e)), Subject(e))
  {
    hide Drained, SteadyMember, CoreOf;
    var h := Subject(e);
    assert forall j :: j in s.nodes ==> Rank(CoreAt(s, j, h).phase) <= Rank(CoreAt(s', j, h).phase);
    assert VoterOf(e, h, Prepare, c.members) <= c.members && VoterOf(e, h, Commit, c.members) <= c.members;
  }

  lemma ReactionAnnounces(c: Config, s: Network, s': Network, i: NodeId, e: Event, sent: set<Message>)
    requires PhasesAnnounced(s) && Moved(c, s, s', i, e, sent)
    ensures PhasesAnnounced(s')
  {
    hide Drained, SteadyMember, CoreOf, CoreGrew;
    forall j, h, p | j in s'.nodes && p in {Prepare, Commit, Finalized} && Rank(p) <= Rank(CoreAt(s', j, h).phase)
      ensures HasSent(s', j, h, p)
    {
      if j == i && h == Subject(e) && Rank(CoreAt(s, i, h).phase) < Rank(p) {
        var msg :| msg in sent && msg.phase == p;
        assert msg in s'.sent;
      } else {
        assert j != i || h != Subject(e) ==> CoreAt(s', j, h) == CoreAt(s, j, h);
        assert HasSent(s, j, h, p);
        var msg :| msg in s.sent && msg.sender == j && msg.txHash == h && msg.phase == p;
        assert msg in s'.sent;
      }
    }
  }

  lemma ReactionDelivers(c: Config, s: Network, s': Network, i: NodeId, e: Event, sent: set<Message>)
    requires DeliveriesRecorded(c, s) && PhasesRise(s, s') && Moved(c, s, s', i, e, sent)
    ensures DeliveriesRecorded(c, s')
  {
    hide Drained, SteadyMember, CoreOf, Rank;
    forall j, msg | (j, msg) in s'.delivered && j in s'.nodes && msg.sender in c.members
      ensures msg.phase == Prepare ==> msg.sender in CoreAt(s', j, msg.txHash).prepares
      ensures msg.phase == Commit ==> msg.sender in CoreAt(s', j, msg.txHash).commits
    {
      if (j, msg) in s.delivered {
        assert CoreAt(s, j, msg.txHash).prepares <= CoreAt(s', j, msg.txHash).prepares;
        assert CoreAt(s, j, msg.txHash).commits <= CoreAt(s', j, msg.txHash).commits;
      } else {
        assert msg == e.msg && j == i;
      }
    }
  }

  lemma {:induction false} InvAlways(c: Config, trace: seq<Network>, actions: seq<Action>, k: nat)
    requires c.Valid() && Execution(c, trace, actions) && k < |trace|
    ensures Inv(c, trace[k])
  {
    if k == 0 {
      InitKeepsInv(c, trace[0]);
    } else {
      InvAlways(c, trace, actions, k - 1);
      StepKeepsInv(c, trace[k - 1], actions[k - 1]);
    }
  }

  lemma StepKeepsInv(c: Config, s: Network, a: Action)
    requires Inv(c, s) && Enabled(c, s, a)
    ensures Inv(c, Step(s, a)) && PhasesRise(s, Step(s, a))
  {
    match a
    case Forge(msg) => ForgeKeepsInv(c, s, msg);
    case NodeReacts(i, e) => ReactionKeepsInv(c, s, i, e);
  }

  /** No phase, vote or message is ever lost. */
  lemma {:induction false} PhasesRiseAlways(c: Config, trace: seq<Network>, actions: seq<Action>, k: nat, l: nat)
    requires c.Valid() && Execution(c, trace, actions) && k <= l < |trace|
    ensures PhasesRise(trace[k], trace[l])
    decreases l
  {
    hide Inv, Init, Enabled, Step, CoreOf, Rank;
    if k < l {
      PhasesRiseAlways(c, trace, actions, k, l - 1);
      InvAlways(c, trace, actions, l - 1);
      StepKeepsInv(c, trace[l - 1], actions[l - 1]);
      PhasesRiseTransitive(trace[k], trace[l - 1], trace[l]);
    }
  }

  lemma PhasesRiseTransitive(a: Network, b: Network, d: Network)
    requires PhasesRise(a, b) && PhasesRise(b, d)
    ensures PhasesRise(a, d)
  {
    hide CoreOf, Rank;
    forall i, h | i in a.nodes
      ensures Rank(CoreAt(a, i, h).phase) <= Rank(CoreAt(d, i, h).phase)
      ensures CoreAt(a, i, h).prepares <= CoreAt(d, i, h).prepares
      ensures CoreAt(a, i, h).commits <= CoreAt(d, i, h).commits
    {
      assert CoreAt(a, i, h).prepares <= CoreAt(b, i, h).prepares;
    }
  }

  // ----- Safety -----

  ghost predicate FinalizedAt(s: Network, i: NodeId, h: TxHash) {
    i in s.nodes && CoreAt(s, i, h).phase == Finalized
  }

  /** The correct members that validated `h` and hold a Prepare quorum for it. */
  ghost function Certifiers(c: Config, s: Network, h: TxHash): set<NodeId> {
    set i | i in s.nodes.Keys && CoreAt(s, i, h).validated && |CoreAt(s, i, h).prepares| >= c.Q()
  }

  lemma DrainedFacts(k: Core, me: NodeId, q: nat)
    requires Drained(k, me, q)
    ensures Rank(k.phase) >= 1 <==> k.validated
    ensures Rank(k.phase) >= 2 <==> k.validated && |k.prepares| >= q
    ensures k.phase == Finalized <==> k.validated && |k.prepares| >= q && |k.commits| >= q
  {
  }

  /** A transaction that one correct member has finalized was validated locally,
      and seen through a full Prepare quorum, by more correct members than there
      can be faulty ones. */
  lemma Safety(c: Config, trace: seq<Network>, actions: seq<Action>, k: nat, i: NodeId, h: TxHash)
    requires c.Valid() && Execution(c, trace, actions) && k < |trace|
    requires FinalizedAt(trace[k], i, h)
    ensures Certifiers(c, trace[k], h) <= c.Correct()
    ensures |Certifiers(c, trace[k], h)| >= MaxFaulty(|c.members|) + 1
  {
    hide Execution, CoreOf, Drained;
    var s := trace[k];
    InvAlways(c, trace, actions, k);
    var commits := CoreAt(s, i, h).commits;
    DrainedFacts(CoreAt(s, i, h), i, c.Q());
    forall j | j in commits - c.faulty ensures j in Certifiers(c, s, h) {
      assert j in c.members && j in s.nodes;
      DrainedFacts(CoreAt(s, j, h), j, c.Q());
    }
    CorrectPart(commits, c.faulty);
    SubsetSize(commits - c.faulty, Certifiers(c, s, h));
    RequiredVotesBalances(|c.members|);
  }

  /** The Commit quorums behind any two finalizations, of any transactions at any
      moments of a run, share more members than can be faulty, so at least one
      correct one. */
  lemma FinalizationsOverlap(c: Config, trace: seq<Network>, actions: seq<Action>,
                             k: nat, i: NodeId, h: TxHash, l: nat, j: NodeId, g: TxHash)
    requires c.Valid() && Execution(c, trace, actions) && k < |trace| && l < |trace|
    requires FinalizedAt(trace[k], i, h) && FinalizedAt(trace[l], j, g)
    ensures var shared := CoreAt(trace[k], i, h).commits * CoreAt(trace[l], j, g).commits;
            |shared| >= MaxFaulty(|c.members|) + 1 && shared - c.faulty != {}
  {
    hide Execution, CoreOf, Drained;
    InvAlways(c, trace, actions, k);
    InvAlways(c, trace, actions, l);
    DrainedFacts(CoreAt(trace[k], i, h), i, c.Q());
    DrainedFacts(CoreAt(trace[l], j, g), j, c.Q());
    QuorumsIntersect(c.members, CoreAt(trace[k], i, h).commits, CoreAt(trace[l], j, g).commits);
    CorrectPart(CoreAt(trace[k], i, h).commits * CoreAt(trace[l], j, g).commits, c.faulty);
  }

  /** Once finalized, a transaction stays finalized. */
  lemma FinalizedForever(c: Config, trace: seq<Network>, actions: seq<Action>, k: nat, l: nat, i: NodeId, h: TxHash)
    requires c.Valid() && Execution(c, trace, actions) && k <= l < |trace|
    requires FinalizedAt(trace[k], i, h)
    ensures FinalizedAt(trace[l], i, h)
  {
    hide Execution, CoreOf;
    PhasesRiseAlways(c, trace, actions, k, l);
    assert Rank(CoreAt(trace[k], i, h).phase) <= Rank(CoreAt(trace[l], i, h).phase);
  }

  // ----- Liveness -----

  /** Everything the members of `group` sent about `h` has reached all of them. */
  ghost predicate Quiescent(s: Network, group: set<NodeId>, h: TxHash) {
    forall i, msg :: i in group && msg in s.sent && msg.sender in group && msg.sender != i && msg.txHash == h ==>
        (i, msg) in s.delivered
  }

  /** If the correct members that validated a transaction make up n - f of the
      committee and their votes have all arrived, each of them has finalized it. */
  lemma Liveness(c: Config, trace: seq<Network>, actions: seq<Action>, k: nat, group: set<NodeId>, h: TxHash)
    requires c.Valid() && Execution(c, trace, actions) && k < |trace|
    requires group <= c.Correct() && |group| >= |c.members| - MaxFaulty(|c.members|)
    requires forall i :: i in group && i in trace[k].nodes ==> CoreAt(trace[k], i, h).validated
    requires Quiescent(trace[k], group, h)
    ensures forall i :: i in group ==> FinalizedAt(trace[k], i, h)
  {
    hide Execution, CoreOf, Drained;
    var s := trace[k];
    InvAlways(c, trace, actions, k);
    RequiredVotesBalances(|c.members|);
    forall i | i in group ensures Rank(CoreAt(s, i, h).phase) >= 2 {
      DrainedFacts(CoreAt(s, i, h), i, c.Q());
      forall j | j in group ensures j in CoreAt(s, i, h).prepares {
        DrainedFacts(CoreAt(s, j, h), j, c.Q());
        VoteArrived(c, s, group, h, i, j, Prepare);
      }
      SubsetSize(group, CoreAt(s, i, h).prepares);
    }
    forall i | i in group ensures FinalizedAt(s, i, h) {
      DrainedFacts(CoreAt(s, i, h), i, c.Q());
      forall j | j in group ensures j in CoreAt(s, i, h).commits {
        VoteArrived(c, s, group, h, i, j, Commit);
      }
      SubsetSize(group, CoreAt(s, i, h).commits);
    }
  }

  /** In a quiescent group, a phase that `j` has passed is recorded at `i`. */
  lemma VoteArrived(c: Config, s: Network, group: set<NodeId>, h: TxHash, i: NodeId, j: NodeId, phase: Phase)
    requires Inv(c, s) && group <= c.Correct() && Quiescent(s, group, h) && i in group && j in group
    requires (phase == Prepare || phase == Commit) && Rank(phase) <= Rank(CoreAt(s, j, h).phase)
    ensures j in (if phase == Prepare then CoreAt(s, i, h).prepares else CoreAt(s, i, h).commits)
  {
    hide CoreOf;
    assert HasSent(s, j, h, phase);
    var msg :| msg in s.sent && msg.sender == j && msg.txHash == h && msg.phase == phase;
    if i == j {
      assert Drained(CoreAt(s, i, h), i, c.Q());
    } else {
      assert (i, msg) in s.delivered;
    }
  }
}
