/** When a transaction takes effect: `handle_finalized_tx` and the pending tables of
    the consensus node's event loop, beside the vote machine. */
module Finalization {
  import opened Wrappers
  import opened Quorum
  import opened PporProtocol
  import opened PporClock
  import opened Committee
  import opened Confluence
  import Epochs
  import opened Accounting
  import opened NameRegistry
  import opened Ppor
  import Bank

  const TX_TYPE_NAME_REGISTRATION := 3
  const TX_TYPE_UPDATE_CID := 4
  const TX_TYPE_LEDGER := 5
  const TX_TYPE_UPDATE_METADATA := 6

  /** Transactions by kind and hash: one table for each kind. */
  type Pending = map<(int, TxHash), Bank.Command>

  /** The node: its votes, what waits for a decision, what has taken effect. */
  datatype Loop = Loop(m: Manager, pending: Pending, books: Bank.Books, applied: seq<(int, TxHash)>)

  predicate Fits(txType: int, c: Bank.Command) {
    match c
    case RegisterName(_, _, _, _) => txType == TX_TYPE_NAME_REGISTRATION
    case UpdateCid(_, _, _) => txType == TX_TYPE_UPDATE_CID
    case CreditTx(_, _) => txType == TX_TYPE_LEDGER
    case DebitTx(_, _) => txType == TX_TYPE_LEDGER
    case UpdateMetadata(_, _, _, _, _) => txType == TX_TYPE_UPDATE_METADATA
    case _ => false
  }

  /** Each kind has its table; what has none is not kept. */
  function Noted(pending: Pending, h: TxHash, txType: int, c: Bank.Command): Pending {
    if Fits(txType, c) then pending[(txType, h) := c] else pending
  }

  /** Effects carry the time at which they are made. */
  function Timed(c: Bank.Command, now: nat): Bank.Command {
    match c
    case RegisterName(name, did, publicKey, _) => Bank.RegisterName(name, did, publicKey, now)
    case UpdateMetadata(name, title, description, iconCid, _) =>
      Bank.UpdateMetadata(name, title, description, iconCid, now)
    case _ => c
  }

  /** Is the transaction's vote state dropped with its effect? */
  function Forgets(books: Bank.Books, c: Bank.Command): bool {
    match c
    case RegisterName(_, did, _, _) => BalanceOf(books.balances, did) >= Bank.REGISTRATION_FEE
    case UpdateCid(name, _, _) => name in books.names
    case UpdateMetadata(_, _, _, _, _) => true
    case _ => false
  }

  /** A pending transaction that is reported final leaves its table and has its
      effect; anything else is ignored. */
  function Finalize(codec: Bank.Codec, l: Loop, msg: Message, now: nat): Loop {
    var key := (msg.txType, msg.txHash);
    if key !in l.pending then l
    else
      var c := Timed(l.pending[key], now);
      Loop(if Forgets(l.books, c) then l.m.(states := l.m.states - {msg.txHash}) else l.m,
           l.pending - {key}, Bank.Apply(codec, l.books, c), l.applied + [key])
  }

  /** What reaches the event loop: votes sent directly or by gossip, transactions
      by gossip, and transactions relayed by another node. */
  datatype Arrival =
    | Vote(msg: Message)
    | Gossip(msg: Message)
    | Transaction(txHash: TxHash, txType: int, command: Bank.Command)
    | Relayed(txHash: TxHash, txType: int, content: Option<Bank.Command>)

  function EventOf(a: Arrival): Event {
    match a
    case Vote(msg) => DirectVote(msg)
    case Gossip(msg) => GossipVote(msg)
    case Transaction(h, t, _) => LocalValidation(h, t)
    case Relayed(h, t, _) => Relay(h, 0, t)
  }

  /** The rest of an arrival, when the vote machine has come to `m` and the chain
      has returned `last`. */
  function After(codec: Bank.Codec, l: Loop, a: Arrival, m: Manager, last: Option<Message>, now: nat): Loop {
    var noted := if a.Transaction? then Noted(l.pending, a.txHash, a.txType, a.command) else l.pending;
    var l0 := l.(m := m, pending := noted);
    var l1 := if a.Gossip? && a.msg.phase == Finalized then Finalize(codec, l0, a.msg, now) else l0;
    var l2 := if last.Some? && last.value.phase == Finalized then Finalize(codec, l1, last.value, now) else l1;
    if a.Relayed? && a.content.Some? then l2.(pending := Noted(l2.pending, a.txHash, a.txType, a.content.value)) else l2
  }

  /** The clocks, and the stations of the chain. */
  datatype Course = Course(direct: bool, now: nat, tick: Tick, ticks: seq<Tick>, first: Station, trace: seq<Station>)

  ghost predicate Next(hash: NodeHash, codec: Bank.Codec, l: Loop, a: Arrival, c: Course, l': Loop) {
    && Begins(hash, l.m, EventOf(a), c.tick, c.first)
    && if c.direct || !a.Relayed?
       then
         && |c.ticks| == CHAIN_ROUNDS && Chained(hash, c.trace, c.ticks) && c.trace[0] == c.first
         && l' == After(codec, l, a, c.trace[CHAIN_ROUNDS].m, c.trace[CHAIN_ROUNDS].current, c.now)
       else l' == After(codec, l, a, c.first.m, None, c.now)
  }

  /** The arrival has a transaction take effect: it is gossip that it is final, and
      the transaction is pending. */
  predicate Reports(l: Loop, a: Arrival) {
    a.Gossip? && a.msg.phase == Finalized && (a.msg.txType, a.msg.txHash) in l.pending
  }

  lemma FinalizeMovesOn(codec: Bank.Codec, l: Loop, msg: Message, now: nat)
    requires MovedOn(l.m)
    ensures MovedOn(Finalize(codec, l, msg, now).m)
  {
    hide Bank.Apply, Forgets;
  }

  /** Whatever the epochs do: a transaction takes effect exactly when gossip reports
      it final while it is pending, whoever says so and whatever votes are in; the
      node's own finalization never has any effect. */
  lemma AppliesIff(hash: NodeHash, codec: Bank.Codec, l: Loop, a: Arrival, c: Course, l': Loop)
    requires MovedOn(l.m) && Next(hash, codec, l, a, c, l')
    ensures MovedOn(l'.m)
    ensures if Reports(l, a)
            then var key := (a.msg.txType, a.msg.txHash);
                 && l'.applied == l.applied + [key] && key !in l'.pending
                 && l'.books == Bank.Apply(codec, l.books, Timed(l.pending[key], c.now))
            else l'.applied == l.applied && l'.books == l.books
  {
    hide MovedOn, Begins, Round, Bank.Apply, Forgets;
    BeginMovesOn(hash, l.m, EventOf(a), c.tick, c.first);
    if c.direct || !a.Relayed? { ChainReturnsNothing(hash, c.trace, c.ticks); }
    var m := if c.direct || !a.Relayed? then c.trace[CHAIN_ROUNDS].m else c.first.m;
    if a.Gossip? && a.msg.phase == Finalized { FinalizeMovesOn(codec, l.(m := m), a.msg, c.now); }
  }

  /** Over every run from a new manager: each effect was reported by gossip when it
      was pending. */
  lemma {:induction false} AppliedWereReported(hash: NodeHash, codec: Bank.Codec, run: seq<Loop>,
                                               arrivals: seq<Arrival>,
                                               courses: seq<Course>, n: nat, key: (int, TxHash)) returns (j: nat)
    requires |run| == |arrivals| + 1 == |courses| + 1 && n < |run|
    requires run[0].m.states == map[] && run[0].applied == []
    requires forall i :: 0 <= i < |arrivals| ==> Next(hash, codec, run[i], arrivals[i], courses[i], run[i + 1])
    requires key in run[n].applied
    ensures j < n && Reports(run[j], arrivals[j]) && key == (arrivals[j].msg.txType, arrivals[j].msg.txHash)
  {
    hide Next, Reports, Bank.Apply, MovedOn;
    LoopMovesOn(hash, codec, run, arrivals, courses, n);
    j := n - 1;
    LoopMovesOn(hash, codec, run, arrivals, courses, j);
    AppliesIff(hash, codec, run[j], arrivals[j], courses[j], run[n]);
    if key in run[j].applied { j := AppliedWereReported(hash, codec, run, arrivals, courses, j, key); }
  }

  lemma {:induction false} LoopMovesOn(hash: NodeHash, codec: Bank.Codec, run: seq<Loop>, arrivals: seq<Arrival>,
                                       courses: seq<Course>, n: nat)
    requires |run| == |arrivals| + 1 == |courses| + 1 && n < |run| && run[0].m.states == map[]
    requires forall i :: 0 <= i < |arrivals| ==> Next(hash, codec, run[i], arrivals[i], courses[i], run[i + 1])
    ensures MovedOn(run[n].m)
  {
    hide Next, Reports, Bank.Apply;
    if n > 0 {
      LoopMovesOn(hash, codec, run, arrivals, courses, n - 1);
      AppliesIff(hash, codec, run[n - 1], arrivals[n - 1], courses[n - 1], run[n]);
    }
  }

  // ----- Is what takes effect final here? -----

  /** One arrival while the epoch is running. */
  function CalmNext(codec: Bank.Codec, l: Loop, a: Arrival, direct: bool, now: nat): Loop {
    if direct || !a.Relayed? then
      var (m, last, _) := React(l.m, EventOf(a));
      After(codec, l, a, m, last, now)
    else After(codec, l, a, PporProtocol.Propose(l.m, a.txHash, 0, a.txType).0, None, now)
  }

  /** No epoch expires. */
  ghost predicate CalmCourse(c: Course) { !c.tick.expired && Calm(c.ticks) }

  lemma CalmNextIs(hash: NodeHash, codec: Bank.Codec, l: Loop, a: Arrival, c: Course, l': Loop)
    requires Next(hash, codec, l, a, c, l') && CalmCourse(c)
    ensures l' == CalmNext(codec, l, a, c.direct, c.now)
  {
    hide React, After, SentIn, PporProtocol.Propose;
    if c.direct || !a.Relayed? { CalmReaction(hash, l.m, EventOf(a), c.tick, c.trace, c.ticks); }
  }

  /** And it can always happen. */
  lemma CalmNextHappens(hash: NodeHash, codec: Bank.Codec, l: Loop, a: Arrival, now: nat) returns (c: Course)
    ensures CalmCourse(c) && c.direct && Next(hash, codec, l, a, c, CalmNext(codec, l, a, true, now))
  {
    hide After, Handle, PporProtocol.MarkValidated, PporProtocol.Propose, React;
    var tick := Tick(false, {});
    var first := CalmBeginning(hash, l.m, EventOf(a));
    var s1 := CalmRound(hash, first);
    var s2 := CalmRound(hash, s1);
    var s3 := CalmRound(hash, s2);
    c := Course(true, now, tick, [tick, tick, tick], first, [first, s1, s2, s3]);
    assert forall i :: 0 <= i < 3 ==> Round(hash, c.trace[i], c.ticks[i], c.trace[i + 1]);
    CalmReaction(hash, l.m, EventOf(a), c.tick, c.trace, c.ticks);
  }

  lemma CalmRound(hash: NodeHash, s: Station) returns (next: Station)
    ensures Round(hash, s, Tick(false, {}), next)
  {
    hide Handle;
    match s.current
    case None => next := s;
    case Some(msg) =>
      next := Station(Handle(s.m, msg).0, Handle(s.m, msg).1);
      assert Turned(hash, s.m, Tick(false, {}), s.m) && Handle(s.m, msg) == (next.m, next.current);
  }

  lemma CalmBeginning(hash: NodeHash, m: Manager, e: Event) returns (first: Station)
    ensures Begins(hash, m, e, Tick(false, {}), first)
  {
    hide Handle, PporProtocol.MarkValidated, PporProtocol.Propose;
    assert Turned(hash, m, Tick(false, {}), m);
    match e
    case DirectVote(msg) => first := Station(m, Some(msg));
    case GossipVote(msg) =>
      first := Station(Handle(m, msg).0, Handle(m, msg).1);
      assert Handle(m, msg) == (first.m, first.current);
    case LocalValidation(h, ty) =>
      var r := PporProtocol.MarkValidated(m, h, ty);
      first := Station(r.0, r.1);
      assert PporProtocol.MarkValidated(m, h, ty) == (first.m, first.current);
    case Relay(h, n, ty) =>
      var r := PporProtocol.Propose(m, h, n, ty);
      first := Station(r.0, r.1);
  }

  /** A run of the event loop in which no epoch expires. */
  ghost predicate CalmRun(hash: NodeHash, codec: Bank.Codec, run: seq<Loop>, arrivals: seq<Arrival>,
                          courses: seq<Course>) {
    && |run| == |arrivals| + 1 == |courses| + 1
    && forall i :: 0 <= i < |arrivals| ==>
         Next(hash, codec, run[i], arrivals[i], courses[i], run[i + 1]) && CalmCourse(courses[i])
  }

  function EventsOf(arrivals: seq<Arrival>): (events: seq<Event>)
    ensures |events| == |arrivals|
  {
    seq(|arrivals|, i requires 0 <= i < |arrivals| => EventOf(arrivals[i]))
  }

  /** No relay meets a transaction that already holds votes. */
  ghost predicate AdmissibleArrivals(run: seq<Loop>, arrivals: seq<Arrival>)
    requires |run| == |arrivals| + 1
  {
    forall k :: 0 <= k < |arrivals| ==> Admissible(run[k].m, EventOf(arrivals[k]))
  }

  predicate Applied(l: Loop, h: TxHash) { exists i :: 0 <= i < |l.applied| && l.applied[i].1 == h }

  /** Every core is drained, and that of a transaction that has had no effect is
      the one that the delivered votes determine. */
  ghost predicate CoresFollow(m0: Manager, events: seq<Event>, l: Loop) {
    && SteadyMember(l.m) && l.m.nodeId == m0.nodeId && l.m.committee == m0.committee
    && (forall h :: Drained(CoreOf(l.m, h), m0.nodeId, QuorumOf(m0)))
    && forall h :: !Applied(l, h) ==> CoreOf(l.m, h) == VotesSettle(m0, events, h)
  }

  ghost function VotesSettle(m0: Manager, events: seq<Event>, h: TxHash): Core {
    Settled(ValidatedIn(events, h), VotersIn(events, h, Prepare, m0.committee),
        VotersIn(events, h, Commit, m0.committee),
            m0.nodeId, QuorumOf(m0))
  }

  lemma ReactKeepsCores(m0: Manager, events: seq<Event>, l: Loop, e: Event)
    requires CoresFollow(m0, events, l) && Admissible(l.m, e)
    ensures CoresFollow(m0, events + [e], l.(m := React(l.m, e).0))
    ensures forall h :: h != Subject(e) ==> CoreOf(React(l.m, e).0, h) == CoreOf(l.m, h)
  {
    hide React, SteadyMember, Settled, Drained, CoreOf, Admissible, ValidatedIn, VotersIn, CoreStep, QuorumOf;
    var m1, l1 := React(l.m, e).0, l.(m := React(l.m, e).0);
    SameQuorum(m0, l.m);
    ReactsAt(l.m, e, Subject(e));
    forall h
      ensures Drained(CoreOf(m1, h), m0.nodeId, QuorumOf(m0)) && (h != Subject(e) ==> CoreOf(m1, h) == CoreOf(l.m, h))
      ensures !Applied(l1, h) ==> CoreOf(m1, h) == VotesSettle(m0, events + [e], h)
    {
      ReactsAt(l.m, e, h);
      DrainedAgain(m0, l.m, e, h);
      if !Applied(l1, h) {
        assert !Applied(l, h);
        VotesOneMore(m0, events, e, h);
        if h == Subject(e) { StepOfVotes(m0, events, e, h); }
      }
    }
  }

  lemma SameQuorum(m0: Manager, m: Manager)
    requires m.committee == m0.committee
    ensures QuorumOf(m) == QuorumOf(m0) == RequiredVotes(|m0.committee|)
  {
  }

  lemma DrainedAgain(m0: Manager, m: Manager, e: Event, h: TxHash)
    requires m.committee == m0.committee && m.nodeId == m0.nodeId
    ensures Drained(CoreStep(CoreOf(m, h), e, h, m.committee, m.nodeId), m0.nodeId, QuorumOf(m0))
  {
    hide CoreOf, Settled, Drained, VoterOf, Validates, RequiredVotes;
    var k, q := CoreOf(m, h), RequiredVotes(|m.committee|);
    SettledTwice(k.validated || Validates(e, h), k.prepares + VoterOf(e, h, Prepare, m.committee),
                 k.commits + VoterOf(e, h, Commit, m.committee), false, {}, {}, m.nodeId, q);
  }

  lemma VotesOneMore(m0: Manager, events: seq<Event>, e: Event, h: TxHash)
    ensures VotesSettle(m0, events + [e], h)
         == Settled(ValidatedIn(events, h) || Validates(e, h),
                    VotersIn(events, h, Prepare, m0.committee) + VoterOf(e, h, Prepare, m0.committee),
                    VotersIn(events, h, Commit, m0.committee) + VoterOf(e, h, Commit, m0.committee),
                        m0.nodeId, QuorumOf(m0))
    ensures h != Subject(e) ==> VotesSettle(m0, events + [e], h) == VotesSettle(m0, events, h)
  {
    hide Settled, VotersIn, ValidatedIn, QuorumOf, VoterOf, Validates, Subject;
    VotersGrow(events, e, h, Prepare, m0.committee);
    VotersGrow(events, e, h, Commit, m0.committee);
    ValidatedGrows(events, e, h);
    if h != Subject(e) {
      NothingElsewhere(e, h, m0.committee);
      assert VotersIn(events, h, Prepare, m0.committee) + {} == VotersIn(events, h, Prepare, m0.committee);
      assert VotersIn(events, h, Commit, m0.committee) + {} == VotersIn(events, h, Commit, m0.committee);
    }
  }

  lemma StepOfVotes(m0: Manager, events: seq<Event>, e: Event, h: TxHash)
    ensures CoreStep(VotesSettle(m0, events, h), e, h, m0.committee, m0.nodeId) == VotesSettle(m0, events + [e], h)
  {
    hide Settled, VotersIn, ValidatedIn, VoterOf, Validates, Subject, CoreStep;
    VotesOneMore(m0, events, e, h);
    StepOfSettled(e, h, ValidatedIn(events, h), VotersIn(events, h, Prepare, m0.committee),
                  VotersIn(events, h, Commit, m0.committee), m0.committee, m0.nodeId);
  }

  /** An effect may forget the vote state of its own transaction, and no other. */
  lemma FinalizeKeepsCores(m0: Manager, events: seq<Event>, codec: Bank.Codec, l: Loop, msg: Message, now: nat)
    requires CoresFollow(m0, events, l)
    ensures CoresFollow(m0, events, Finalize(codec, l, msg, now))
  {
    hide Bank.Apply, Forgets, Settled, Drained, VotesSettle;
    var l1 := Finalize(codec, l, msg, now);
    FreshIsSettled(m0.nodeId, QuorumOf(m0));
    FreshDrained(m0.nodeId, QuorumOf(m0));
    var key := (msg.txType, msg.txHash);
    if key in l.pending { assert l1.applied[|l.applied|] == key; }
    forall h
      ensures Drained(CoreOf(l1.m, h), m0.nodeId, QuorumOf(m0))
      ensures !Applied(l1, h) ==> CoreOf(l1.m, h) == VotesSettle(m0, events, h)
    {
      if Applied(l, h) { AppliedGrows(l, l1, h); }
      assert CoreOf(l1.m, h) == CoreOf(l.m, h) || (h == msg.txHash && key in l.pending && CoreOf(l1.m, h) == FRESH);
    }
  }

  lemma AppliedGrows(l: Loop, l1: Loop, h: TxHash)
    requires l.applied <= l1.applied && Applied(l, h)
    ensures Applied(l1, h)
  {
    var i :| 0 <= i < |l.applied| && l.applied[i].1 == h;
    assert l1.applied[i].1 == h;
  }

  lemma FreshDrained(me: NodeId, q: nat)
    ensures Drained(FRESH, me, q)
  {
  }

  lemma FollowsBy(m0: Manager, events: seq<Event>, l: Loop, l1: Loop)
    requires CoresFollow(m0, events, l) && l1.m == l.m && l1.applied == l.applied
    ensures CoresFollow(m0, events, l1)
  {
    hide SteadyMember, Drained, CoreOf, VotesSettle;
    forall h | !Applied(l1, h) ensures CoreOf(l1.m, h) == VotesSettle(m0, events, h) { assert !Applied(l, h); }
  }

  lemma ArrivalKeepsCores(m0: Manager, events: seq<Event>, codec: Bank.Codec, l: Loop, a: Arrival, direct: bool,
                          now: nat)
    requires CoresFollow(m0, events, l) && Admissible(l.m, EventOf(a))
    ensures CoresFollow(m0, events + [EventOf(a)], CalmNext(codec, l, a, direct, now))
  {
    hide React, CoresFollow, Finalize, Admissible;
    var after := events + [EventOf(a)];
    if direct || !a.Relayed? {
      var (m, last, _) := React(l.m, EventOf(a));
      ReactKeepsCores(m0, events, l, EventOf(a));
      AfterKeepsCores(m0, after, codec, l, a, m, last, now);
    } else {
      ProposalKeepsCores(m0, events, l, EventOf(a));
      AfterKeepsCores(m0, after, codec, l, a, PporProtocol.Propose(l.m, a.txHash, 0, a.txType).0, None, now);
    }
  }

  lemma AfterKeepsCores(m0: Manager, events: seq<Event>, codec: Bank.Codec, l: Loop, a: Arrival, m: Manager,
                        last: Option<Message>, now: nat)
    requires CoresFollow(m0, events, l.(m := m))
    ensures CoresFollow(m0, events, After(codec, l, a, m, last, now))
  {
    hide CoresFollow, Finalize;
    var noted := if a.Transaction? then Noted(l.pending, a.txHash, a.txType, a.command) else l.pending;
    var l0 := l.(m := m, pending := noted);
    FollowsBy(m0, events, l.(m := m), l0);
    var l1 := if a.Gossip? && a.msg.phase == Finalized then Finalize(codec, l0, a.msg, now) else l0;
    if a.Gossip? && a.msg.phase == Finalized { FinalizeKeepsCores(m0, events, codec, l0, a.msg, now); }
    var l2 := if last.Some? && last.value.phase == Finalized then Finalize(codec, l1, last.value, now) else l1;
    if last.Some? && last.value.phase == Finalized { FinalizeKeepsCores(m0, events, codec, l1, last.value, now); }
    FollowsBy(m0, events, l2, After(codec, l, a, m, last, now));
  }

  /** In gossip mode a relayed proposal is not handled by the node that relays it;
      of a transaction without votes that makes no difference. */
  lemma ProposalKeepsCores(m0: Manager, events: seq<Event>, l: Loop, e: Event)
    requires CoresFollow(m0, events, l) && Admissible(l.m, e) && e.Relay?
    ensures CoresFollow(m0, events + [e], l.(m := PporProtocol.Propose(l.m, e.txHash, e.sequence, e.txType).0))
  {
    hide Settled, Drained, ValidatedIn, VotersIn;
    var l1 := l.(m := PporProtocol.Propose(l.m, e.txHash, e.sequence, e.txType).0);
    forall h
      ensures CoreOf(l1.m, h) == CoreOf(l.m, h)
      ensures !Applied(l1, h) ==> CoreOf(l.m, h) == VotesSettle(m0, events + [e], h)
    {
      VotesOneMore(m0, events, e, h);
      assert VotersIn(events, h, Prepare, m0.committee) + {} == VotersIn(events, h, Prepare, m0.committee);
      assert VotersIn(events, h, Commit, m0.committee) + {} == VotersIn(events, h, Commit, m0.committee);
      assert !Applied(l1, h) ==> !Applied(l, h);
    }
  }

  /** Over every run while the epoch is running: whatever takes effect in between,
      the vote states of the other transactions are what their votes determine. */
  lemma {:induction false} CoresAlwaysFollow(hash: NodeHash, codec: Bank.Codec, run: seq<Loop>, arrivals: seq<Arrival>,
                                             courses: seq<Course>)
    requires CalmRun(hash, codec, run, arrivals, courses) && AdmissibleArrivals(run, arrivals)
    requires SteadyMember(run[0].m) && run[0].applied == [] && forall h :: CoreOf(run[0].m, h) == FRESH
    ensures CoresFollow(run[0].m, EventsOf(arrivals), run[|arrivals|])
    decreases |arrivals|
  {
    hide Next, CalmNext, CalmCourse, Settled, Drained, SteadyMember, Admissible, CoreOf, ValidatedIn, QuorumOf;
    var m0 := run[0].m;
    if arrivals == [] {
      forall h ensures CoreOf(m0, h) == VotesSettle(m0, [], h) && Drained(CoreOf(m0, h), m0.nodeId, QuorumOf(m0)) {
        NothingVoted(m0, h);
      }
    } else {
      var n := |arrivals| - 1;
      CoresAlwaysFollow(hash, codec, run[..n + 1], arrivals[..n], courses[..n]);
      CalmNextIs(hash, codec, run[n], arrivals[n], courses[n], run[n + 1]);
      ArrivalKeepsCores(m0, EventsOf(arrivals[..n]), codec, run[n], arrivals[n], courses[n].direct, courses[n].now);
      assert EventsOf(arrivals) == EventsOf(arrivals[..n]) + [EventOf(arrivals[n])];
    }
  }

  lemma NothingVoted(m: Manager, h: TxHash)
    ensures VotesSettle(m, [], h) == FRESH && Drained(FRESH, m.nodeId, QuorumOf(m))
  {
    assert VotersIn([], h, Prepare, m.committee) == {} && VotersIn([], h, Commit, m.committee) == {};
    FreshIsSettled(m.nodeId, QuorumOf(m));
    FreshDrained(m.nodeId, QuorumOf(m));
  }

  /** A transaction that takes effect for the first time is final here exactly if
      it has been validated here and, with this node's own votes, a quorum of
      Prepare votes and one of Commit votes have been delivered. */
  lemma AppliedIsFinalIff(hash: NodeHash, codec: Bank.Codec, run: seq<Loop>, arrivals: seq<Arrival>,
                          courses: seq<Course>, a: Arrival)
    requires CalmRun(hash, codec, run, arrivals, courses) && AdmissibleArrivals(run, arrivals)
    requires SteadyMember(run[0].m) && run[0].applied == [] && forall h :: CoreOf(run[0].m, h) == FRESH
    requires Reports(run[|arrivals|], a) && !Applied(run[|arrivals|], a.msg.txHash)
    ensures var h, events, m0 := a.msg.txHash, EventsOf(arrivals), run[0].m;
            CoreOf(run[|arrivals|].m, h).phase == Finalized
            <==> ValidatedIn(events, h)
                 && |VotersIn(events, h, Prepare, m0.committee) + {m0.nodeId}| >= QuorumOf(m0)
                 && |VotersIn(events, h, Commit, m0.committee) + {m0.nodeId}| >= QuorumOf(m0)
  {
    hide CalmRun, SteadyMember, Drained, ValidatedIn, VotersIn, AdmissibleArrivals;
    CoresAlwaysFollow(hash, codec, run, arrivals, courses);
  }

  // ----- It fails both ways -----

  function NewLoop(committee: set<NodeId>): Loop {
    Loop(Manager(map[], 0, "a", map p | p in committee :: 100, committee, "genesis_hash", 0), map[],
         Bank.Books(map[], map[], map[], map[], []), [])
  }

  function SomeCredit(): Arrival { Transaction("h", TX_TYPE_LEDGER, Bank.CreditTx("w", 7)) }

  function Rumour(): Message { Message(Finalized, 0, 0, "h", "z", TX_TYPE_LEDGER) }

  lemma AfterCredit(codec: Bank.Codec, committee: set<NodeId>) returns (l: Loop)
    requires "a" in committee
    ensures l == CalmNext(codec, NewLoop(committee), SomeCredit(), true, 0)
    ensures SteadyMember(l.m) && l.m.nodeId == "a" && l.m.committee == committee
    ensures l.pending == map[(TX_TYPE_LEDGER, "h") := Bank.CreditTx("w", 7)]
    ensures l.applied == [] && l.books == NewLoop(committee).books
    ensures CoreOf(l.m, "h") == Settled(true, {}, {}, "a", RequiredVotes(|committee|))
  {
    hide ReactFor, Settled, RequiredVotes, Announced, Phases;
    var m := NewLoop(committee).m;
    var e := LocalValidation("h", TX_TYPE_LEDGER);
    FreshDrained("a", QuorumOf(m));
    EventProjects(m, e, CHAIN_ROUNDS);
    NoVoteStep(FRESH, e, "h", committee, "a");
    l := CalmNext(codec, NewLoop(committee), SomeCredit(), true, 0);
  }

  /** A credit that one of two members has validated, and for which no vote has
      come, is paid when a node outside the committee says that it is final. */
  lemma AppliedUnfinalized(hash: NodeHash, codec: Bank.Codec) returns (run: seq<Loop>, courses: seq<Course>)
    ensures CalmRun(hash, codec, run, [SomeCredit(), Gossip(Rumour())], courses) && run[0] == NewLoop({"a", "b"})
    ensures Rumour().sender !in run[1].m.committee
              && CoreOf(run[1].m, "h").phase == CoreOf(run[2].m, "h").phase == Prepare
    ensures run[1].books.balances == map[] && run[2].books.balances == map["w" := 7]
              && run[2].applied == [(TX_TYPE_LEDGER, "h")]
  {
    hide ReactFor, Announced, Phases, CalmNext, Next, CalmCourse;
    var l := AfterCredit(codec, {"a", "b"});
    var l' := PaidOnRumour(codec, l);
    var c := CalmNextHappens(hash, codec, NewLoop({"a", "b"}), SomeCredit(), 0);
    var d := CalmNextHappens(hash, codec, l, Gossip(Rumour()), 1);
    run, courses := [NewLoop({"a", "b"}), l, l'], [c, d];
  }

  lemma PaidOnRumour(codec: Bank.Codec, l: Loop) returns (l': Loop)
    requires SteadyMember(l.m) && l.m.nodeId == "a" && l.m.committee == {"a", "b"}
    requires l.pending == map[(TX_TYPE_LEDGER, "h") := Bank.CreditTx("w", 7)] && l.applied == []
    requires l.books == NewLoop({"a", "b"}).books
    requires CoreOf(l.m, "h") == Settled(true, {}, {}, "a", RequiredVotes(|{"a", "b"}|))
    ensures l' == CalmNext(codec, l, Gossip(Rumour()), true, 1)
    ensures CoreOf(l.m, "h").phase == CoreOf(l'.m, "h").phase == Prepare
    ensures l'.books.balances == map["w" := 7] && l'.applied == [(TX_TYPE_LEDGER, "h")]
  {
    hide ReactFor, Announced, Phases;
    assert |{"a", "b"}| == 2 && |{} + {"a"}| == 1;
    var e := GossipVote(Rumour());
    SettledTwice(true, {}, {}, false, {}, {}, "a", 2);
    EventProjects(l.m, e, CHAIN_ROUNDS);
    NoVoteStep(CoreOf(l.m, "h"), e, "h", {"a", "b"}, "a");
    DrainedIsSettled(CoreOf(l.m, "h"), "a", 2);
    l' := CalmNext(codec, l, Gossip(Rumour()), true, 1);
  }

  /** A credit that the only member has finalized is not paid. */
  lemma FinalizedUnapplied(hash: NodeHash, codec: Bank.Codec) returns (run: seq<Loop>, courses: seq<Course>)
    ensures CalmRun(hash, codec, run, [SomeCredit()], courses) && run[0] == NewLoop({"a"})
    ensures CoreOf(run[1].m, "h").phase == Finalized && run[1].applied == [] && run[1].books == NewLoop({"a"}).books
  {
    hide Next, CalmNext, CalmCourse;
    var l := AfterCredit(codec, {"a"});
    var c := CalmNextHappens(hash, codec, NewLoop({"a"}), SomeCredit(), 0);
    run, courses := [NewLoop({"a"}), l], [c];
    assert |{"a"}| == 1 && {} + {"a"} == {"a"};
  }

  // ----- The code -----

  /** The tables of transactions that wait for a decision. */
  class PendingTxs {
    var txs: Pending

    constructor ()
      ensures txs == map[]
    {
      txs := map[];
    }
  }

  ghost function BooksOf(ledger: Ledger, db: NameDb): Bank.Books
    reads ledger, db
  {
    Bank.Books(ledger.balances, map[], map[], db.registry, [])
  }

  /** A registration that can pay its fee of 100 makes the name, new and whole; an
      update fills in what it names; a credit and a covered debit move the wallet;
      and there is nothing else that an effect does. */
  ghost predicate Effected(codec: Bank.Codec, b: Bank.Books, c: Bank.Command, now: nat, b': Bank.Books) {
    match c
    case RegisterName(name, did, publicKey, _) =>
      && b'.names == (if BalanceOf(b.balances, did) >= 100
                      then b.names[name := NameRow(did, publicKey, now, None, None, None, None, None, Some(now), None)]
                      else b.names)
      && forall w :: BalanceOf(b'.balances, w)
                  == BalanceOf(b.balances, w) - if w == did && BalanceOf(b.balances, w) >= 100 then 100 else 0
    case UpdateCid(name, cid, gateways) =>
      && b'.balances == b.balances
      && b'.names == if name in b.names
                     then b.names[name := b.names[name].(cid := Some(cid), gateways := Some(codec.encode(gateways)))]
                     else b.names
    case CreditTx(wallet, amount) =>
      && b'.names == b.names
      && forall w :: BalanceOf(b'.balances, w) == BalanceOf(b.balances, w) + if w == wallet then amount else 0
    case DebitTx(wallet, amount) =>
      && b'.names == b.names
      && forall w :: BalanceOf(b'.balances, w) == BalanceOf(b.balances, w)
                  - if w == wallet && amount <= BalanceOf(b.balances, w) then amount else 0
    case UpdateMetadata(name, title, description, iconCid, _) =>
      && b'.balances == b.balances
      && b'.names == if name in b.names
                     then b.names[name := b.names[name].(title := title, description := description,
                            iconCid := iconCid, updatedAt := Some(now))]
                     else b.names
    case _ => false
  }

  /** The transaction is done with: its vote state goes. */
  ghost predicate Settles(b: Bank.Books, c: Bank.Command) {
    || (c.RegisterName? && BalanceOf(b.balances, c.did) >= 100) || (c.UpdateCid? && c.name in b.names)
    || c.UpdateMetadata?
  }

  /** Registrations are of type 3, CIDs of 4, ledger entries of 5, metadata of 6. */
  lemma EffectMeans(codec: Bank.Codec, b: Bank.Books, txType: int, c: Bank.Command, now: nat)
    requires Fits(txType, c)
    ensures Effected(codec, b, c, now, Bank.Apply(codec, b, Timed(c, now)))
    ensures Forgets(b, Timed(c, now)) == Forgets(b, c) == Settles(b, c)
    ensures txType == if c.RegisterName? then 3 else if c.UpdateCid? then 4 else if c.UpdateMetadata? then 6 else 5
  {
  }

  /** Whatever a node sends as Finalized is believed by a node at which the
      transaction is pending under the type with which it began at the sender. */
  lemma FinalizedIsReported(hash: NodeHash, run: seq<Manager>, ops: seq<Epochs.Op>, k: nat, l: Loop) returns (j: nat)
    requires |run| == |ops| + 1 && k < |ops| && run[0].states == map[]
    requires forall i :: 0 <= i < |ops| ==> Epochs.OpStep(hash, run[i], ops[i], run[i + 1])
    requires Epochs.SentBy(run[k], ops[k]).Some? && Epochs.SentBy(run[k], ops[k]).value.phase == Finalized
    ensures var sent := Epochs.SentBy(run[k], ops[k]).value;
            && Epochs.BeganAt(run, ops, sent.txHash, j, k + 1)
            && var (_, _, began) := Epochs.BegunAs(run[j], ops[j], sent.txHash).value;
               (began, sent.txHash) in l.pending <==> Reports(l, Gossip(sent))
  {
    hide Epochs.OpStep, Epochs.BegunAs, Epochs.SentBy;
    j := Epochs.MessagesCarryTheirBeginning(hash, run, ops, k);
  }

  /** One effect; tells whether the transaction's vote state is to go. */
  method TakeEffect(codec: Bank.Codec, c: Bank.Command, txType: int, ledger: Ledger, db: NameDb, now: nat)
    returns (forget: bool)
    requires Fits(txType, c)
    modifies ledger, db
    ensures BooksOf(ledger, db) == Bank.Apply(codec, old(BooksOf(ledger, db)), Timed(c, now))
    ensures forget == Forgets(old(BooksOf(ledger, db)), Timed(c, now))
    ensures old(ledger.Valid()) ==> ledger.Valid()
  {
    hide Mirrors;
    match c {
      case RegisterName(name, did, publicKey, _) =>
        forget := ledger.Debit(did, Bank.REGISTRATION_FEE);
        if forget { db.InsertName(name, did, publicKey, now); }
      case UpdateCid(name, cid, gateways) =>
        forget := name in db.registry;
        if forget { db.UpdateCid(name, cid, codec.encode(gateways)); }
      case CreditTx(wallet, amount) =>
        ledger.Credit(wallet, amount);
        forget := false;
      case DebitTx(wallet, amount) =>
        var _ := ledger.Debit(wallet, amount);
        forget := false;
      case UpdateMetadata(name, title, description, iconCid, _) =>
        db.UpdateMetadata(name, title, description, iconCid, now);
        forget := true;
    }
  }

  method HandleFinalizedTx(codec: Bank.Codec, msg: Message, manager: PporManager, ledger: Ledger, db: NameDb,
                           queue: PendingTxs, now: nat)
    requires manager.Valid() && forall k :: k in queue.txs ==> Fits(k.0, queue.txs[k])
    modifies manager`states, ledger, db, queue
    ensures manager.Valid() && forall k :: k in queue.txs ==> Fits(k.0, queue.txs[k])
    ensures var l := Finalize(codec, Loop(old(manager.Model()), old(queue.txs), old(BooksOf(ledger, db)), []),
              msg, now);
            manager.Model() == l.m && queue.txs == l.pending && BooksOf(ledger, db) == l.books
    ensures old(ledger.Valid()) ==> ledger.Valid()
    ensures var key := (msg.txType, msg.txHash);
            && queue.txs == old(queue.txs) - {key}
            && (key !in old(queue.txs) ==>
                  manager.Model() == old(manager.Model()) && BooksOf(ledger, db) == old(BooksOf(ledger, db)))
            && (key in old(queue.txs) ==>
                  && Effected(codec, old(BooksOf(ledger, db)), old(queue.txs)[key], now, BooksOf(ledger, db))
                  && manager.Model() == old(manager.Model()).(states :=
                       if Settles(old(BooksOf(ledger, db)), old(queue.txs)[key])
                       then old(manager.Model()).states - {msg.txHash} else old(manager.Model()).states))
  {
    hide Mirrors, Fits, Bank.Apply, Forgets, Timed, Effected, Settles;
    var key := (msg.txType, msg.txHash);
    if key in queue.txs {
      EffectMeans(codec, BooksOf(ledger, db), key.0, queue.txs[key], now);
      var forget := TakeEffect(codec, queue.txs[key], msg.txType, ledger, db, now);
      queue.txs := queue.txs - {key};
      if forget { manager.Forget(msg.txHash); }
    }
  }
}
