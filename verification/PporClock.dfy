/** The event loop's use of a manager, at the level of single messages: before each
    one is handled, the clock may have the manager turn to a new epoch. */
module PporClock {
  import opened Wrappers
  import opened PporProtocol
  import opened Committee

  /** What the clocks say when a message is handled. */
  datatype Tick = Tick(expired: bool, timedOut: set<TxHash>)

  ghost predicate Turned(hash: NodeHash, m: Manager, t: Tick, mid: Manager) {
    if t.expired then Rotated(hash, m, t.timedOut, mid) else mid == m
  }

  /** A manager, and the message that it is to handle next. */
  datatype Station = Station(m: Manager, current: Option<Message>)

  ghost predicate Round(hash: NodeHash, a: Station, t: Tick, b: Station) {
    match a.current
    case None => b == a
    case Some(msg) => exists mid :: Turned(hash, a.m, t, mid) && Handle(mid, msg) == (b.m, b.current)
  }

  ghost predicate Chained(hash: NodeHash, trace: seq<Station>, ticks: seq<Tick>) {
    |trace| == |ticks| + 1 && forall i :: 0 <= i < |ticks| ==> Round(hash, trace[i], ticks[i], trace[i + 1])
  }

  /** Every reply is sent on. */
  function SentIn(trace: seq<Station>): seq<Message> {
    if |trace| <= 1 then [] else OptionSeq(trace[1].current) + SentIn(trace[1..])
  }

  /** What an event does before the chain. */
  ghost predicate Begins(hash: NodeHash, m: Manager, e: Event, t: Tick, first: Station) {
    match e
    case DirectVote(msg) => first == Station(m, Some(msg))
    case GossipVote(msg) => exists mid :: Turned(hash, m, t, mid) && Handle(mid, msg) == (first.m, first.current)
    case LocalValidation(h, ty) =>
      exists mid :: Turned(hash, m, t, mid) && MarkValidated(mid, h, ty) == (first.m, first.current)
    case Relay(h, n, ty) => Propose(m, h, n, ty) == (first.m, first.current)
  }

  /** The node's own first message, if the event has it speak. */
  function Opening(e: Event, first: Station): Option<Message> {
    if e.DirectVote? then None else first.current
  }

  lemma NothingSent(s: Station)
    ensures SentIn([s]) == []
  {
  }

  lemma {:induction false} SentOneMore(trace: seq<Station>, s: Station)
    requires trace != []
    ensures SentIn(trace + [s]) == SentIn(trace) + OptionSeq(s.current)
    decreases |trace|
  {
    var longer := trace + [s];
    if |trace| == 1 {
      assert longer[1..] == [s];
      NothingSent(s);
    } else {
      assert longer[1..] == trace[1..] + [s];
      SentOneMore(trace[1..], s);
    }
  }

  lemma OneRoundMore(hash: NodeHash, trace: seq<Station>, ticks: seq<Tick>, t: Tick, s: Station)
    requires Chained(hash, trace, ticks) && Round(hash, trace[|ticks|], t, s)
    ensures Chained(hash, trace + [s], ticks + [t])
    ensures SentIn(trace + [s]) == SentIn(trace) + OptionSeq(s.current)
  {
    hide Round, SentIn;
    SentOneMore(trace, s);
  }

  // ----- While the epoch is running -----

  ghost predicate Calm(ticks: seq<Tick>) { forall t :: t in ticks ==> !t.expired }

  lemma ChainUnrolls(m: Manager, current: Option<Message>, rounds: nat)
    ensures rounds == 0 ==> Chain(m, current, rounds) == (m, current, [])
    ensures rounds > 0 && current == None ==> Chain(m, current, rounds) == Chain(m, None, rounds - 1)
    ensures rounds > 0 && current.Some? ==>
              var (m1, next) := Handle(m, current.value);
              var left := Chain(m1, next, rounds - 1);
              Chain(m, current, rounds) == (left.0, left.1, OptionSeq(next) + left.2)
  {
    hide Handle;
  }

  /** With no expiry, the chain is the one of PporProtocol. */
  lemma {:induction false} CalmChain(hash: NodeHash, trace: seq<Station>, ticks: seq<Tick>)
    requires Chained(hash, trace, ticks) && Calm(ticks)
    ensures Chain(trace[0].m, trace[0].current, |ticks|) == (trace[|ticks|].m, trace[|ticks|].current, SentIn(trace))
    decreases |ticks|
  {
    hide Handle, Chain;
    ChainUnrolls(trace[0].m, trace[0].current, |ticks|);
    if ticks != [] {
      assert Round(hash, trace[0], ticks[0], trace[1]);
      assert Chained(hash, trace[1..], ticks[1..]) by {
        forall i | 0 <= i < |ticks| - 1 ensures Round(hash, trace[1..][i], ticks[1..][i], trace[1..][i + 1]) {
          assert Round(hash, trace[i + 1], ticks[i + 1], trace[i + 2]);
        }
      }
      CalmChain(hash, trace[1..], ticks[1..]);
      assert trace[0].current == None ==> OptionSeq(trace[1].current) + SentIn(trace[1..]) == SentIn(trace[1..]);
      assert trace[1..][|ticks| - 1] == trace[|ticks|];
    }
  }

  lemma CalmReaction(hash: NodeHash, m: Manager, e: Event, t: Tick, trace: seq<Station>, ticks: seq<Tick>)
    requires !t.expired && Calm(ticks) && |ticks| == CHAIN_ROUNDS
    requires Chained(hash, trace, ticks) && Begins(hash, m, e, t, trace[0])
    ensures React(m, e)
              == (trace[CHAIN_ROUNDS].m, trace[CHAIN_ROUNDS].current, OptionSeq(Opening(e, trace[0])) + SentIn(trace))
  {
    hide Handle, Chain, MarkValidated, Propose, Round, SentIn;
    CalmChain(hash, trace, ticks);
    assert [] + SentIn(trace) == SentIn(trace);
    match e
    case DirectVote(msg) =>
    case GossipVote(msg) => assert Handle(m, msg) == (trace[0].m, trace[0].current);
    case LocalValidation(h, ty) => assert MarkValidated(m, h, ty) == (trace[0].m, trace[0].current);
    case Relay(h, n, ty) => assert Propose(m, h, n, ty) == (trace[0].m, trace[0].current);
  }

  // ----- The chain returns nothing -----

  /** What has been validated has left PrePrepare. */
  ghost predicate MovedOn(m: Manager) {
    forall h :: h in m.states && m.states[h].validated ==> m.states[h].phase != PrePrepare
  }

  lemma HandleMovesOn(m: Manager, msg: Message)
    requires MovedOn(m)
    ensures MovedOn(Handle(m, msg).0)
    ensures var reply := Handle(m, msg).1;
            reply.Some? ==>
                (msg.phase == Prepare && reply.value.phase == Commit)
                || (msg.phase == Commit && reply.value.phase == Finalized)
  {
  }

  lemma TurnMovesOn(hash: NodeHash, m: Manager, t: Tick, mid: Manager)
    requires MovedOn(m) && Turned(hash, m, t, mid)
    ensures MovedOn(mid)
  {
  }

  lemma RoundMovesOn(hash: NodeHash, a: Station, t: Tick, b: Station)
    requires MovedOn(a.m) && Round(hash, a, t, b)
    ensures MovedOn(b.m)
    ensures b.current.Some? ==>
              a.current.Some? && ((a.current.value.phase == Prepare && b.current.value.phase == Commit)
                                  || (a.current.value.phase == Commit && b.current.value.phase == Finalized))
  {
    hide MovedOn, Turned, Handle;
    if a.current.Some? {
      var mid :| Turned(hash, a.m, t, mid) && Handle(mid, a.current.value) == (b.m, b.current);
      TurnMovesOn(hash, a.m, t, mid);
      HandleMovesOn(mid, a.current.value);
    }
  }

  /** Whatever started it and whatever epochs turn meanwhile, the third round of
      the chain answers nothing: the event loop never learns of a finalization
      from it. */
  lemma ChainReturnsNothing(hash: NodeHash, trace: seq<Station>, ticks: seq<Tick>)
    requires Chained(hash, trace, ticks) && |ticks| == CHAIN_ROUNDS && MovedOn(trace[0].m)
    ensures trace[CHAIN_ROUNDS].current == None && MovedOn(trace[CHAIN_ROUNDS].m)
  {
    hide MovedOn, Round;
    RoundMovesOn(hash, trace[0], ticks[0], trace[1]);
    RoundMovesOn(hash, trace[1], ticks[1], trace[2]);
    RoundMovesOn(hash, trace[2], ticks[2], trace[3]);
  }

  lemma BeginMovesOn(hash: NodeHash, m: Manager, e: Event, t: Tick, first: Station)
    requires MovedOn(m) && Begins(hash, m, e, t, first)
    ensures MovedOn(first.m)
  {
    hide Handle, Turned, Reply;
    match e
    case DirectVote(_) =>
    case GossipVote(msg) =>
      var mid :| Turned(hash, m, t, mid) && Handle(mid, msg) == (first.m, first.current);
      TurnMovesOn(hash, m, t, mid);
      HandleMovesOn(mid, msg);
    case LocalValidation(h, ty) =>
      var mid :| Turned(hash, m, t, mid) && MarkValidated(mid, h, ty) == (first.m, first.current);
      TurnMovesOn(hash, m, t, mid);
    case Relay(_, _, _) =>
  }
}
