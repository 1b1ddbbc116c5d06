/** A run of the storage network in which a careful caller waits for ever although
    nothing is lost. */
module StorageExamples {
  import opened Basics
  import opened Wrappers
  import opened ErasureCoding
  import opened FetchProtocol
  import opened FetchSafety
  import opened FetchRuns
  import opened FetchOutcome
  import opened ShardStore
  import opened StorageSystem

  function Empty(): Store { Store(map[], map[], false) }

  /** Every shard goes to "q". */
  function AllSent(shards: Shards): seq<(Peer, nat, Bytes)> {
    seq(|shards|, i requires 0 <= i < |shards| => ("q", i, shards[i]))
  }

  lemma AllDelivered(h: Hash, shards: Shards)
    requires |shards| == TOTAL_SHARDS
    ensures Delivered(h, shards, ["q"], "p", TOTAL_SHARDS, Empty(), Empty(), AllSent(shards))
  {
    forall i: nat | i < TOTAL_SHARDS ensures ("q", i, shards[i]) in AllSent(shards) {
      assert AllSent(shards)[i] == ("q", i, shards[i]);
    }
  }

  /** Two peers, when "p" has uploaded a file to "q" and "q" has kept the manifest. */
  function Stage(h: Hash, data: Bytes, step: nat): System
    requires data != [] && step <= 3
  {
    var m := PlacedOn(h, |data|, ["q"]);
    var p := PeerState(Idle(), if step == 0 then Empty() else Empty().(manifests := map[h := m]));
    var q := PeerState(Idle(), if step < 3 then Empty() else Empty().(manifests := map[h := m]));
    System(map["p" := p, "q" := q], if step == 0 then map[] else map[h := data],
           if step == 0 then {} else SentShards(h, AllSent(Encoded(data).value)),
           if step < 2 then {} else {(h, m)}, map[], {})
  }

  function Script(digest: Bytes -> Hash, data: Bytes): (acts: seq<Action>)
    requires data != []
    ensures |acts| == 3
  {
    var h := digest(data);
    [Uploads("p", data, ["q"], Empty(), AllSent(Encoded(data).value)), CopiesManifest("p", h),
     KeepsManifest("q", h, PlacedOn(h, |data|, ["q"]))]
  }

  lemma CodewordSize(h: Hash, data: Bytes)
    requires data != []
    ensures |Encoded(data).value| == TOTAL_SHARDS
  {
    hide Encoded;
    var shards := Codeword(map[h := data], h);
  }

  lemma FirstStep(digest: Bytes -> Hash, data: Bytes)
    requires data != []
    ensures var h, a := digest(data), Script(digest, data)[0];
            && Allowed(digest, CarefulCallers, Stage(h, data, 0), a)
            && Allowed(digest, AnyCallers, Stage(h, data, 0), a)
            && Next(digest, Stage(h, data, 0), a) == Stage(h, data, 1)
  {
    hide Encoded, AllSent, Delivered, PlacedOn, SentShards;
    CodewordSize(digest(data), data);
    AllDelivered(digest(data), Encoded(data).value);
  }

  lemma NextSteps(digest: Bytes -> Hash, data: Bytes, k: nat)
    requires data != [] && 1 <= k <= 2
    ensures var h, a := digest(data), Script(digest, data)[k];
            && Allowed(digest, CarefulCallers, Stage(h, data, k), a)
            && Allowed(digest, AnyCallers, Stage(h, data, k), a)
            && Next(digest, Stage(h, data, k), a) == Stage(h, data, k + 1)
  {
    hide Encoded, AllSent, PlacedOn, SentShards;
  }

  /** The download of "q". */
  function Asking(h: Hash, data: Bytes): Event
    requires data != []
  {
    Downloads(h, 0, LocalOf(Stage(h, data, 3).peers["q"].store, h), "q", map[])
  }

  lemma AllMissing(h: Hash, data: Bytes)
    requires data != []
    ensures var e, m := Asking(h, data), PlacedOn(h, |data|, ["q"]);
            && e.local == Local(Some(m), map[]) && m.size == |data|
            && (forall i: nat :: i in m.shards <==> i < TOTAL_SHARDS)
            && HeldLocally(m, "q") == m.shards.Keys && MissingHere(m, e.local, "q") == FirstNats(TOTAL_SHARDS)
  {
    hide Encoded;
  }

  lemma Admitted(h: Hash, data: Bytes)
    requires data != []
    ensures var w, e: Event := map[h := data], Asking(h, data);
            && Admits(OneAtATime(w), Idle(), e) && NodeSound(w, Idle()) && Missing(e) == TOTAL_SHARDS
            && e.local.manifest.Some?
                 && HeldLocally(e.local.manifest.value, e.self) == e.local.manifest.value.shards.Keys
  {
    hide Encoded, PlacedOn, HeldLocally, MissingHere, LocalOf, Stage, FirstNats;
    AllMissing(h, data);
    IdleSound(map[h := data]);
    var k: nat := TOTAL_SHARDS;
    assert |FirstNats(k)| == k;
  }

  lemma AskingAllowed(digest: Bytes -> Hash, h: Hash, data: Bytes, s: System)
    requires data != [] && "q" in s.peers && s.peers["q"] == Stage(h, data, 3).peers["q"]
    ensures Allowed(digest, CarefulCallers, s, Handles("q", Asking(h, data)))
  {
    hide Encoded, PlacedOn, HeldLocally, LocalOf, Missing, Admits, Allowed;
    Admitted(h, data);
    FromItsStore(digest, map[h := data], s, Asking(h, data));
  }

  /** A download from the peer's own store, which asks for nothing. */
  lemma FromItsStore(digest: Bytes -> Hash, w: World, s: System, e: Event)
    requires e.Downloads? && e.sent == map[] && e.self == "q" && e.local.manifest.Some?
    requires "q" in s.peers && s.peers["q"].node == Idle() && e.local == LocalOf(s.peers["q"].store, e.hash)
    requires Admits(OneAtATime(w), Idle(), e)
    ensures Allowed(digest, CarefulCallers, s, Handles("q", e))
  {
    hide LocalOf, Genuine, Enabled, WellFormed, NotInFlight;
  }

  lemma AskingSticks(h: Hash, data: Bytes)
    requires data != []
    ensures WellFormed(Idle()) && Stuck(Step(Idle(), Asking(h, data)), h)
  {
    hide Admits, HeldLocally, Missing, Step, Stuck, Stage, LocalOf;
    Admitted(h, data);
    StuckAtOnceIff(map[h := data], Idle(), Asking(h, data), h);
  }

  lemma OneActionMore(digest: Bytes -> Hash, s: System, a: Action, s1: System, rest: seq<Action>, s': System)
    requires Allowed(digest, AnyCallers, s, a) && Allowed(digest, CarefulCallers, s, a) && Next(digest, s, a) == s1
    requires Run(digest, CarefulCallers, s1, rest, s')
    ensures Run(digest, CarefulCallers, s, [a] + rest, s')
  {
    hide Allowed, Next;
    assert ([a] + rest)[0] == a && ([a] + rest)[1..] == rest;
  }

  /** Some shard `i` of `h` has been sent to `p`, and messages are not lost. */
  ghost predicate OnItsWay(s: System, p: Peer, h: Hash, i: nat) {
    exists m :: m in s.shardsSent && m.to == p && m.hash == h && m.index == i
  }

  /** A peer keeps the manifest of a file whose shards are all still on their way to
      it, and then downloads the file: its caller waits for ever, though no shard is
      lost and no caller is careless. */
  lemma ManifestBeforeShards(digest: Bytes -> Hash, data: Bytes) returns (acts: seq<Action>, s: System, e: Event)
    requires data != []
    ensures Run(digest, CarefulCallers, Start({"p", "q"}), acts, s)
    ensures Allowed(digest, CarefulCallers, s, Handles("q", e)) && IsDownload(e, digest(data))
    ensures "q" in s.peers && WellFormed(s.peers["q"].node) && Stuck(Step(s.peers["q"].node, e), digest(data))
    ensures forall i: nat :: i < TOTAL_SHARDS ==> OnItsWay(s, "q", digest(data), i)
  {
    hide Allowed, Next, Step, Stuck, OnItsWay, Run, Script, Encoded, PlacedOn, SentShards, LocalOf;
    var h := digest(data);
    acts, s, e := Script(digest, data), Stage(h, data, 3), Asking(h, data);
    assert Start({"p", "q"}) == Stage(h, data, 0);
    FirstStep(digest, data);
    NextSteps(digest, data, 1);
    NextSteps(digest, data, 2);
    NoAction(digest, s);
    OneActionMore(digest, Stage(h, data, 2), acts[2], s, [], s);
    OneActionMore(digest, Stage(h, data, 1), acts[1], Stage(h, data, 2), [acts[2]] + [], s);
    OneActionMore(digest, Stage(h, data, 0), acts[0], Stage(h, data, 1), [acts[1]] + ([acts[2]] + []), s);
    assert acts == [acts[0]] + ([acts[1]] + ([acts[2]] + []));
    AskingAllowed(digest, h, data, s);
    AskingSticks(h, data);
    AllUnderWay(h, data);
  }

  lemma NoAction(digest: Bytes -> Hash, s: System)
    ensures Run(digest, CarefulCallers, s, [], s)
  {
  }

  lemma AllUnderWay(h: Hash, data: Bytes)
    requires data != []
    ensures forall i: nat :: i < TOTAL_SHARDS ==> OnItsWay(Stage(h, data, 3), "q", h, i)
  {
    hide Encoded;
    CodewordSize(h, data);
    var shards := Encoded(data).value;
    forall i: nat | i < TOTAL_SHARDS ensures OnItsWay(Stage(h, data, 3), "q", h, i) {
      assert AllSent(shards)[i] == ("q", i, shards[i]);
      assert ShardMessage("q", h, i, shards[i]) in Stage(h, data, 3).shardsSent;
    }
  }
}
