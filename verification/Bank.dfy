/** Ledger, grants and names under every sequence of commands: what the stores
    agree on, and where every credit comes from. */
module Bank {
  import opened Basics
  import opened Wrappers
  import opened Accounting
  import opened NameRegistry
  import opened Grants

  /** A claim that was paid. */
  datatype Payout = Payout(grantId: string, did: string, amount: nat)

  /** `payouts` records what claims have been answered with, in order. */
  datatype Books = Books(balances: Balances, programs: Programs, claims: Claims, names: Names, payouts: seq<Payout>)

  /** Lists of gateways as JSON text. */
  datatype Codec = Codec(encode: seq<string> -> string, decode: string -> Option<seq<string>>)

  ghost predicate Lawful(codec: Codec) { forall g :: codec.decode(codec.encode(g)) == Some(g) }

  const REGISTRATION_FEE := 100

  datatype Command =
    | CreateGrant(grant: GrantProgram)
    | ClaimGrant(grantId: string, did: string, now: nat)
    | CreditTx(wallet: Wallet, amount: nat)
    | DebitTx(wallet: Wallet, amount: nat)
    | RegisterName(name: string, did: string, publicKey: string, now: nat)
    | CacheName(name: string, did: string, cid: Option<string>, gateways: seq<string>, now: nat)
    | UpdateCid(name: string, newCid: string, gateways: seq<string>)
    | UpdateMetadata(name: string, title: Option<string>, description: Option<string>,
        iconCid: Option<string>, now: nat)
    | Restart

  /** The handler of a claim: verify, record, credit, write the row. */
  function Claimed(b: Books, grantId: string, did: string, now: nat): (Books, Result<(nat, nat)>) {
    match Verified(b.programs, grantId, did, now)
    case Err(e) => (b, Err(e))
    case Ok(amount) =>
      match Executed(b.programs, grantId, did, amount)
      case Err(e) => (b, Err(e))
      case Ok(programs) =>
        var balances := Credited(b.balances, did, amount);
        (b.(programs := programs, balances := balances, claims := ClaimInserted(b.claims, did, grantId, amount),
            payouts := b.payouts + [Payout(grantId, did, amount)]),
         Ok((amount, BalanceOf(balances, did))))
  }

  /** A finalized registration is made if its fee can be paid. */
  function Registered(b: Books, name: string, did: string, publicKey: string, now: nat): Books {
    var (balances, paid) := Debited(b.balances, did, REGISTRATION_FEE);
    b.(balances := balances, names := if paid then Inserted(b.names, name, did, publicKey, now) else b.names)
  }

  /** A name found elsewhere is kept here too. */
  function Cached(names: Names, codec: Codec, name: string, did: string, cid: Option<string>, gateways: seq<string>,
                  now: nat): Names {
    var inserted := Inserted(names, name, did, "", now);
    if cid.Some? then CidUpdated(inserted, name, cid.value, codec.encode(gateways)) else inserted
  }

  function Apply(codec: Codec, b: Books, c: Command): Books {
    match c
    case CreateGrant(grant) =>
      (match Created(b.programs, grant) case Ok(programs) => b.(programs := programs) case Err(_) => b)
    case ClaimGrant(grantId, did, now) => Claimed(b, grantId, did, now).0
    case CreditTx(wallet, amount) => b.(balances := Credited(b.balances, wallet, amount))
    case DebitTx(wallet, amount) => b.(balances := Debited(b.balances, wallet, amount).0)
    case RegisterName(name, did, publicKey, now) => Registered(b, name, did, publicKey, now)
    case CacheName(name, did, cid, gateways, now) => b.(names := Cached(b.names, codec, name, did, cid, gateways, now))
    case UpdateCid(name, cid, gateways) => b.(names := CidUpdated(b.names, name, cid, codec.encode(gateways)))
    case UpdateMetadata(name, title, description, iconCid, now) =>
      b.(names := MetadataUpdated(b.names, name, title, description, iconCid, now))
    case Restart => Restarted(b)
  }

  /** The process starts again: rows and names are in a database; programs are not,
      and balances are written to one but not read back. */
  function Restarted(b: Books): Books { b.(balances := map[], programs := map[]) }

  /** The API makes every grant with nothing claimed. */
  predicate Fresh(c: Command) {
    c.CreateGrant? ==> c.grant.claimedCount == 0 && c.grant.claimedTotal == 0 && c.grant.claimedBy == {}
  }

  function Run(codec: Codec, cs: seq<Command>): Books {
    if cs == [] then Books(map[], map[], map[], map[], []) else Apply(codec, Run(codec, cs[..|cs| - 1]), cs[|cs| - 1])
  }

  // ----- Grants -----

  /** The DIDs that `grantId` has a row for. */
  function RowsOf(claims: Claims, grantId: string): set<string> { set k | k in claims && k.1 == grantId :: k.0 }

  function PaidTo(payouts: seq<Payout>, grantId: string, did: string): nat {
    if payouts == [] then 0
    else
      var last := payouts[|payouts| - 1];
      PaidTo(payouts[..|payouts| - 1], grantId, did) + if last.grantId == grantId && last.did == did then 1 else 0
  }

  function PaidBy(payouts: seq<Payout>, grantId: string): nat {
    if payouts == [] then 0
    else
      var last := payouts[|payouts| - 1];
      PaidBy(payouts[..|payouts| - 1], grantId) + if last.grantId == grantId then last.amount else 0
  }

  ghost predicate Counted(id: string, g: GrantProgram) {
    && g.grantId == id && g.amountPerClaim > 0
    && g.claimedCount == |g.claimedBy| && g.claimedTotal == g.amountPerClaim * g.claimedCount
    && (g.maxClaims > 0 ==> g.claimedCount <= g.maxClaims)
  }

  ghost predicate RowsAgree(claims: Claims, id: string, g: GrantProgram) {
    && RowsOf(claims, id) == g.claimedBy
    && forall did :: did in g.claimedBy ==> (did, id) in claims && claims[(did, id)] == g.amountPerClaim
  }

  ghost predicate PayoutsAgree(payouts: seq<Payout>, id: string, g: GrantProgram) {
    && (forall did :: PaidTo(payouts, id, did) == if did in g.claimedBy then 1 else 0)
    && PaidBy(payouts, id) == g.claimedTotal
  }

  ghost predicate GrantSound(b: Books, id: string, g: GrantProgram) {
    Counted(id, g) && RowsAgree(b.claims, id, g) && PayoutsAgree(b.payouts, id, g)
  }

  ghost predicate GrantsSound(b: Books) { forall id :: id in b.programs ==> GrantSound(b, id, b.programs[id]) }

  /** Whatever has been paid has a row. */
  ghost predicate PaidHaveRows(b: Books) {
    forall i :: 0 <= i < |b.payouts| ==> (b.payouts[i].did, b.payouts[i].grantId) in b.claims
  }

  /** Whatever has a row has a program. */
  ghost predicate RowsHavePrograms(b: Books) { forall k :: k in b.claims ==> k.1 in b.programs }

  /** The command makes a grant. */
  predicate Made(b: Books, c: Command) { c.CreateGrant? && Created(b.programs, c.grant).Ok? }

  /** Nobody has ever claimed a grant of this id. */
  predicate Unclaimed(b: Books, grantId: string) { forall k :: k in b.claims ==> k.1 != grantId }

  lemma OneMorePaid(payouts: seq<Payout>, p: Payout, id: string, did: string)
    ensures PaidTo(payouts + [p], id, did) ==
            PaidTo(payouts, id, did) + if p.grantId == id && p.did == did then 1 else 0
    ensures PaidBy(payouts + [p], id) == PaidBy(payouts, id) + if p.grantId == id then p.amount else 0
  {
    assert (payouts + [p])[..|payouts|] == payouts;
  }

  lemma {:induction false} NothingPaid(payouts: seq<Payout>, id: string, did: string)
    requires forall i :: 0 <= i < |payouts| ==> payouts[i].grantId != id
    ensures PaidTo(payouts, id, did) == 0 && PaidBy(payouts, id) == 0
  {
    if payouts != [] { NothingPaid(payouts[..|payouts| - 1], id, did); }
  }

  lemma TimesOneMore(a: nat, n: nat)
    ensures a * (n + 1) == a * n + a
  {
  }

  function WithClaim(g: GrantProgram, did: string, amount: nat): GrantProgram {
    g.(claimedBy := g.claimedBy + {did}, claimedCount := g.claimedCount + 1, claimedTotal := g.claimedTotal + amount)
  }

  lemma CountsOneMore(id: string, g: GrantProgram, did: string)
    requires Counted(id, g) && did !in g.claimedBy && (g.maxClaims > 0 ==> g.claimedCount < g.maxClaims)
    ensures Counted(id, WithClaim(g, did, g.amountPerClaim))
  {
    TimesOneMore(g.amountPerClaim, g.claimedCount);
  }

  lemma RowsStillAgree(claims: Claims, id: string, g: GrantProgram, did: string)
    requires RowsAgree(claims, id, g) && did !in g.claimedBy
    ensures RowsAgree(ClaimInserted(claims, did, id, g.amountPerClaim), id, WithClaim(g, did, g.amountPerClaim))
  {
    hide RowsOf;
    assert (did, id) !in claims by { RowsContain(claims, did, id); }
    RowsOneMore(claims, did, id, g.amountPerClaim, id);
  }

  lemma RowsContain(claims: Claims, did: string, id: string)
    ensures did in RowsOf(claims, id) <==> (did, id) in claims
  {
  }

  lemma PayoutsStillAgree(payouts: seq<Payout>, id: string, g: GrantProgram, did: string)
    requires PayoutsAgree(payouts, id, g) && did !in g.claimedBy
    ensures PayoutsAgree(payouts + [Payout(id, did, g.amountPerClaim)], id, WithClaim(g, did, g.amountPerClaim))
  {
    hide PaidTo, PaidBy;
    OneMorePaid(payouts, Payout(id, did, g.amountPerClaim), id, did);
    forall d { OneMorePaid(payouts, Payout(id, did, g.amountPerClaim), id, d); }
  }

  /** The grant that was claimed. */
  lemma ClaimedSound(b: Books, id: string, did: string, now: nat)
    requires GrantsSound(b) && Verified(b.programs, id, did, now).Ok?
    ensures var b' := Claimed(b, id, did, now).0; id in b'.programs && GrantSound(b', id, b'.programs[id])
  {
    hide Counted, RowsAgree, PayoutsAgree;
    var g := b.programs[id];
    assert GrantSound(b, id, g);
    CountsOneMore(id, g, did);
    RowsStillAgree(b.claims, id, g, did);
    PayoutsStillAgree(b.payouts, id, g, did);
  }

  lemma RowsOneMore(claims: Claims, did: string, id: string, amount: nat, other: string)
    requires (did, id) !in claims
    ensures RowsOf(claims[(did, id) := amount], other) == if other == id then RowsOf(claims, id) + {did}
              else RowsOf(claims, other)
  {
    var after := claims[(did, id) := amount];
    forall d
      ensures d in RowsOf(after, other) <==>
                d in (if other == id then RowsOf(claims, id) + {did} else RowsOf(claims, other))
    {
      assert d in RowsOf(after, other) <==> (d, other) in after;
      assert d in RowsOf(claims, other) <==> (d, other) in claims;
    }
  }

  lemma OtherRowsAgree(claims: Claims, id: string, did: string, amount: nat, other: string, g: GrantProgram)
    requires RowsAgree(claims, other, g) && other != id
    ensures RowsAgree(ClaimInserted(claims, did, id, amount), other, g)
  {
    hide RowsOf;
    if (did, id) !in claims { RowsOneMore(claims, did, id, amount, other); }
  }

  lemma OtherPayoutsAgree(payouts: seq<Payout>, p: Payout, other: string, g: GrantProgram)
    requires PayoutsAgree(payouts, other, g) && other != p.grantId
    ensures PayoutsAgree(payouts + [p], other, g)
  {
    hide PaidTo, PaidBy;
    OneMorePaid(payouts, p, other, "");
    forall d { OneMorePaid(payouts, p, other, d); }
  }

  /** The other grants. */
  lemma OthersSound(b: Books, id: string, did: string, now: nat, other: string)
    requires GrantsSound(b) && Verified(b.programs, id, did, now).Ok? && other != id && other in b.programs
    ensures var b' := Claimed(b, id, did, now).0; GrantSound(b', other, b'.programs[other])
  {
    hide Counted, RowsAgree, PayoutsAgree;
    var g, amount := b.programs[other], b.programs[id].amountPerClaim;
    assert GrantSound(b, other, g);
    OtherRowsAgree(b.claims, id, did, amount, other, g);
    OtherPayoutsAgree(b.payouts, Payout(id, did, amount), other, g);
  }

  lemma NewGrantSound(b: Books, grant: GrantProgram)
    requires Fresh(CreateGrant(grant)) && grant.amountPerClaim > 0 && PaidHaveRows(b) && Unclaimed(b, grant.grantId)
    ensures GrantSound(b, grant.grantId, grant)
  {
    hide PaidTo, PaidBy, GrantSound;
    var id := grant.grantId;
    assert forall i :: 0 <= i < |b.payouts| ==> b.payouts[i].grantId != id;
    assert Counted(id, grant);
    NoRows(b.claims, id);
    assert RowsAgree(b.claims, id, grant);
    NothingPaid(b.payouts, id, "");
    forall d { NothingPaid(b.payouts, id, d); }
    assert PayoutsAgree(b.payouts, id, grant);
    SoundFromParts(b, id, grant);
  }

  lemma SoundFromParts(b: Books, id: string, g: GrantProgram)
    requires Counted(id, g) && RowsAgree(b.claims, id, g) && PayoutsAgree(b.payouts, id, g)
    ensures GrantSound(b, id, g)
  {
  }

  lemma NoRows(claims: Claims, id: string)
    requires forall k :: k in claims ==> k.1 != id
    ensures RowsOf(claims, id) == {}
  {
  }

  lemma CreatedSound(b: Books, grant: GrantProgram)
    requires GrantsSound(b) && Fresh(CreateGrant(grant)) && Created(b.programs, grant).Ok?
    requires PaidHaveRows(b) && Unclaimed(b, grant.grantId)
    ensures GrantsSound(b.(programs := Created(b.programs, grant).value))
  {
    hide Counted, RowsAgree, PayoutsAgree;
    var b' := b.(programs := Created(b.programs, grant).value);
    NewGrantSound(b, grant);
    forall other | other in b'.programs ensures GrantSound(b', other, b'.programs[other]) {
      assert other != grant.grantId ==> GrantSound(b, other, b.programs[other]);
    }
  }

  /** A program made anew under an id that has rows disagrees with them. */
  lemma RemadeUnsound(b: Books, grant: GrantProgram)
    requires Fresh(CreateGrant(grant)) && Created(b.programs, grant).Ok? && !Unclaimed(b, grant.grantId)
    ensures !GrantsSound(b.(programs := Created(b.programs, grant).value))
  {
    hide Counted, PayoutsAgree, RowsOf;
    var b' := b.(programs := Created(b.programs, grant).value);
    var k :| k in b.claims && k.1 == grant.grantId;
    RowsContain(b.claims, k.0, k.1);
    assert b'.programs[grant.grantId].claimedBy == {};
  }

  lemma ApplyKeepsGrantsIff(codec: Codec, b: Books, c: Command)
    requires GrantsSound(b) && PaidHaveRows(b) && Fresh(c)
    ensures GrantsSound(Apply(codec, b, c)) <==> Made(b, c) ==> Unclaimed(b, c.grant.grantId)
  {
    hide GrantSound, Created, Fresh, Unclaimed, PaidHaveRows;
    match c
    case CreateGrant(grant) =>
      if Made(b, c) && Unclaimed(b, grant.grantId) {
        CreatedSound(b, grant);
      } else if Made(b, c) {
        RemadeUnsound(b, grant);
      }
    case ClaimGrant(id, did, now) =>
      if Verified(b.programs, id, did, now).Ok? {
        var b' := Claimed(b, id, did, now).0;
        forall other | other in b'.programs ensures GrantSound(b', other, b'.programs[other]) {
          if other == id { ClaimedSound(b, id, did, now); } else { OthersSound(b, id, did, now, other); }
        }
      }
    case Restart =>
    case _ => SoundIgnores(b, Apply(codec, b, c));
  }

  lemma ApplyKeepsRows(codec: Codec, b: Books, c: Command)
    ensures PaidHaveRows(b) ==> PaidHaveRows(Apply(codec, b, c))
    ensures RowsHavePrograms(b) && !c.Restart? ==> RowsHavePrograms(Apply(codec, b, c))
  {
  }

  lemma {:induction false} RowsAlways(codec: Codec, cs: seq<Command>)
    ensures PaidHaveRows(Run(codec, cs))
    ensures (forall c :: c in cs ==> !c.Restart?) ==> RowsHavePrograms(Run(codec, cs))
  {
    hide Apply, PaidHaveRows, RowsHavePrograms;
    if cs == [] {
      assert PaidHaveRows(Run(codec, cs)) by { EmptySound(); }
      EmptySound();
    } else {
      RowsAlways(codec, cs[..|cs| - 1]);
      ApplyKeepsRows(codec, Run(codec, cs[..|cs| - 1]), cs[|cs| - 1]);
    }
  }

  lemma SoundIgnores(b: Books, b': Books)
    requires GrantsSound(b) && b'.programs == b.programs && b'.claims == b.claims && b'.payouts == b.payouts
    ensures GrantsSound(b')
  {
    hide Counted, RowsAgree, PayoutsAgree;
    forall id | id in b'.programs
      ensures GrantSound(b', id, b'.programs[id])
    {
      assert GrantSound(b, id, b.programs[id]);
    }
  }

  /** No grant is ever made under an id that has been claimed. */
  ghost predicate NoneRemade(codec: Codec, cs: seq<Command>) {
    forall k :: 0 <= k < |cs| && Made(Run(codec, cs[..k]), cs[k]) ==>
        Unclaimed(Run(codec, cs[..k]), cs[k].grant.grantId)
  }

  ghost predicate SoundThroughout(codec: Codec, cs: seq<Command>) {
    forall k :: 0 <= k <= |cs| ==> GrantsSound(Run(codec, cs[..k]))
  }

  /** Over every sequence of commands, restarts among them, from fresh grants: counts,
      totals, limits, rows and payouts of each grant agree throughout, and no DID
      is paid twice, exactly if no grant is made under an id that has been claimed. */
  lemma {:induction false} GrantsSoundIff(codec: Codec, cs: seq<Command>)
    requires forall i :: 0 <= i < |cs| ==> Fresh(cs[i])
    ensures SoundThroughout(codec, cs) <==> NoneRemade(codec, cs)
  {
    hide GrantsSound, Apply, Fresh, Made, Unclaimed, PaidHaveRows, Run;
    if cs == [] {
      EmptySound();
      assert cs[..0] == [];
    } else {
      var n := |cs| - 1;
      var before, c := cs[..n], cs[n];
      GrantsSoundIff(codec, before);
      RowsAlways(codec, before);
      assert forall k :: 0 <= k <= n ==> before[..k] == cs[..k];
      assert forall k :: 0 <= k < n ==> before[k] == cs[k];
      assert SoundThroughout(codec, cs) <==> SoundThroughout(codec, before) && GrantsSound(Run(codec, cs)) by {
        assert cs[..n + 1] == cs;
        assert before[..n] == before;
      }
      if SoundThroughout(codec, before) {
        assert GrantsSound(Run(codec, before[..n])) && before[..n] == before;
        ApplyKeepsGrantsIff(codec, Run(codec, before), c);
        RunLast(codec, cs);
      }
    }
  }

  lemma RunLast(codec: Codec, cs: seq<Command>)
    requires cs != []
    ensures Run(codec, cs) == Apply(codec, Run(codec, cs[..|cs| - 1]), cs[|cs| - 1])
  {
  }

  /** So it is in every sequence without a restart. */
  lemma {:induction false} GrantsAlwaysSound(codec: Codec, cs: seq<Command>)
    requires forall i :: 0 <= i < |cs| ==> Fresh(cs[i])
    requires forall c :: c in cs ==> !c.Restart?
    ensures GrantsSound(Run(codec, cs)) && NoneRemade(codec, cs)
  {
    hide GrantsSound, Apply, Fresh, Run, RowsHavePrograms, Unclaimed;
    forall k | 0 <= k < |cs| && Made(Run(codec, cs[..k]), cs[k])
      ensures Unclaimed(Run(codec, cs[..k]), cs[k].grant.grantId)
    {
      RowsAlways(codec, cs[..k]);
      NewIdUnclaimed(Run(codec, cs[..k]), cs[k]);
    }
    GrantsSoundIff(codec, cs);
    assert cs[..|cs|] == cs;
  }

  lemma NewIdUnclaimed(b: Books, c: Command)
    requires RowsHavePrograms(b) && Made(b, c)
    ensures Unclaimed(b, c.grant.grantId)
  {
  }

  lemma EmptySound()
    ensures var b := Books(map[], map[], map[], map[], []); GrantsSound(b) && PaidHaveRows(b) && RowsHavePrograms(b)
    ensures forall codec :: Run(codec, []) == Books(map[], map[], map[], map[], [])
  {
  }

  /** With one it is not: the program is made anew, its old row stays, and the DID
      that has it is paid again. */
  lemma PaidTwice(codec: Codec, g: GrantProgram) returns (cs: seq<Command>)
    requires Fresh(CreateGrant(g)) && g.amountPerClaim > 0 && g.active && g.expiresAt == 0 && g.maxClaims == 1
    ensures forall i :: 0 <= i < |cs| ==> Fresh(cs[i])
    ensures PaidTo(Run(codec, cs).payouts, g.grantId, "d") == 2 && |Run(codec, cs).claims| == 1
  {
    hide Run, Apply, PaidTo;
    var id := g.grantId;
    var claim := ClaimGrant(id, "d", 0);
    cs := [CreateGrant(g), claim, Restart, CreateGrant(g), claim];
    var one := Payout(id, "d", g.amountPerClaim);
    EmptySound();
    var b0 := Run(codec, cs[..0]);
    assert cs[..0] == [];
    PrefixRun(codec, cs, 0);
    MakesAndPays(codec, b0, g);
    PrefixRun(codec, cs, 1);
    var b2 := Run(codec, cs[..2]);
    PrefixRun(codec, cs, 2);
    assert Run(codec, cs[..3]) == Restarted(b2) by { RestartIs(codec, b2); }
    PrefixRun(codec, cs, 3);
    MakesAndPays(codec, Restarted(b2), g);
    PrefixRun(codec, cs, 4);
    assert cs[..5] == cs;
    OneMorePaid([], one, id, "d");
    OneMorePaid([one], one, id, "d");
    assert PaidTo([], id, "d") == 0 by { NothingPaid([], id, "d"); }
    assert [] + [one] == [one];
  }

  lemma RestartIs(codec: Codec, b: Books)
    ensures Apply(codec, b, Restart) == Restarted(b)
  {
  }

  /** A grant is made and claimed by "d". */
  lemma MakesAndPays(codec: Codec, b: Books, g: GrantProgram)
    requires Fresh(CreateGrant(g)) && g.amountPerClaim > 0 && g.active && g.expiresAt == 0 && g.maxClaims == 1
    requires g.grantId !in b.programs && b.claims.Keys <= {("d", g.grantId)}
    ensures var b' := Apply(codec, Apply(codec, b, CreateGrant(g)), ClaimGrant(g.grantId, "d", 0));
            && b'.payouts == b.payouts + [Payout(g.grantId, "d", g.amountPerClaim)]
            && b'.claims.Keys == {("d", g.grantId)} && |b'.claims| == 1
  {
    hide Credited;
    var b' := Apply(codec, Apply(codec, b, CreateGrant(g)), ClaimGrant(g.grantId, "d", 0));
    assert b'.claims.Keys == {("d", g.grantId)};
    assert |b'.claims| == |b'.claims.Keys|;
  }

  lemma PrefixRun(codec: Codec, cs: seq<Command>, k: nat)
    requires k < |cs|
    ensures Run(codec, cs[..k + 1]) == Apply(codec, Run(codec, cs[..k]), cs[k])
  {
    assert cs[..k + 1][..k] == cs[..k];
  }

  // ----- Conservation -----

  /** All that the programs have paid. */
  ghost function AllClaimed(programs: Programs): nat
  {
    Total(map id | id in programs :: programs[id].claimedTotal)
  }

  /** Credits that commands bring in, and what they take out. */
  function CreditedBy(b: Books, c: Command): nat { if c.CreditTx? then c.amount else 0 }

  function DebitedBy(b: Books, c: Command): nat {
    match c
    case DebitTx(w, n) => if BalanceOf(b.balances, w) >= n then n else 0
    case RegisterName(_, did, _, _) => if BalanceOf(b.balances, did) >= REGISTRATION_FEE then REGISTRATION_FEE else 0
    case _ => 0
  }

  function SumCredited(codec: Codec, cs: seq<Command>): nat {
    if cs == [] then 0
    else SumCredited(codec, cs[..|cs| - 1]) + CreditedBy(Run(codec, cs[..|cs| - 1]), cs[|cs| - 1])
  }

  function SumDebited(codec: Codec, cs: seq<Command>): nat {
    if cs == [] then 0
    else SumDebited(codec, cs[..|cs| - 1]) + DebitedBy(Run(codec, cs[..|cs| - 1]), cs[|cs| - 1])
  }

  /** What a restart forgets. */
  ghost function LostBy(b: Books, c: Command): nat { if c.Restart? then Total(b.balances) else 0 }

  ghost function SumLost(codec: Codec, cs: seq<Command>): nat {
    if cs == [] then 0 else SumLost(codec, cs[..|cs| - 1]) + LostBy(Run(codec, cs[..|cs| - 1]), cs[|cs| - 1])
  }

  /** All that claims have been answered with. */
  function AllPaid(payouts: seq<Payout>): nat {
    if payouts == [] then 0 else AllPaid(payouts[..|payouts| - 1]) + payouts[|payouts| - 1].amount
  }

  lemma PaidOneMore(payouts: seq<Payout>, p: Payout)
    ensures AllPaid(payouts + [p]) == AllPaid(payouts) + p.amount
  {
    assert (payouts + [p])[..|payouts|] == payouts;
  }

  lemma ApplyConserves(codec: Codec, b: Books, c: Command)
    requires Fresh(c)
    ensures var b' := Apply(codec, b, c);
            Total(b'.balances) - AllPaid(b'.payouts) + DebitedBy(b, c) + LostBy(b, c)
              == Total(b.balances) - AllPaid(b.payouts) + CreditedBy(b, c)
  {
    hide Total, AllPaid;
    match c
    case ClaimGrant(id, did, now) =>
      if Verified(b.programs, id, did, now).Ok? {
        var amount := b.programs[id].amountPerClaim;
        TotalUpdated(b.balances, did, BalanceOf(b.balances, did) + amount);
        PaidOneMore(b.payouts, Payout(id, did, amount));
      }
    case CreditTx(w, n) => TotalUpdated(b.balances, w, BalanceOf(b.balances, w) + n);
    case DebitTx(w, n) => DebitMoves(b.balances, w, n);
    case RegisterName(_, did, _, _) => DebitMoves(b.balances, did, REGISTRATION_FEE);
    case Restart => NothingHeld();
    case _ =>
  }

  /** The programs record what they have paid. */
  lemma ApplyClaims(codec: Codec, b: Books, c: Command)
    requires Fresh(c) && !c.Restart?
    ensures var b' := Apply(codec, b, c);
            AllClaimed(b'.programs) - AllPaid(b'.payouts) == AllClaimed(b.programs) - AllPaid(b.payouts)
  {
    hide AllPaid, AllClaimed;
    match c
    case CreateGrant(grant) =>
      if Created(b.programs, grant).Ok? { ClaimedTotalMoves(b.programs, grant.grantId, grant); }
    case ClaimGrant(id, did, now) =>
      if Verified(b.programs, id, did, now).Ok? {
        var amount := b.programs[id].amountPerClaim;
        PaidOneMore(b.payouts, Payout(id, did, amount));
        ClaimedTotalMoves(b.programs, id, Executed(b.programs, id, did, amount).value[id]);
      }
    case _ =>
  }

  lemma DebitMoves(m: Balances, w: Wallet, n: nat)
    ensures Total(Debited(m, w, n).0) == Total(m) - if BalanceOf(m, w) >= n then n else 0
  {
    hide Total;
    TotalUpdated(m, w, BalanceOf(m, w) - if BalanceOf(m, w) >= n then n else 0);
  }

  lemma ClaimedTotalMoves(programs: Programs, id: string, grant: GrantProgram)
    ensures AllClaimed(programs[id := grant])
            == AllClaimed(programs) - (if id in programs then programs[id].claimedTotal else 0) + grant.claimedTotal
  {
    hide Total;
    var totals := map g | g in programs :: programs[g].claimedTotal;
    var updated := programs[id := grant];
    var after := map g | g in updated :: updated[g].claimedTotal;
    assert after == totals[id := grant.claimedTotal];
    TotalUpdated(totals, id, grant.claimedTotal);
  }

  /** Over every sequence of commands the ledger holds what was credited and what
      grants have paid, less what was debited and what restarts have lost; without
      a restart, claims have issued exactly the sum of the programs' totals. */
  lemma {:induction false} CreditsConserved(codec: Codec, cs: seq<Command>)
    requires forall i :: 0 <= i < |cs| ==> Fresh(cs[i])
    ensures var b := Run(codec, cs);
            && Total(b.balances) + SumDebited(codec, cs) + SumLost(codec, cs)
                 == SumCredited(codec, cs) + AllPaid(b.payouts)
            && ((forall c :: c in cs ==> !c.Restart?) ==>
                  AllPaid(b.payouts) == AllClaimed(b.programs) && SumLost(codec, cs) == 0)
  {
    hide Total, AllClaimed, Apply, Fresh;
    if cs == [] {
      NothingHeld();
    } else {
      var n := |cs| - 1;
      CreditsConserved(codec, cs[..n]);
      ApplyConserves(codec, Run(codec, cs[..n]), cs[n]);
      if forall c :: c in cs ==> !c.Restart? { ApplyClaims(codec, Run(codec, cs[..n]), cs[n]); }
    }
  }

  lemma NothingHeld()
    ensures Total(map[]) == 0 && AllClaimed(map[]) == 0
  {
    var none: Programs := map[];
    assert (map id | id in none :: none[id].claimedTotal) == map[];
  }

  // ----- Wallet by wallet -----

  /** What a command does to the balance of `w`. */
  lemma BalanceMeans(codec: Codec, b: Books, c: Command, w: Wallet)
    ensures BalanceOf(Apply(codec, b, c).balances, w) ==
            var was := BalanceOf(b.balances, w);
            match c
            case CreditTx(v, n) => if v == w then was + n else was
            case DebitTx(v, n) => if v == w && n <= was then was - n else was
            case RegisterName(_, did, _, _) => if did == w && was >= 100 then was - 100 else was
            case ClaimGrant(id, did, now) =>
              if did == w && id in b.programs && b.programs[id].active
                 && (b.programs[id].expiresAt == 0 || now <= b.programs[id].expiresAt)
                 && did !in b.programs[id].claimedBy
                 && (b.programs[id].maxClaims == 0 || b.programs[id].claimedCount < b.programs[id].maxClaims)
              then was + b.programs[id].amountPerClaim else was
            case Restart => 0
            case _ => was
  {
  }

  /** All that claims by `w` have been answered with. */
  function PaidOutTo(payouts: seq<Payout>, w: Wallet): nat {
    if payouts == [] then 0
    else
      var last := payouts[|payouts| - 1];
      PaidOutTo(payouts[..|payouts| - 1], w) + if last.did == w then last.amount else 0
  }

  function CreditsTo(cs: seq<Command>, w: Wallet): nat {
    if cs == [] then 0
    else
      var last := cs[|cs| - 1];
      CreditsTo(cs[..|cs| - 1], w) + if last.CreditTx? && last.wallet == w then last.amount else 0
  }

  /** Debits that were covered, and fees of 100 that were. */
  function DebitsFrom(codec: Codec, cs: seq<Command>, w: Wallet): nat {
    if cs == [] then 0
    else
      var before, last := cs[..|cs| - 1], cs[|cs| - 1];
      var was := BalanceOf(Run(codec, before).balances, w);
      DebitsFrom(codec, before, w)
        + if last.DebitTx? && last.wallet == w && last.amount <= was then last.amount
          else if last.RegisterName? && last.did == w && was >= 100 then 100 else 0
  }

  function LostOf(codec: Codec, cs: seq<Command>, w: Wallet): nat {
    if cs == [] then 0
    else
      LostOf(codec, cs[..|cs| - 1], w)
        + if cs[|cs| - 1].Restart? then BalanceOf(Run(codec, cs[..|cs| - 1]).balances, w) else 0
  }

  /** Over every sequence of commands, for each wallet: what it has, with what was
      debited from it and what restarts have lost of it, is what was credited to it
      and what its own claims were paid. */
  lemma {:induction false} WalletConserved(codec: Codec, cs: seq<Command>, w: Wallet)
    ensures var b := Run(codec, cs);
            BalanceOf(b.balances, w) + DebitsFrom(codec, cs, w) + LostOf(codec, cs, w)
              == CreditsTo(cs, w) + PaidOutTo(b.payouts, w)
  {
    hide Apply;
    if cs != [] {
      var before := Run(codec, cs[..|cs| - 1]);
      WalletConserved(codec, cs[..|cs| - 1], w);
      BalanceMeans(codec, before, cs[|cs| - 1], w);
      PayoutsMean(codec, before, cs[|cs| - 1], w);
    }
  }

  /** A good claim is paid to the DID that makes it, and nothing else is paid. */
  lemma PayoutsMean(codec: Codec, b: Books, c: Command, w: Wallet)
    ensures PaidOutTo(Apply(codec, b, c).payouts, w) == PaidOutTo(b.payouts, w) +
            if c.ClaimGrant? && c.did == w && c.grantId in b.programs && b.programs[c.grantId].active
               && (b.programs[c.grantId].expiresAt == 0 || c.now <= b.programs[c.grantId].expiresAt)
               && c.did !in b.programs[c.grantId].claimedBy
               && (b.programs[c.grantId].maxClaims == 0
                   || b.programs[c.grantId].claimedCount < b.programs[c.grantId].maxClaims)
            then b.programs[c.grantId].amountPerClaim else 0
  {
    if c.ClaimGrant? && Verified(b.programs, c.grantId, c.did, c.now).Ok? {
      var p := Payout(c.grantId, c.did, b.programs[c.grantId].amountPerClaim);
      assert (b.payouts + [p])[..|b.payouts|] == b.payouts;
    }
  }

  // ----- The handlers, on the objects -----

  ghost function BooksOf(ppor: GrantTable, ledger: Ledger, db: NameDb): Books
    reads ppor, ledger, db
  {
    Books(ledger.balances, ppor.grantPrograms, db.grantClaims, db.registry, [])
  }

  method HandleClaim(ppor: GrantTable, ledger: Ledger, db: NameDb, grantId: string, did: string, now: nat)
    returns (res: Result<(nat, nat)>)
    modifies ppor, ledger, db
    ensures var (b, r) := Claimed(old(BooksOf(ppor, ledger, db)), grantId, did, now);
            BooksOf(ppor, ledger, db) == b.(payouts := []) && res == r
    ensures res.Ok? <==>
              (grantId in old(ppor.grantPrograms)
               && var g := old(ppor.grantPrograms)[grantId];
                  && g.active && (g.expiresAt == 0 || now <= g.expiresAt) && did !in g.claimedBy
                  && (g.maxClaims == 0 || g.claimedCount < g.maxClaims))
    ensures res.Ok? ==>
              var amount := old(ppor.grantPrograms)[grantId].amountPerClaim;
              && BalanceOf(ledger.balances, did) == BalanceOf(old(ledger.balances), did) + amount
              && res.value == (amount, BalanceOf(ledger.balances, did))
              && (did, grantId) in db.grantClaims && did in ppor.grantPrograms[grantId].claimedBy
    ensures forall w :: w != did || res.Err? ==> BalanceOf(ledger.balances, w) == BalanceOf(old(ledger.balances), w)
    ensures res.Err? ==> ppor.grantPrograms == old(ppor.grantPrograms) && db.grantClaims == old(db.grantClaims)
    ensures old(ledger.Valid()) ==> ledger.Valid()
  {
    var verified := ppor.VerifyGrantClaim(grantId, did, now);
    if verified.Err? {
      return Err(verified.error);
    }
    var amount := verified.value;
    var executed := ppor.ExecuteClaim(grantId, did, amount);
    if executed.Err? {
      return Err("Grant not found");
    }
    var balance := ledger.ClaimGrantCredits(did, amount);
    db.InsertGrantClaim(did, grantId, amount);
    return Ok((amount, balance));
  }

  method HandleRegistration(ppor: GrantTable, ledger: Ledger, db: NameDb, name: string, did: string,
                            publicKey: string, now: nat)
    modifies ledger, db
    ensures BooksOf(ppor, ledger, db) == Registered(old(BooksOf(ppor, ledger, db)), name, did, publicKey, now)
    ensures var balance := BalanceOf(old(ledger.balances), did);
            if balance >= 100
            then BalanceOf(ledger.balances, did) == balance - 100 && name in db.registry && db.registry[name].did == did
                 && db.registry[name].publicKey == publicKey
            else BalanceOf(ledger.balances, did) == balance && db.registry == old(db.registry)
    ensures forall w :: w != did ==> BalanceOf(ledger.balances, w) == BalanceOf(old(ledger.balances), w)
    ensures old(ledger.Valid()) ==> ledger.Valid()
  {
    var paid := ledger.Debit(did, REGISTRATION_FEE);
    if paid {
      db.InsertName(name, did, publicKey, now);
    }
  }
}
