/** Grant programs: who may claim, and what a claim records. */
module Grants {
  import opened Wrappers

  datatype GrantProgram = GrantProgram(
    grantId: string, title: string, signer: string, amountPerClaim: nat, maxClaims: nat, claimedCount: nat,
    claimedTotal: nat, claimedBy: set<string>, createdAt: nat, expiresAt: nat, active: bool)

  type Programs = map<string, GrantProgram>

  function Created(programs: Programs, grant: GrantProgram): Result<Programs> {
    if grant.grantId in programs then Err("Grant already exists")
    else if grant.amountPerClaim == 0 then Err("Amount per claim must be > 0")
    else Ok(programs[grant.grantId := grant])
  }

  function Verified(programs: Programs, grantId: string, did: string, now: nat): Result<nat> {
    if grantId !in programs then Err("Grant not found")
    else
      var grant := programs[grantId];
      if !grant.active then Err("Grant is not active")
      else if grant.expiresAt > 0 && now > grant.expiresAt then Err("Grant expired")
      else if did in grant.claimedBy then Err("Already claimed")
      else if grant.maxClaims > 0 && grant.claimedCount >= grant.maxClaims then Err("Claim limit reached")
      else Ok(grant.amountPerClaim)
  }

  const FAULTS := ["Grant not found", "Grant is not active", "Grant expired", "Already claimed", "Claim limit reached"]

  /** The first `k` of the five conditions of a claim hold. */
  predicate MayClaim(programs: Programs, grantId: string, did: string, now: nat, k: nat) {
    && (k >= 1 ==> grantId in programs)
    && (k >= 2 ==> programs[grantId].active)
    && (k >= 3 ==> programs[grantId].expiresAt == 0 || now <= programs[grantId].expiresAt)
    && (k >= 4 ==> did !in programs[grantId].claimedBy)
    && (k >= 5 ==> programs[grantId].maxClaims == 0 || programs[grantId].claimedCount < programs[grantId].maxClaims)
  }

  function Executed(programs: Programs, grantId: string, did: string, amount: nat): Result<Programs> {
    if grantId !in programs then Err("Grant not found")
    else
      var grant := programs[grantId];
      Ok(programs[grantId := grant.(claimedBy := grant.claimedBy + {did}, claimedCount := grant.claimedCount + 1,
                                    claimedTotal := grant.claimedTotal + amount)])
  }

  /** The part of the consensus manager that keeps grants. */
  class GrantTable {
    var grantPrograms: Programs

    constructor ()
      ensures grantPrograms == map[]
    {
      grantPrograms := map[];
    }

    method CreateGrant(grant: GrantProgram) returns (res: Result<()>)
      modifies this
      ensures res.Ok? <==> Created(old(grantPrograms), grant).Ok?
      ensures grantPrograms == if res.Ok? then Created(old(grantPrograms), grant).value else old(grantPrograms)
      ensures res.Ok? <==> grant.grantId !in old(grantPrograms) && grant.amountPerClaim > 0
      ensures res.Ok? ==> grantPrograms == old(grantPrograms)[grant.grantId := grant]
    {
      if grant.grantId in grantPrograms {
        return Err("Grant already exists");
      }
      if grant.amountPerClaim == 0 {
        return Err("Amount per claim must be > 0");
      }
      grantPrograms := grantPrograms[grant.grantId := grant];
      return Ok(());
    }

    /** A claim is good exactly if the grant is known, active, not past its end, not
        yet claimed by this DID and not used up; of several faults the first in this
        order is told. */
    method VerifyGrantClaim(grantId: string, did: string, now: nat) returns (res: Result<nat>)
      ensures res.Ok? <==> MayClaim(grantPrograms, grantId, did, now, 5)
      ensures res.Ok? <==>
                (grantId in grantPrograms
                 && var g := grantPrograms[grantId];
                    && g.active && (g.expiresAt == 0 || now <= g.expiresAt) && did !in g.claimedBy
                    && (g.maxClaims == 0 || g.claimedCount < g.maxClaims))
      ensures res.Ok? ==>
                res.value == grantPrograms[grantId].amountPerClaim
                && res.value == Verified(grantPrograms, grantId, did, now).value
      ensures forall k: nat :: k < 5 && MayClaim(grantPrograms, grantId, did, now, k)
                && !MayClaim(grantPrograms, grantId, did, now, k + 1)
                ==> res == Err(FAULTS[k])
      ensures res == Verified(grantPrograms, grantId, did, now)
    {
      if grantId !in grantPrograms {
        return Err("Grant not found");
      }
      var grant := grantPrograms[grantId];
      if !grant.active {
        return Err("Grant is not active");
      }
      if grant.expiresAt > 0 {
        if now > grant.expiresAt {
          return Err("Grant expired");
        }
      }
      if did in grant.claimedBy {
        return Err("Already claimed");
      }
      if grant.maxClaims > 0 && grant.claimedCount >= grant.maxClaims {
        return Err("Claim limit reached");
      }
      return Ok(grant.amountPerClaim);
    }

    method ExecuteClaim(grantId: string, did: string, amount: nat) returns (res: Result<nat>)
      modifies this
      ensures res.Ok? <==> grantId in old(grantPrograms)
      ensures grantPrograms == if res.Ok? then Executed(old(grantPrograms), grantId, did, amount).value
                else old(grantPrograms)
      ensures res.Ok? ==> res.value == grantPrograms[grantId].claimedCount
      ensures res.Ok? ==>
                var g := old(grantPrograms)[grantId];
                grantPrograms == old(grantPrograms)[grantId := g.(claimedBy := g.claimedBy + {did},
                    claimedCount := g.claimedCount + 1, claimedTotal := g.claimedTotal + amount)]
    {
      if grantId !in grantPrograms {
        return Err("Grant not found");
      }
      var grant := grantPrograms[grantId];
      grant := grant.(claimedBy := grant.claimedBy + {did});
      grant := grant.(claimedCount := grant.claimedCount + 1);
      grant := grant.(claimedTotal := grant.claimedTotal + amount);
      grantPrograms := grantPrograms[grantId := grant];
      return Ok(grant.claimedCount);
    }
  }
}
