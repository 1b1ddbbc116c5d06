/** The tables of `name_db.rs`: registered names and grant claims. */
module NameRegistry {
  import opened Wrappers

  datatype NameRow = NameRow(
    did: string, publicKey: string, timestamp: nat, cid: Option<string>, gateways: Option<string>,
    title: Option<string>, description: Option<string>, iconCid: Option<string>,
    createdAt: Option<nat>, updatedAt: Option<nat>)

  type Names = map<string, NameRow>

  /** INSERT OR REPLACE: an existing row goes, with all that it had. */
  function Inserted(names: Names, name: string, did: string, publicKey: string, now: nat): Names {
    names[name := NameRow(did, publicKey, now, None, None, None, None, None, Some(now), None)]
  }

  function CidUpdated(names: Names, name: string, cid: string, gatewaysJson: string): Names {
    if name in names then names[name := names[name].(cid := Some(cid), gateways := Some(gatewaysJson))] else names
  }

  function MetadataUpdated(names: Names, name: string, title: Option<string>, description: Option<string>,
                           iconCid: Option<string>, now: nat): Names {
    if name in names
    then names[name := names[name].(title := title, description := description,
        iconCid := iconCid, updatedAt := Some(now))]
    else names
  }

  /** Claims by DID and grant, with the amount. */
  type Claims = map<(string, string), nat>

  /** INSERT OR IGNORE: the first row for a DID and a grant stays. */
  function ClaimInserted(claims: Claims, did: string, grantId: string, amount: nat): Claims {
    if (did, grantId) in claims then claims else claims[(did, grantId) := amount]
  }

  class NameDb {
    var registry: Names
    var grantClaims: Claims

    constructor ()
      ensures registry == map[] && grantClaims == map[]
    {
      registry, grantClaims := map[], map[];
    }

    /** Afterwards the name is `did`'s as of now, with no content and no metadata,
        whoever had it and whatever it pointed to; the other names stay. */
    method InsertName(name: string, did: string, publicKey: string, now: nat)
      modifies this`registry
      ensures name in registry && registry[name].did == did && registry[name].publicKey == publicKey
      ensures registry[name].timestamp == now && registry[name].createdAt == Some(now)
                && registry[name].updatedAt == None
      ensures registry[name].cid == None && registry[name].gateways == None
      ensures registry[name].title == None && registry[name].description == None && registry[name].iconCid == None
      ensures forall other :: other != name ==> (other in registry <==> other in old(registry))
      ensures forall other :: other != name && other in registry ==> registry[other] == old(registry)[other]
      ensures registry == Inserted(old(registry), name, did, publicKey, now)
    {
      registry := registry[name := NameRow(did, publicKey, now, None, None, None, None, None, Some(now), None)];
    }

    method UpdateCid(name: string, cid: string, gatewaysJson: string)
      modifies this`registry
      ensures registry == CidUpdated(old(registry), name, cid, gatewaysJson)
      ensures registry == if name in old(registry)
                then old(registry)[name := old(registry)[name].(cid := Some(cid), gateways := Some(gatewaysJson))]
                else old(registry)
    {
      if name in registry {
        registry := registry[name := registry[name].(cid := Some(cid), gateways := Some(gatewaysJson))];
      }
    }

    method UpdateMetadata(name: string, title: Option<string>, description: Option<string>, iconCid: Option<string>,
                          now: nat)
      modifies this`registry
      ensures registry == MetadataUpdated(old(registry), name, title, description, iconCid, now)
      ensures registry == if name in old(registry)
                then old(registry)[name := old(registry)[name].(title := title, description := description,
                    iconCid := iconCid, updatedAt := Some(now))]
                else old(registry)
    {
      if name in registry {
        var row := registry[name];
        registry := registry[name := row.(title := title, description := description,
            iconCid := iconCid, updatedAt := Some(now))];
      }
    }

    /** Afterwards there is a row for the pair: the first one that was ever made. No
        other row is touched. */
    method InsertGrantClaim(did: string, grantId: string, amount: nat)
      modifies this`grantClaims
      ensures (did, grantId) in old(grantClaims) ==> grantClaims == old(grantClaims)
      ensures (did, grantId) !in old(grantClaims) ==>
                (did, grantId) in grantClaims && grantClaims[(did, grantId)] == amount
      ensures forall k :: k != (did, grantId) ==> (k in grantClaims <==> k in old(grantClaims))
      ensures forall k :: k != (did, grantId) && k in grantClaims ==> grantClaims[k] == old(grantClaims)[k]
      ensures grantClaims == ClaimInserted(old(grantClaims), did, grantId, amount)
    {
      if (did, grantId) !in grantClaims {
        grantClaims := grantClaims[(did, grantId) := amount];
      }
    }
  }
}
