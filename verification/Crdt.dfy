/** The two replicated data types of `crdt.rs`, as functions on their states, and
    the manager that keeps them in one store. */
module Crdt {
  import opened Wrappers
  import opened Strings

  datatype Operation = Operation(
    objectId: string, crdtType: string, key: string, value: string, timestamp: nat, author: string,
    signature: string, operation: string, vectorTag: Option<string>, removeTags: seq<string>)

  datatype LwwEntry = LwwEntry(value: string, timestamp: nat, author: string, isDeleted: bool)
  datatype AwEntry = AwEntry(author: string, timestamp: nat)

  type LwwMap = map<string, LwwEntry>
  /** Values, each with the tags under which it has been added. */
  type OrSet = map<string, map<string, AwEntry>>

  // ----- Last writer wins -----

  /** A later time, or the same time and a greater author. */
  predicate Newer(t1: nat, a1: string, t2: nat, a2: string) {
    t1 > t2 || (t1 == t2 && Less(a2, a1))
  }

  function EntryOf(op: Operation): LwwEntry {
    LwwEntry(op.value, op.timestamp, op.author, op.operation == "delete")
  }

  predicate Wins(m: LwwMap, op: Operation) {
    op.key in m ==> Newer(op.timestamp, op.author, m[op.key].timestamp, m[op.key].author)
  }

  function LwwApply(m: LwwMap, op: Operation): LwwMap {
    if Wins(m, op) then m[op.key := EntryOf(op)] else m
  }

  // ----- Add wins -----

  predicate IsAdd(op: Operation) { op.operation == "add" || op.operation == "set" }

  predicate IsRemove(op: Operation) { op.operation == "delete" || op.operation == "remove" }

  function TagOf(op: Operation): string {
    if op.vectorTag.Some? then op.vectorTag.value else Decimal(op.timestamp) + "_" + op.author
  }

  function TagsOf(s: OrSet, value: string): map<string, AwEntry> {
    if value in s then s[value] else map[]
  }

  function OrSetApply(s: OrSet, op: Operation): OrSet {
    if IsAdd(op) then s[op.value := TagsOf(s, op.value)[TagOf(op) := AwEntry(op.author, op.timestamp)]]
    else if IsRemove(op) && op.value in s then
      var left := s[op.value] - set t | t in op.removeTags;
      if left == map[] then s - {op.value} else s[op.value := left]
    else s
  }

  /** No value is kept without a tag. */
  predicate NoEmptyTags(s: OrSet) { forall v :: v in s ==> s[v] != map[] }

  // ----- The store -----

  datatype Record = LwwRecord(entries: LwwMap) | OrSetRecord(elements: OrSet) | LogRecord(op: Operation)

  function StateKey(objectId: string): string { "crdt:state:" + objectId }

  function LogKey(op: Operation): string {
    "crdt:log:" + op.objectId + ":" + Decimal(op.timestamp) + "_" + op.author
  }

  type Store = map<string, Record>

  /** A record of the other type does not parse, and counts as no record. */
  function LwwAt(db: Store, objectId: string): LwwMap {
    var k := StateKey(objectId);
    if k in db && db[k].LwwRecord? then db[k].entries else map[]
  }

  function OrSetAt(db: Store, objectId: string): OrSet {
    var k := StateKey(objectId);
    if k in db && db[k].OrSetRecord? then db[k].elements else map[]
  }

  /** Only the owner may write to an object whose path begins with a DID. */
  predicate Permitted(objectId: string, author: string) {
    StartsWith(Before(objectId, '/'), "did:feedo:") ==> Before(objectId, '/') == author
  }

  function SignedText(op: Operation): string {
    op.objectId + ":" + op.key + ":" + op.value + ":" + Decimal(op.timestamp)
  }

  /** Public key, text and signature to verdict. */
  type Verifier = (string, string, string) -> bool

  predicate Accepted(verify: Verifier, op: Operation) {
    Permitted(op.objectId, op.author) && verify(TrimStart(op.author, "did:feedo:"), SignedText(op), op.signature)
  }

  /** Does the operation change the object? Adds are always written. */
  predicate Updates(db: Store, op: Operation) {
    if op.crdtType == "AwOrSet"
    then IsAdd(op) || OrSetApply(OrSetAt(db, op.objectId), op) != OrSetAt(db, op.objectId)
    else Wins(LwwAt(db, op.objectId), op)
  }

  function NewRecord(db: Store, op: Operation): Record {
    if op.crdtType == "AwOrSet"
    then OrSetRecord(OrSetApply(OrSetAt(db, op.objectId), op))
    else LwwRecord(LwwApply(LwwAt(db, op.objectId), op))
  }

  function Process(verify: Verifier, db: Store, op: Operation): Store {
    if !Accepted(verify, op) then db
    else (if Updates(db, op) then db[StateKey(op.objectId) := NewRecord(db, op)] else db)[LogKey(op) := LogRecord(op)]
  }

  /** Every stored set is without empty tag maps, and keys say what is stored. */
  ghost predicate StoreSound(db: Store) {
    forall o :: NoEmptyTags(OrSetAt(db, o))
  }

  lemma KeysApart(objectId: string, op: Operation)
    ensures StateKey(objectId) != LogKey(op)
  {
    assert StateKey(objectId)[5] == 's' && LogKey(op)[5] == 'l';
  }

  lemma StateKeyInjective(a: string, b: string)
    requires StateKey(a) == StateKey(b)
    ensures a == b
  {
    assert StateKey(a)[11..] == a && StateKey(b)[11..] == b;
  }

  /** What remains of a value's tags, with the tags gone one by one. */
  lemma RemovedOneMore(tags: map<string, AwEntry>, removed: seq<string>, t: string)
    ensures (tags - set x | x in removed) - {t} == tags - set x | x in removed + [t]
  {
  }

  /** An add puts its tag, or the one made of its time and author, under its value; a
      remove takes the listed tags away; other values stay. */
  lemma SetMeans(s: OrSet, op: Operation)
    requires NoEmptyTags(s)
    ensures var after := OrSetApply(s, op);
            && (op.operation == "add" || op.operation == "set" ==>
                  && op.value in after
                  && var tag := if op.vectorTag.Some? then op.vectorTag.value
                                else Decimal(op.timestamp) + "_" + op.author;
                     && after[op.value] == (if op.value in s then s[op.value] else map[])
                                             [tag := AwEntry(op.author, op.timestamp)]
                     && after - {op.value} == s - {op.value})
            && (op.operation == "delete" || op.operation == "remove" ==>
                  && after - {op.value} == s - {op.value}
                  && forall t :: (op.value in after && t in after[op.value]) <==>
                       (op.value in s && t in s[op.value] && t !in op.removeTags))
            && (op.operation !in ["add", "set", "delete", "remove"] ==> after == s)
  {
    if IsRemove(op) && op.value in s {
      var left := s[op.value] - set t | t in op.removeTags;
      assert forall t :: t in left <==> t in s[op.value] && t !in op.removeTags;
    }
  }

  /** What only a DID may write to: objects whose path begins with it. */
  lemma OnlyOwnersWrite(verify: Verifier, db: Store, op: Operation, did: string, rest: string)
    requires StartsWith(did, "did:feedo:") && '/' !in did && op.author != did
    ensures op.objectId == did || op.objectId == did + "/" + rest ==> Process(verify, db, op) == db
  {
    BeforeOf(did, "");
    BeforeOf(did, rest);
  }

  lemma {:induction false} BeforeOf(did: string, rest: string)
    requires '/' !in did
    ensures Before(did, '/') == did && Before(did + "/" + rest, '/') == did
  {
    if did != "" {
      assert (did + "/" + rest)[1..] == did[1..] + "/" + rest;
      BeforeOf(did[1..], rest);
    } else {
      assert did + "/" + rest == "/" + rest;
    }
  }

  class CrdtManager {
    var db: Store
    const verify: Verifier

    constructor (verify: Verifier)
      ensures db == map[] && this.verify == verify
    {
      db, this.verify := map[], verify;
    }

    method ProcessLwwMap(op: Operation) returns (updated: bool)
      modifies this
      ensures updated == Wins(LwwAt(old(db), op.objectId), op)
      ensures db == if updated
                then old(db)[StateKey(op.objectId) := LwwRecord(LwwApply(LwwAt(old(db), op.objectId), op))] else old(db)
      ensures var before, after := LwwAt(old(db), op.objectId), LwwAt(db, op.objectId);
              && (updated <==>
                    (op.key !in before || before[op.key].timestamp < op.timestamp
                     || (before[op.key].timestamp == op.timestamp && Less(before[op.key].author, op.author))))
              && (updated ==>
                    after == before[op.key :=
                      LwwEntry(op.value, op.timestamp, op.author, op.operation == "delete")])
    {
      var entries := LwwAt(db, op.objectId);
      updated := false;
      var isDeleted := op.operation == "delete";
      var shouldApply;
      if op.key in entries {
        var existing := entries[op.key];
        if op.timestamp > existing.timestamp {
          shouldApply := true;
        } else if op.timestamp == existing.timestamp {
          shouldApply := Less(existing.author, op.author);
        } else {
          shouldApply := false;
        }
      } else {
        shouldApply := true;
      }
      if shouldApply {
        entries := entries[op.key := LwwEntry(op.value, op.timestamp, op.author, isDeleted)];
        updated := true;
        db := db[StateKey(op.objectId) := LwwRecord(entries)];
      }
    }

    /** Nothing is written back unless an add came or a listed tag was there; in
        a sound store that loses no change. */
    method ProcessAwOrSet(op: Operation) returns (updated: bool)
      requires NoEmptyTags(OrSetAt(db, op.objectId))
      modifies this
      ensures updated == (IsAdd(op) || OrSetApply(OrSetAt(old(db), op.objectId), op) != OrSetAt(old(db), op.objectId))
      ensures db == if updated then old(db)[StateKey(op.objectId) := OrSetRecord(OrSetApply(OrSetAt(old(db),
                op.objectId), op))] else old(db)
      ensures var before, after := OrSetAt(old(db), op.objectId), OrSetAt(db, op.objectId);
              && (op.operation == "add" || op.operation == "set" ==>
                    && updated && op.value in after
                    && var tag := if op.vectorTag.Some? then op.vectorTag.value
                                  else Decimal(op.timestamp) + "_" + op.author;
                       && after[op.value] == (if op.value in before then before[op.value] else map[])
                                               [tag := AwEntry(op.author, op.timestamp)]
                       && after - {op.value} == before - {op.value})
              && (op.operation == "delete" || op.operation == "remove" ==>
                    && after - {op.value} == before - {op.value}
                    && forall t :: (op.value in after && t in after[op.value]) <==>
                         (op.value in before && t in before[op.value] && t !in op.removeTags))
              && (op.operation !in ["add", "set", "delete", "remove"] ==> after == before)
    {
      SetMeans(OrSetAt(db, op.objectId), op);
      var elements := OrSetAt(db, op.objectId);
      ghost var before := elements;
      updated := false;
      if op.operation == "add" || op.operation == "set" {
        var tags := if op.value in elements then elements[op.value] else map[];
        elements := elements[op.value := tags[TagOf(op) := AwEntry(op.author, op.timestamp)]];
        updated := true;
      } else if op.operation == "delete" || op.operation == "remove" {
        if op.value in elements {
          var tags := elements[op.value];
          for i := 0 to |op.removeTags|
            invariant db == old(db) && tags == before[op.value] - set t | t in op.removeTags[..i]
            invariant updated <==> tags != before[op.value]
          {
            RemovedOneMore(before[op.value], op.removeTags[..i], op.removeTags[i]);
            assert op.removeTags[..i + 1] == op.removeTags[..i] + [op.removeTags[i]];
            if op.removeTags[i] in tags {
              Shrinks(before[op.value], op.removeTags[..i], op.removeTags[i]);
              updated := true;
            }
            tags := tags - {op.removeTags[i]};
          }
          assert op.removeTags[..|op.removeTags|] == op.removeTags;
          elements := elements[op.value := tags];
          if tags == map[] {
            elements := elements - {op.value};
          }
          assert updated ==> TagsOf(elements, op.value) == tags != TagsOf(before, op.value);
        }
      }
      assert elements == OrSetApply(before, op);
      assert !updated ==> elements == before;
      if updated {
        db := db[StateKey(op.objectId) := OrSetRecord(elements)];
      }
    }

    lemma Shrinks(tags: map<string, AwEntry>, removed: seq<string>, t: string)
      requires t in tags && t !in removed
      ensures t in tags && t !in tags - set x | x in removed + [t]
    {
    }

    method ProcessOperation(op: Operation) returns (res: Result<bool>)
      requires StoreSound(db)
      modifies this
      ensures StoreSound(db) && db == Process(verify, old(db), op)
      ensures res.Ok? <==> Accepted(verify, op)
      ensures res.Ok? ==> res.value == Updates(old(db), op)
      ensures var owner := Before(op.objectId, '/');
              res.Ok? <==>
                ((StartsWith(owner, "did:feedo:") ==> owner == op.author)
                 && verify(TrimStart(op.author, "did:feedo:"),
                           op.objectId + ":" + op.key + ":" + op.value + ":" + Decimal(op.timestamp), op.signature))
      ensures res.Err? ==> db == old(db)
      ensures var log := "crdt:log:" + op.objectId + ":" + Decimal(op.timestamp) + "_" + op.author;
              res.Ok? ==> log in db && db[log] == LogRecord(op)
    {
      var owner := Before(op.objectId, '/');
      if StartsWith(owner, "did:feedo:") && owner != op.author {
        return Err("ACL Denied: Author does not own this private object");
      }
      if !verify(TrimStart(op.author, "did:feedo:"), SignedText(op), op.signature) {
        return Err("Invalid CRDT Operation Signature");
      }
      ProcessKeepsSound(verify, db, op);
      var updated;
      if op.crdtType == "AwOrSet" {
        updated := ProcessAwOrSet(op);
      } else {
        updated := ProcessLwwMap(op);
      }
      db := db[LogKey(op) := LogRecord(op)];
      return Ok(updated);
    }
  }

  lemma OrSetApplyKeepsTags(s: OrSet, op: Operation)
    requires NoEmptyTags(s)
    ensures NoEmptyTags(OrSetApply(s, op))
  {
    if IsAdd(op) {
      assert TagOf(op) in TagsOf(s, op.value)[TagOf(op) := AwEntry(op.author, op.timestamp)];
    }
  }

  /** An operation reaches its own object and no other; a change of one type
      forgets what the object held as the other type. */
  lemma ProcessReaches(verify: Verifier, db: Store, op: Operation, o: string)
    ensures o != op.objectId || !Accepted(verify, op) ==>
              LwwAt(Process(verify, db, op), o) == LwwAt(db, o) && OrSetAt(Process(verify, db, op), o) == OrSetAt(db, o)
    ensures o == op.objectId && Accepted(verify, op) && op.crdtType == "AwOrSet" ==>
              && OrSetAt(Process(verify, db, op), o) == OrSetApply(OrSetAt(db, o), op)
              && LwwAt(Process(verify, db, op), o) == if Updates(db, op) then map[] else LwwAt(db, o)
    ensures o == op.objectId && Accepted(verify, op) && op.crdtType != "AwOrSet" ==>
              && LwwAt(Process(verify, db, op), o) == LwwApply(LwwAt(db, o), op)
              && OrSetAt(Process(verify, db, op), o) == if Updates(db, op) then map[] else OrSetAt(db, o)
  {
    hide LogKey, StateKey, OrSetApply, LwwApply, Accepted;
    KeysApart(o, op);
    if o != op.objectId && StateKey(o) == StateKey(op.objectId) {
      StateKeyInjective(o, op.objectId);
    }
    LosersChangeNothing(LwwAt(db, o), op);
  }

  lemma LosersChangeNothing(m: LwwMap, op: Operation)
    ensures !Wins(m, op) ==> LwwApply(m, op) == m
  {
  }

  lemma ProcessKeepsSound(verify: Verifier, db: Store, op: Operation)
    requires StoreSound(db)
    ensures StoreSound(Process(verify, db, op))
  {
    hide OrSetApply, Process;
    forall o ensures NoEmptyTags(OrSetAt(Process(verify, db, op), o)) {
      ProcessReaches(verify, db, op, o);
      OrSetApplyKeepsTags(OrSetAt(db, o), op);
    }
  }
}
