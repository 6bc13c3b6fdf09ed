/**
 Registering evidence with its file, and attaching a file to an item (app/evidence/files.py): two
 resources, the object store and the database, kept together by removing the object when its record
 could not be made. A fault is injected at every step.
 */
module EvidenceFiles {
  import opened Wrappers
  import opened Content
  import opened HashChain
  import Integrity

  datatype StoreFault =
    | StoreFine
    | StoreRefuses                  // StorageError: nothing is stored
    | StoreRaises(leaves: bool)     // another exception; `leaves`: after the file was written (chmod)

  datatype RegisterFaults = RegisterFaults(
    store: StoreFault,
    register: bool,          // register_evidence raises
    lookup: bool,            // the query for the new evidence_id raises
    record: bool,            // the transaction of the file row raises a DatabaseError
    recordOther: bool,       // ... or another exception
    discard: bool)           // the removal of the object fails; it is only logged

  datatype AttachFaults = AttachFaults(store: StoreFault, transaction: bool, discard: bool)

  datatype Outcome =
    | Done
    | DoneWithoutFile        // registered, with a warning: the file was not kept
    | Refused
    | Raised

  predicate Named(items: map<nat, Item>, id: ObjectId) {
    exists e | e in items :: exists i | 0 <= i < |items[e]| :: items[e][i].File? && items[e][i].objectId == id
  }

  /** Objects in the store that no evidence_files row names. */
  ghost predicate Orphan(objects: Objects, items: map<nat, Item>, id: ObjectId) {
    id in objects && !Named(items, id)
  }

  /**
   Exactly when registering leaves the new object without a row that names it; `taken`: another file
   was attached to the item meanwhile.
   */
  predicate RegisterLeaves(x: RegisterFaults, matches: bool, taken: bool) {
    match x.store
    case StoreRefuses => false
    case StoreRaises(leaves) => leaves
    case StoreFine =>
      if !matches || x.register then x.discard
      else x.lookup || x.recordOther || ((x.record || taken) && x.discard)
  }

  /**
   With clean-up that works and an object that can be made read-only, registering leaves an
   unrecorded object exactly when the evidence was registered and then the look-up between the two
   transactions failed, or the second one failed with something else than a DatabaseError.
   */
  lemma CleanRegisterLeavesIff(x: RegisterFaults, matches: bool, taken: bool)
    requires !x.discard && (x.store.StoreRaises? ==> !x.store.leaves)
    ensures RegisterLeaves(x, matches, taken)
       <==> x.store.StoreFine? && matches && !x.register && (x.lookup || x.recordOther)
  {
  }

  /** get_file: an item has one file at most. */
  function FileOf(v: Item): (f: Option<nat>)
    ensures f.Some? <==> HasFile(v)
    ensures f.Some? ==> f.value < |v| && v[f.value].File?
  {
    if v == [] then None
    else if v[|v| - 1].File? then Some(|v| - 1)
    else
      var f := FileOf(v[..|v| - 1]);
      assert HasFile(v) ==> HasFile(v[..|v| - 1]) by {
        if HasFile(v) {
          var j :| 0 <= j < |v| && v[j].File?;
          assert v[..|v| - 1][j].File?;
        }
      }
      assert f.Some? ==> v[f.value].File?;
      f
  }

  /** The object id of the item's file. */
  function StoredAs(v: Item): ObjectId
    requires HasFile(v)
  {
    v[FileOf(v).value].objectId
  }

  /** A recorded file's item has a reference hash to verify against. */
  lemma FileHasReference(items: map<nat, Item>, n: nat, evidence: nat)
    requires Integrity.AllGood(items, n) && evidence in items && HasFile(items[evidence])
    ensures CurrentHash(items[evidence]).Some? && Hashes(items[evidence]) != []
    ensures CurrentHash(items[evidence]) == Some(Last(Hashes(items[evidence])))
  {
    var v := items[evidence];
    assert Integrity.GoodAt(items, evidence, n);
    var j :| 0 <= j < |v| && v[j].File?;
    assert Recorded(v, v[j].sha);
    var k :| 0 <= k < |v| && v[k].Hash? && v[k].row.value == v[j].sha;
    HashesAreRows(v, v[k].row);
    Integrity.CurrentOf(items, n, evidence);
  }

  /** What an attach that was not refused at once leaves in the store when it does not succeed. */
  predicate LeavesObject(x: AttachFaults) {
    if x.store.StoreFine? then x.discard else x.store.StoreRaises? && x.store.leaves
  }

  /** What attach comes to once its first check has passed: it refuses a StorageError or a wrong file, and passes the rest on. */
  function StoredOutcome(x: AttachFaults, mayAttach: bool): Outcome {
    match x.store
    case StoreRefuses => Refused
    case StoreRaises(_) => Raised
    case StoreFine => if x.transaction then Raised else if mayAttach then Done else Refused
  }

  class EvidenceStore {
    const sha: Sha
    var objects: Objects
    var items: map<nat, Item>
    var next: nat

    /** Every file row's object is stored, with the bytes that were hashed. */
    ghost predicate FilesStored()
      reads this
    {
      forall e, i | e in items && 0 <= i < |items[e]| && items[e][i].File? ::
        items[e][i].objectId in objects && sha(objects[items[e][i].objectId]) == items[e][i].sha
    }

    ghost predicate Valid()
      reads this
    {
      Integrity.AllGood(items, next) && FilesStored()
    }

    constructor (sha: Sha)
      ensures Valid() && objects == map[] && items == map[] && next == 0 && this.sha == sha
    {
      this.sha := sha;
      objects := map[];
      items := map[];
      next := 0;
    }

    /** _store: the object is written under a new UUID. */
    method Store(id: ObjectId, data: Bytes, x: StoreFault) returns (stored: bool)
      requires Valid() && id !in objects
      modifies this`objects
      ensures Valid()
      ensures stored == x.StoreFine?
      ensures objects == if x.StoreFine? || (x.StoreRaises? && x.leaves) then old(objects)[id := data] else old(objects)
    {
      if x.StoreFine? || (x.StoreRaises? && x.leaves) {
        objects := objects[id := data];
      }
      return x.StoreFine?;
    }

    /** _discard: a failed removal is logged and otherwise ignored. */
    method Discard(id: ObjectId, fails: bool)
      requires Valid() && !Named(items, id)
      modifies this`objects
      ensures Valid()
      ensures objects == if fails then old(objects) else old(objects) - {id}
    {
      if !fails {
        objects := objects - {id};
      }
    }

    /** The insert of one file row, its transaction committed. */
    method InsertFileRow(evidence: nat, id: ObjectId, data: Bytes)
      requires Valid() && evidence in items && id in objects && objects[id] == data
      requires !HasFile(items[evidence]) && Recorded(items[evidence], sha(data))
      modifies this`items
      ensures Valid() && items == old(items)[evidence := old(items)[evidence] + [File(id, sha(data))]]
      ensures Named(items, id)
    {
      InsertKeepsGood(items, next, evidence, id, sha(data));
      ghost var before := items;
      items := items[evidence := items[evidence] + [File(id, sha(data))]];
      assert items[evidence][|before[evidence]|] == File(id, sha(data));
    }

    /**
     `typed`: the hash the user typed, if any. `raced`: what others commit to the new item between the
     two transactions, after which the next number is `later`; if one of them attached a file, the
     unique key refuses the row, which is a DatabaseError. On every path, whatever fails, the object is
     in the store without a file row exactly in the cases `RegisterLeaves` lists.
     */
    method RegisterWithFile(evidence: nat, id: ObjectId, data: Bytes, typed: Option<Digest>, raced: seq<Entry>, later: nat,
        x: RegisterFaults) returns (r: Outcome)
      requires Valid() && id !in objects && evidence !in items && !Named(items, id)
      requires var born := [Hash(HashRow(next, sha(data), None))]; next < later && Good(born + raced, later)
      requires RaceIsStored(raced)
      modifies this
      ensures Valid()
      ensures var ok := x.store.StoreFine? && (typed.None? || typed.value == sha(data)) && !x.register;
              var now := [Hash(HashRow(old(next), sha(data), None))] + raced;
              && (ok ==> r == if x.lookup || x.recordOther then Raised
                              else if x.record || HasFile(raced) then DoneWithoutFile else Done)
              && (!ok ==> r == if x.store.StoreRaises? || (x.store.StoreFine? && (typed.None? || typed.value == sha(data)))
                               then Raised else Refused)
              && (if !ok then items == old(items)
                  else items == old(items)[evidence := if r == Done then now + [File(id, sha(data))] else now])
      ensures Named(items, id) <==> r == Done
      ensures Orphan(objects, items, id) <==> RegisterLeaves(x, typed.None? || typed.value == sha(data), HasFile(raced))
      ensures objects == if r == Done || Orphan(objects, items, id) then old(objects)[id := data] else old(objects)
    {
      assert objects[id := data] - {id} == objects;
      var stored := Store(id, data, x.store);
      if !stored {
        return if x.store.StoreRefuses? then Refused else Raised;
      }
      if typed.Some? && typed.value != sha(data) {
        Discard(id, x.discard);
        return Refused;
      }
      if x.register {
        Discard(id, x.discard);
        return Raised;
      }
      r := RegisterAndRecord(evidence, id, data, raced, later, x);
    }

    /** Both transactions, for an object that is stored and fits. */
    method RegisterAndRecord(evidence: nat, id: ObjectId, data: Bytes, raced: seq<Entry>, later: nat, x: RegisterFaults)
      returns (r: Outcome)
      requires Valid() && id in objects && objects[id] == data && evidence !in items && !Named(items, id)
      requires var born := [Hash(HashRow(next, sha(data), None))]; next < later && Good(born + raced, later)
      requires RaceIsStored(raced) && forall i | 0 <= i < |raced| && raced[i].File? :: raced[i].objectId != id
      modifies this
      ensures Valid()
      ensures var now := [Hash(HashRow(old(next), sha(data), None))] + raced;
        items == old(items)[evidence := if r == Done then now + [File(id, sha(data))] else now]
      ensures r == if x.lookup || x.recordOther then Raised else if x.record || HasFile(raced) then DoneWithoutFile else Done
      ensures Named(items, id) <==> r == Done
      ensures objects ==
        if r == Done || x.lookup || x.recordOther || x.discard then old(objects) else old(objects) - {id}
    {
      ghost var born := Hash(HashRow(next, sha(data), None));
      RegisterAndRace(evidence, sha(data), raced, later, id);
      assert Recorded(items[evidence], sha(data)) by {
        assert items[evidence][0] == born;
      }
      OnlyRacedFiles(born, raced);
      r := LookUpAndRecord(evidence, id, data, x);
    }

    /** The query for the new evidence_id, and the second transaction. */
    method LookUpAndRecord(evidence: nat, id: ObjectId, data: Bytes, x: RegisterFaults) returns (r: Outcome)
      requires Valid() && evidence in items && id in objects && objects[id] == data && !Named(items, id)
      requires Recorded(items[evidence], sha(data))
      modifies this
      ensures Valid()
      ensures r == if x.lookup || x.recordOther then Raised
                   else if x.record || HasFile(old(items)[evidence]) then DoneWithoutFile else Done
      ensures items == if r == Done then old(items)[evidence := old(items)[evidence] + [File(id, sha(data))]] else old(items)
      ensures Named(items, id) <==> r == Done
      ensures objects == if r == DoneWithoutFile && !x.discard then old(objects) - {id} else old(objects)
    {
      if x.lookup {
        return Raised;
      }
      r := RecordFile(evidence, id, data, x);
    }

    /** The first transaction, and what others commit after it. */
    method RegisterAndRace(evidence: nat, digest: Digest, raced: seq<Entry>, later: nat, ghost id: ObjectId)
      requires Valid() && evidence !in items && !Named(items, id)
      requires next < later && Good([Hash(HashRow(next, digest, None))] + raced, later)
      requires RaceIsStored(raced) && forall i | 0 <= i < |raced| && raced[i].File? :: raced[i].objectId != id
      modifies this`items, this`next
      ensures Valid() && !Named(items, id)
      ensures items == old(items)[evidence := [Hash(HashRow(old(next), digest, None))] + raced]
    {
      RegisterEvidence(evidence, digest, id);
      Integrity.AllGoodLater(items, next, later);
      next := later;
      Overtake(evidence, raced, id);
    }

    /** register_evidence: the new item with the file's SHA-256 as its original hash. */
    method RegisterEvidence(evidence: nat, digest: Digest, ghost id: ObjectId)
      requires Valid() && evidence !in items && !Named(items, id)
      modifies this`items, this`next
      ensures Valid() && !Named(items, id) && next == old(next) + 1
      ensures items == old(items)[evidence := [Hash(HashRow(old(next), digest, None))]]
    {
      Integrity.RegisterStep(items, next, evidence, Some(digest));
      NewItemNamesNothing(items, evidence, Integrity.Registered(Some(digest), next), id);
      items := items[evidence := Integrity.Registered(Some(digest), next)];
      next := next + 1;
    }

    /** The second transaction: the insert, or what its failure leaves. */
    method RecordFile(evidence: nat, id: ObjectId, data: Bytes, x: RegisterFaults) returns (r: Outcome)
      requires Valid() && evidence in items && id in objects && objects[id] == data && !Named(items, id)
      requires Recorded(items[evidence], sha(data))
      modifies this
      ensures Valid()
      ensures r == if x.recordOther then Raised else if x.record || HasFile(old(items)[evidence]) then DoneWithoutFile else Done
      ensures items == if r == Done then old(items)[evidence := old(items)[evidence] + [File(id, sha(data))]] else old(items)
      ensures Named(items, id) <==> r == Done
      ensures objects == if r == DoneWithoutFile && !x.discard then old(objects) - {id} else old(objects)
      ensures next == old(next)
    {
      if x.recordOther {
        return Raised;
      }
      if x.record || HasFile(items[evidence]) {
        Discard(id, x.discard);
        return DoneWithoutFile;
      }
      InsertFileRow(evidence, id, data);
      return Done;
    }

    /** The file's SHA-256 becomes the original reference hash of an item that has none. */
    method InsertOriginalHash(evidence: nat, digest: Digest, ghost id: ObjectId)
      requires Valid() && evidence in items && !HasFile(items[evidence]) && CurrentHash(items[evidence]) == None
      requires !Named(items, id)
      modifies this`items, this`next
      ensures Valid() && next == old(next) + 1 && !Named(items, id)
      ensures items == old(items)[evidence := old(items)[evidence] + [Hash(HashRow(old(next), digest, None))]]
      ensures !HasFile(items[evidence]) && Recorded(items[evidence], digest)
    {
      ghost var before := items[evidence];
      Integrity.RecordStep(items, next, evidence, digest);
      NoFileSnoc(before, Hash(HashRow(next, digest, None)));
      items := items[evidence := items[evidence] + [Hash(HashRow(next, digest, None))]];
      next := next + 1;
      assert items[evidence][|before|].row.value == digest;
    }

    /** The transaction of attach, on the item as it is under the lock; on any refusal the object is removed. */
    method AttachLocked(evidence: nat, id: ObjectId, data: Bytes, x: AttachFaults) returns (r: Outcome)
      requires Valid() && evidence in items && id in objects && objects[id] == data && !Named(items, id)
      modifies this
      ensures Valid()
      ensures r == if x.transaction then Raised else if MayAttach(old(items)[evidence], sha(data)) then Done else Refused
      ensures Named(items, id) <==> r == Done
      ensures r == Done ==>
        && objects == old(objects)
        && items == old(items)[evidence := old(items)[evidence] + AttachedRows(old(items)[evidence], old(next), id, sha(data))]
      ensures r != Done ==>
        items == old(items) && objects == if x.discard then old(objects) else old(objects) - {id}
    {
      var item := items[evidence];
      Integrity.CurrentOf(items, next, evidence);
      var current := CurrentHash(item);
      if HasFile(item) || x.transaction || (current.Some? && current.value.value != sha(data)) {
        Discard(id, x.discard);
        return if x.transaction then Raised else Refused;
      }
      if current.None? {
        InsertOriginalHash(evidence, sha(data), id);
      } else {
        CurrentIsRecorded(item);
      }
      InsertFileRow(evidence, id, data);
      assert items[evidence] == item + AttachedRows(item, old(next), id, sha(data));
      return Done;
    }

    /** What other transactions commit to the item while the file is being stored. */
    method Overtake(evidence: nat, raced: seq<Entry>, ghost id: ObjectId)
      requires Valid() && evidence in items && !Named(items, id) && Good(items[evidence] + raced, next)
      requires forall i | 0 <= i < |raced| && raced[i].File? ::
        raced[i].objectId != id && raced[i].objectId in objects && sha(objects[raced[i].objectId]) == raced[i].sha
      modifies this`items
      ensures Valid() && !Named(items, id)
      ensures items == old(items)[evidence := old(items)[evidence] + raced]
    {
      Integrity.ReplaceKeepsAllGood(items, next, evidence, items[evidence] + raced);
      RaceNamesOthers(items, evidence, raced, id);
      items := items[evidence := items[evidence] + raced];
    }

    /**
     `raced`: what other transactions committed to the item between the first check and the lock. The
     item is read again under the lock, so a file stored meanwhile is found; the new one is removed.
     An object is left without a row exactly when its own removal failed, or it could not be made
     read-only after it was written.
     */
    method Attach(evidence: nat, id: ObjectId, data: Bytes, raced: seq<Entry>, x: AttachFaults) returns (r: Outcome)
      requires Valid() && evidence in items && id !in objects && !Named(items, id)
      requires RaceIsGood(evidence, raced)
      modifies this
      ensures Valid()
      ensures Named(items, id) <==> r == Done
      ensures Orphan(objects, items, id) <==> r != Done && !HasFile(old(items)[evidence]) && LeavesObject(x)
      ensures objects == if r == Done || Orphan(objects, items, id) then old(objects)[id := data] else old(objects)
      ensures var now := old(items)[evidence] + raced;
        && r == (if HasFile(old(items)[evidence]) then Refused else StoredOutcome(x, MayAttach(now, sha(data))))
        && (r == Done ==> items == old(items)[evidence := now + AttachedRows(now, old(next), id, sha(data))])
        && (r != Done ==> items == old(items) || items == old(items)[evidence := now])
    {
      if HasFile(items[evidence]) {
        return Refused;
      }
      r := StoreAndAttach(evidence, id, data, raced, x);
    }

    ghost predicate RaceIsGood(evidence: nat, raced: seq<Entry>)
      reads this
      requires evidence in items
    {
      Good(items[evidence] + raced, next) && RaceIsStored(raced)
    }

    /** The files others recorded meanwhile are stored. */
    ghost predicate RaceIsStored(raced: seq<Entry>)
      reads this
    {
      forall i | 0 <= i < |raced| && raced[i].File? ::
        raced[i].objectId in objects && sha(objects[raced[i].objectId]) == raced[i].sha
    }

    method StoreAndAttach(evidence: nat, id: ObjectId, data: Bytes, raced: seq<Entry>, x: AttachFaults)
      returns (r: Outcome)
      requires Valid() && evidence in items && id !in objects && !Named(items, id)
      requires RaceIsGood(evidence, raced)
      modifies this
      ensures Valid()
      ensures Named(items, id) <==> r == Done
      ensures objects == if r == Done || LeavesObject(x) then old(objects)[id := data] else old(objects)
      ensures var now := old(items)[evidence] + raced;
        && r == StoredOutcome(x, MayAttach(now, sha(data)))
        && (r == Done ==> items == old(items)[evidence := now + AttachedRows(now, old(next), id, sha(data))])
        && (r != Done ==> items == old(items) || items == old(items)[evidence := now])
    {
      assert objects[id := data] - {id} == objects;
      var stored := Store(id, data, x.store);
      if !stored {
        return if x.store.StoreRefuses? then Refused else Raised;
      }
      r := AttachAfterRace(evidence, id, data, raced, x);
    }

    method AttachAfterRace(evidence: nat, id: ObjectId, data: Bytes, raced: seq<Entry>, x: AttachFaults)
      returns (r: Outcome)
      requires Valid() && evidence in items && id in objects && objects[id] == data && !Named(items, id)
      requires RaceIsGood(evidence, raced) && forall i | 0 <= i < |raced| && raced[i].File? :: raced[i].objectId != id
      modifies this
      ensures Valid()
      ensures Named(items, id) <==> r == Done
      ensures objects == if r == Done || x.discard then old(objects) else old(objects) - {id}
      ensures var now := old(items)[evidence] + raced;
        && r == (if x.transaction then Raised else if MayAttach(now, sha(data)) then Done else Refused)
        && items == old(items)[evidence :=
             if r == Done then now + AttachedRows(now, old(next), id, sha(data)) else now]
    {
      Overtake(evidence, raced, id);
      r := AttachLocked(evidence, id, data, x);
    }

    /** The item's file is there and can be read. */
    predicate CanRead(evidence: nat, readable: bool)
      reads this
    {
      evidence in items && HasFile(items[evidence]) && readable && StoredAs(items[evidence]) in objects
    }

    /**
     verify_stored, whatever the object's bytes are by now: they are hashed, and the check that is
     recorded compares that hash with the reference under the lock. While files hold the bytes they were
     recorded with, it is Verified exactly when the reference is still the file's own hash. `raced`: what
     others commit to the item in between. `readable`: the object can be read. `fails`: the transaction
     of the check raises; then nothing is recorded.
     */
    method VerifyStored(evidence: nat, readable: bool, raced: seq<Entry>, fails: bool) returns (r: Option<bool>)
      requires Integrity.AllGood(items, next)
      requires evidence in items ==> Good(items[evidence] + raced, next)
      modifies this`items, this`next
      ensures Integrity.AllGood(items, next)
      ensures r.Some? <==> old(CanRead(evidence, readable)) && !fails
      ensures r.None? ==> next == old(next)
      ensures r.None? ==>
        items == if old(CanRead(evidence, readable)) then old(items)[evidence := old(items)[evidence] + raced] else old(items)
      ensures r.Some? ==>
        var now, computed := old(items)[evidence] + raced, sha(objects[StoredAs(old(items)[evidence])]);
        && Hashes(now) != []
        && var reference := Last(Hashes(now));
        && r.value == (computed == reference.value)
        && items == old(items)[evidence := now + [Check(old(next), reference.id, computed, r.value)]]
        && StatusOf(items[evidence]) == if r.value then Verified else Failed
      ensures r.Some? && old(FilesStored()) ==>
        var item := old(items)[evidence];
        Hashes(item + raced) != [] && r.value == (item[FileOf(item).value].sha == Last(Hashes(item + raced)).value)
      ensures old(FilesStored() && RaceIsStored(raced)) ==> Valid()
    {
      if evidence !in items {
        return None;
      }
      var item := items[evidence];
      var file := FileOf(item);
      if file.None? || !readable || item[file.value].objectId !in objects {
        return None;
      }
      var computed := sha(objects[item[file.value].objectId]);
      if fails {
        Integrity.ReplaceKeepsAllGood(items, next, evidence, item + raced);
        items := items[evidence := item + raced];
        return None;
      }
      r := CheckAfterRace(evidence, computed, raced);
    }

    method CheckAfterRace(evidence: nat, computed: Digest, raced: seq<Entry>) returns (r: Option<bool>)
      requires Integrity.AllGood(items, next) && evidence in items && HasFile(items[evidence])
      requires Good(items[evidence] + raced, next)
      modifies this`items, this`next
      ensures Integrity.AllGood(items, next)
      ensures r.Some? && Hashes(old(items)[evidence] + raced) != []
      ensures var now := old(items)[evidence] + raced;
              var reference := Last(Hashes(now));
              && r.value == (computed == reference.value)
              && items == old(items)[evidence := now + [Check(old(next), reference.id, computed, r.value)]]
              && StatusOf(items[evidence]) == if r.value then Verified else Failed
    {
      var item := items[evidence];
      Integrity.ReplaceKeepsAllGood(items, next, evidence, item + raced);
      assert HasFile(item + raced) by {
        var j :| 0 <= j < |item| && item[j].File?;
        assert (item + raced)[j].File?;
      }
      items := items[evidence := item + raced];
      r := RecordCheck(evidence, computed);
    }

    /** integrity.verify, on an item with a file: it has a reference hash to compare with. */
    method RecordCheck(evidence: nat, computed: Digest) returns (r: Option<bool>)
      requires Integrity.AllGood(items, next) && evidence in items && HasFile(items[evidence])
      modifies this`items, this`next
      ensures Integrity.AllGood(items, next)
      ensures r.Some? && Hashes(old(items)[evidence]) != []
      ensures var item := old(items)[evidence];
              var reference := Last(Hashes(item));
              && r.value == (computed == reference.value)
              && items == old(items)[evidence := item + [Check(old(next), reference.id, computed, r.value)]]
              && StatusOf(items[evidence]) == if r.value then Verified else Failed
    {
      var item := items[evidence];
      FileHasReference(items, next, evidence);
      var reference := CurrentHash(item).value;
      Integrity.VerifyStep(items, next, evidence, computed);
      items := items[evidence := item + [Check(next, reference.id, computed, computed == reference.value)]];
      next := next + 1;
      return Some(computed == reference.value);
    }
  }

  /** The one failed query that is enough: object 7 is stored and no row names it, though removals would work. */
  method FailedLookupLeavesTheObject(sha: Sha) returns (store: EvidenceStore, r: Outcome)
    ensures store.Valid() && r == Raised
    ensures store.objects == map[7 := [0]] && Orphan(store.objects, store.items, 7)
    ensures 1 in store.items && store.items[1] == [Hash(HashRow(0, sha([0]), None))]
  {
    store := new EvidenceStore(sha);
    Integrity.RegisterStep(map[], 0, 1, Some(sha([0])));
    assert Integrity.GoodAt(map[1 := [Hash(HashRow(0, sha([0]), None))]], 1, 1);
    assert [Hash(HashRow(0, sha([0]), None))] + [] == [Hash(HashRow(0, sha([0]), None))];
    r := store.RegisterWithFile(1, 7, [0], None, [], 1, RegisterFaults(StoreFine, false, true, false, false, false));
  }

  /** No file yet, and the content is the reference content if there is a reference. */
  ghost predicate MayAttach(v: Item, digest: Digest) {
    !HasFile(v) && (Hashes(v) == [] || Last(Hashes(v)).value == digest)
  }

  ghost function AttachedRows(v: Item, ticket: nat, id: ObjectId, digest: Digest): seq<Entry> {
    (if Hashes(v) == [] then [Hash(HashRow(ticket, digest, None))] else []) + [File(id, digest)]
  }

  /** The transactions of attach and of register_with_file, as the interleavings of `HashChain` take them, are these. */
  lemma PlannedAttach(v: Item, n: nat, id: ObjectId, digest: Digest)
    requires Good(v, n)
    ensures Plan(v, Attach(id, digest), n).Some? <==> MayAttach(v, digest)
    ensures MayAttach(v, digest) ==> Plan(v, Attach(id, digest), n) == Some(AttachedRows(v, n, id, digest))
    ensures Plan(v, Op.RecordFile(id, digest), n) == if HasFile(v) then None else Some([File(id, digest)])
  {
    CurrentIsLast(v);
    assert [] + [File(id, digest)] == [File(id, digest)];
    assert [Hash(HashRow(n, digest, None))] + [File(id, digest)] == [Hash(HashRow(n, digest, None)), File(id, digest)];
  }

  lemma OnlyRacedFiles(first: Entry, raced: seq<Entry>)
    requires !first.File?
    ensures HasFile([first] + raced) <==> HasFile(raced)
  {
    if HasFile(raced) {
      var j :| 0 <= j < |raced| && raced[j].File?;
      assert ([first] + raced)[j + 1].File?;
    }
  }

  lemma RaceNamesOthers(items: map<nat, Item>, evidence: nat, raced: seq<Entry>, id: ObjectId)
    requires evidence in items && !Named(items, id)
    requires forall i | 0 <= i < |raced| && raced[i].File? :: raced[i].objectId != id
    ensures !Named(items[evidence := items[evidence] + raced], id)
  {
  }

  lemma CurrentIsRecorded(v: Item)
    requires CurrentHash(v).Some?
    ensures Recorded(v, CurrentHash(v).value.value)
  {
    var i := FirstTipIsTip(v, 0);
  }

  lemma InsertKeepsGood(items: map<nat, Item>, n: nat, evidence: nat, id: ObjectId, sha: Digest)
    requires Integrity.AllGood(items, n) && evidence in items
    requires !HasFile(items[evidence]) && Recorded(items[evidence], sha)
    ensures Integrity.AllGood(items[evidence := items[evidence] + [File(id, sha)]], n)
  {
    assert Integrity.GoodAt(items, evidence, n);
    AddFile(items[evidence], n, id, sha);
    Integrity.ReplaceKeepsAllGood(items, n, evidence, items[evidence] + [File(id, sha)]);
  }

  lemma NewItemNamesNothing(items: map<nat, Item>, evidence: nat, v: Item, id: ObjectId)
    requires evidence !in items && !Named(items, id) && forall i | 0 <= i < |v| :: !v[i].File?
    ensures !Named(items[evidence := v], id)
  {
  }
}
