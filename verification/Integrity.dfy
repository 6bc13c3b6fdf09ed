/**
 app/integrity/services.py: recording, verifying and correcting reference hashes, one call at a time.
 `RowLock.Serializable` and `HashChain.ChainInEveryRun` say why one call at a time is enough.
 */
module Integrity {
  import opened Wrappers
  import opened Content
  import opened HashChain
  import RowLock

  datatype IntegrityError = ItemNotFound | AlreadyRecorded | NothingToVerify | NothingToCorrect | SameHash | Refused

  ghost predicate GoodAt(items: map<nat, Item>, e: nat, n: nat) {
    e in items ==> Good(items[e], n)
  }

  ghost predicate AllGood(items: map<nat, Item>, n: nat) {
    forall e: nat :: GoodAt(items, e, n)
  }

  lemma UpdateKeepsAllGood(items: map<nat, Item>, n: nat, evidence: nat, v: Item)
    requires AllGood(items, n) && Good(v, n + 1)
    ensures AllGood(items[evidence := v], n + 1)
  {
    var updated, m := items[evidence := v], n + 1;
    forall e: nat ensures GoodAt(updated, e, m) {
      assert GoodAt(items, e, n);
    }
  }

  lemma ReplaceKeepsAllGood(items: map<nat, Item>, n: nat, evidence: nat, v: Item)
    requires AllGood(items, n) && Good(v, n)
    ensures AllGood(items[evidence := v], n)
  {
    var updated := items[evidence := v];
    forall e: nat ensures GoodAt(updated, e, n) {
      assert GoodAt(items, e, n);
    }
  }

  lemma AllGoodLater(items: map<nat, Item>, n: nat, m: nat)
    requires AllGood(items, n) && n <= m
    ensures AllGood(items, m)
  {
    forall e: nat ensures GoodAt(items, e, m) {
      assert GoodAt(items, e, n);
    }
  }

  /** What one operation leaves behind when it is not refused: one row more, and the status that goes with it. */
  ghost predicate Stepped(items: map<nat, Item>, n: nat, evidence: nat, op: Op, e: Entry)
    requires evidence in items
  {
    var v := items[evidence];
    && AllGood(items[evidence := v + [e]], n + 1)
    && RowLock.Serial(HashRules(), v, op, n) == v + [e]
    && Hashes(v + [e]) == Hashes(v) + RowOf(e)
    && StatusOf(v + [e]) == if e.Check? then (if e.verified then Verified else Failed) else Pending
  }

  lemma SerialStep(items: map<nat, Item>, n: nat, evidence: nat, op: Op, e: Entry)
    requires AllGood(items, n) && evidence in items && !e.File? && Plan(items[evidence], op, n) == Some([e])
    ensures Stepped(items, n, evidence, op, e)
  {
    assert GoodAt(items, evidence, n);
    PlanKeepsGood(items[evidence], op, n);
    UpdateKeepsAllGood(items, n, evidence, items[evidence] + [e]);
    HashesSnoc(items[evidence], e);
  }

  lemma CurrentOf(items: map<nat, Item>, n: nat, evidence: nat)
    requires AllGood(items, n) && evidence in items
    ensures var h := Hashes(items[evidence]);
            CurrentHash(items[evidence]) == if h == [] then None else Some(Last(h))
  {
    assert GoodAt(items, evidence, n);
    CurrentIsLast(items[evidence]);
  }

  lemma RecordStep(items: map<nat, Item>, n: nat, evidence: nat, value: Digest)
    requires AllGood(items, n) && evidence in items && CurrentHash(items[evidence]) == None
    ensures Stepped(items, n, evidence, Record(value), Hash(HashRow(n, value, None)))
  {
    SerialStep(items, n, evidence, Record(value), Hash(HashRow(n, value, None)));
  }

  lemma CorrectStep(items: map<nat, Item>, n: nat, evidence: nat, value: Digest)
    requires AllGood(items, n) && evidence in items
    requires CurrentHash(items[evidence]).Some? && CurrentHash(items[evidence]).value.value != value
    ensures Stepped(items, n, evidence, Correct(value),
                    Hash(HashRow(n, value, Some(CurrentHash(items[evidence]).value.id))))
  {
    SerialStep(items, n, evidence, Correct(value), Hash(HashRow(n, value, Some(CurrentHash(items[evidence]).value.id))));
  }

  lemma VerifyStep(items: map<nat, Item>, n: nat, evidence: nat, computed: Digest)
    requires AllGood(items, n) && evidence in items && CurrentHash(items[evidence]).Some?
    ensures var tip := CurrentHash(items[evidence]).value;
            && TriggerResult(items[evidence], tip.id, computed) == Some(computed == tip.value)
            && Stepped(items, n, evidence, HashChain.Verify(computed), Check(n, tip.id, computed, computed == tip.value))
  {
    assert GoodAt(items, evidence, n);
    TriggerAgrees(items[evidence], n, computed);
    var tip := CurrentHash(items[evidence]).value;
    SerialStep(items, n, evidence, HashChain.Verify(computed), Check(n, tip.id, computed, computed == tip.value));
  }

  /** A refused operation leaves the item as it was, in the serial reading too. */
  lemma RefusedStep(v: Item, op: Op, n: nat)
    requires Plan(v, op, n).None?
    ensures RowLock.Serial(HashRules(), v, op, n) == v
  {
  }

  lemma RegisterStep(items: map<nat, Item>, n: nat, evidence: nat, original: Option<Digest>)
    requires AllGood(items, n)
    ensures var v := Registered(original, n);
            && AllGood(items[evidence := v], n + 1)
            && StatusOf(v) == (if original.None? then NotVerified else Pending)
            && (original.Some? ==> CurrentHash(v) == Some(HashRow(n, original.value, None)))
  {
    var v := Registered(original, n);
    if original.Some? {
      RegisteredItemIsGood(n, original.value);
    } else {
      BareItemIsGood(n + 1);
    }
    UpdateKeepsAllGood(items, n, evidence, v);
  }

  function WhyNoRecord(items: map<nat, Item>, evidence: nat): Option<IntegrityError> {
    if evidence !in items then Some(ItemNotFound)
    else if Hashes(items[evidence]) != [] then Some(AlreadyRecorded)
    else None
  }

  function WhyNoCorrection(items: map<nat, Item>, evidence: nat, newHash: Digest): Option<IntegrityError> {
    if evidence !in items then Some(ItemNotFound)
    else if Hashes(items[evidence]) == [] then Some(NothingToCorrect)
    else if Last(Hashes(items[evidence])).value == newHash then Some(SameHash)
    else None
  }

  function Registered(original: Option<Digest>, id: nat): Item {
    if original.None? then [] else [Hash(HashRow(id, original.value, None))]
  }

  /** The tables evidence_hashes, hash_verifications and evidence_files, by evidence item. */
  class IntegrityService {
    var items: map<nat, Item>
    var next: nat

    ghost predicate Valid()
      reads this
    {
      AllGood(items, next)
    }

    constructor ()
      ensures Valid() && items == map[] && next == 0
    {
      items := map[];
      next := 0;
    }

    /** Every change of a call is one item's row list, made longer by what the transaction inserts. */
    twostate predicate Appends(evidence: nat, rows: seq<Entry>)
      reads this
    {
      && evidence in old(items)
      && items == old(items)[evidence := old(items)[evidence] + rows]
      && next == old(next) + 1
    }

    twostate predicate Untouched()
      reads this
    {
      items == old(items) && next == old(next)
    }

    /** sp_register_evidence, as far as hashes go: a new item, with its original hash if one is given. */
    method Register(evidence: nat, original: Option<Digest>)
      requires Valid() && evidence !in items
      modifies this
      ensures Valid() && items.Keys == old(items).Keys + {evidence}
      ensures forall e | e in old(items) :: items[e] == old(items)[e]
      ensures StatusOf(items[evidence]) == if original.None? then NotVerified else Pending
      ensures original.Some? ==> CurrentHash(items[evidence]) == Some(HashRow(old(next), original.value, None))
    {
      RegisterStep(items, next, evidence, original);
      items := items[evidence := Registered(original, next)];
      next := next + 1;
    }

    method RecordOriginalHash(evidence: nat, value: Digest) returns (r: Result<nat, IntegrityError>)
      requires Valid()
      modifies this
      ensures Valid()
      ensures r.Err? ==> Untouched() && WhyNoRecord(old(items), evidence) == Some(r.error)
      ensures r.Ok? ==>
        && WhyNoRecord(old(items), evidence) == None
        && Appends(evidence, [Hash(HashRow(r.value, value, None))])
        && Hashes(items[evidence]) == [HashRow(r.value, value, None)]
        && StatusOf(items[evidence]) == Pending
      ensures evidence in items ==>
        items[evidence] == RowLock.Serial(HashRules(), old(items)[evidence], Record(value), old(next))
    {
      if evidence !in items {
        return Err(ItemNotFound);
      }
      var item := items[evidence];
      CurrentOf(items, next, evidence);
      var current := CurrentHash(item);
      if current.Some? {
        RefusedStep(item, Record(value), next);
        return Err(AlreadyRecorded);
      }
      RecordStep(items, next, evidence, value);
      items := items[evidence := item + [Hash(HashRow(next, value, None))]];
      next := next + 1;
      return Ok(next - 1);
    }

    /** Returns the outcome the database decided and the reference hash it was decided against. */
    method Verify(evidence: nat, computed: Digest) returns (r: Result<(bool, Digest), IntegrityError>)
      requires Valid()
      modifies this
      ensures Valid()
      ensures r.Ok? <==> evidence in old(items) && Hashes(old(items)[evidence]) != []
      ensures r.Ok? ==>
        var reference := Last(Hashes(old(items)[evidence]));
        && r.value == (computed == reference.value, reference.value)
        && Appends(evidence, [Check(old(next), reference.id, computed, computed == reference.value)])
        && Hashes(items[evidence]) == Hashes(old(items)[evidence])
        && StatusOf(items[evidence]) == if computed == reference.value then Verified else Failed
      ensures r.Err? ==> Untouched() && r.error == if evidence !in old(items) then ItemNotFound else NothingToVerify
      ensures evidence in items ==>
        items[evidence] == RowLock.Serial(HashRules(), old(items)[evidence], HashChain.Verify(computed), old(next))
    {
      if evidence !in items {
        return Err(ItemNotFound);
      }
      var item := items[evidence];
      CurrentOf(items, next, evidence);
      var current := CurrentHash(item);
      if current.None? {
        RefusedStep(item, HashChain.Verify(computed), next);
        return Err(NothingToVerify);
      }
      VerifyStep(items, next, evidence, computed);
      var result := TriggerResult(item, current.value.id, computed);
      if result.None? {
        return Err(Refused);
      }
      items := items[evidence := item + [Check(next, current.value.id, computed, result.value)]];
      next := next + 1;
      return Ok((result.value, current.value.value));
    }

    method CorrectHash(evidence: nat, newHash: Digest) returns (r: Result<nat, IntegrityError>)
      requires Valid()
      modifies this
      ensures Valid()
      ensures r.Err? ==> Untouched() && WhyNoCorrection(old(items), evidence, newHash) == Some(r.error)
      ensures r.Ok? ==>
        && WhyNoCorrection(old(items), evidence, newHash) == None
        && var row := HashRow(r.value, newHash, Some(Last(Hashes(old(items)[evidence])).id));
        && Appends(evidence, [Hash(row)])
        && Hashes(items[evidence]) == Hashes(old(items)[evidence]) + [row]
        && StatusOf(items[evidence]) == Pending
      ensures evidence in items ==>
        items[evidence] == RowLock.Serial(HashRules(), old(items)[evidence], Correct(newHash), old(next))
    {
      if evidence !in items {
        return Err(ItemNotFound);
      }
      var item := items[evidence];
      CurrentOf(items, next, evidence);
      var current := CurrentHash(item);
      if current.None? {
        RefusedStep(item, Correct(newHash), next);
        return Err(NothingToCorrect);
      }
      if current.value.value == newHash {
        RefusedStep(item, Correct(newHash), next);
        return Err(SameHash);
      }
      CorrectStep(items, next, evidence, newHash);
      var row := HashRow(next, newHash, Some(current.value.id));
      items := items[evidence := item + [Hash(row)]];
      next := next + 1;
      return Ok(next - 1);
    }
  }
}
