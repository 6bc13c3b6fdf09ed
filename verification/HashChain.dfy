/**
 The reference hashes of one evidence item, their checks and its stored file
 (app/integrity/services.py; app/evidence/files.py), as the append-only rows the transactions leave.
 */
module HashChain {
  import opened Wrappers
  import opened Content
  import RowLock

  /** A row of evidence_hashes. */
  datatype HashRow = HashRow(id: nat, value: Digest, supersedes: Option<nat>)

  /** Rows of evidence_hashes, hash_verifications and evidence_files of one item, in commit order. */
  datatype Entry =
    | Hash(row: HashRow)
    | Check(id: nat, hashId: nat, computed: Digest, verified: bool)
    | File(objectId: ObjectId, sha: Digest)

  type Item = seq<Entry>

  datatype Op =
    | Record(value: Digest)
    | Correct(newValue: Digest)
    | Verify(computed: Digest)
    | Attach(objectId: ObjectId, sha: Digest)
    | RecordFile(objectId: ObjectId, sha: Digest)

  // ---------------------------------------------------------------------------
  // The queries
  // ---------------------------------------------------------------------------

  predicate IsSuperseded(v: Item, id: nat) {
    exists j | 0 <= j < |v| :: v[j].Hash? && v[j].row.supersedes == Some(id)
  }

  /** The WHERE clause of _current_hash. */
  predicate Unsuperseded(v: Item, i: nat)
    requires i < |v|
  {
    v[i].Hash? && !IsSuperseded(v, v[i].row.id)
  }

  function FirstTip(v: Item, from: nat): Option<HashRow>
    requires from <= |v|
    decreases |v| - from
  {
    if from == |v| then None
    else if Unsuperseded(v, from) then Some(v[from].row)
    else FirstTip(v, from + 1)
  }

  /** _current_hash: the first row its query returns, if any. */
  function CurrentHash(v: Item): Option<HashRow> {
    FirstTip(v, 0)
  }

  predicate HasFile(v: Item) {
    exists j | 0 <= j < |v| :: v[j].File?
  }

  function HashById(v: Item, id: nat): Option<HashRow> {
    if v == [] then None
    else if v[0].Hash? && v[0].row.id == id then Some(v[0].row)
    else HashById(v[1..], id)
  }

  /** trg_hv_set_result: the database decides the outcome of a check, or refuses it. */
  function TriggerResult(v: Item, hashId: nat, computed: Digest): Option<bool> {
    match HashById(v, hashId)
    case None => None
    case Some(h) => if IsSuperseded(v, hashId) then None else Some(computed == h.value)
  }

  function RowOf(e: Entry): seq<HashRow> {
    if e.Hash? then [e.row] else []
  }

  /** The hash rows of an item, oldest first. */
  function Hashes(v: Item): seq<HashRow> {
    if v == [] then [] else Hashes(v[..|v| - 1]) + RowOf(v[|v| - 1])
  }

  function Last<T>(s: seq<T>): T
    requires s != []
  {
    s[|s| - 1]
  }

  // ---------------------------------------------------------------------------
  // The transactions, each from the state it reads to the rows it inserts
  // ---------------------------------------------------------------------------

  /**
   record_original_hash, correct_hash, verify, attach, and the second transaction of
   register_with_file. The last one looks at nothing: the unique key on evidence_id refuses a second
   file, and that its hash is a recorded one has to follow from the registration before it.
   */
  function Plan(v: Item, op: Op, id: nat): Option<seq<Entry>> {
    var current := CurrentHash(v);
    match op
    case Record(value) =>
      if current.Some? then None else Some([Hash(HashRow(id, value, None))])
    case Correct(newValue) =>
      if current.None? || current.value.value == newValue then None
      else Some([Hash(HashRow(id, newValue, Some(current.value.id)))])
    case Verify(computed) =>
      if current.None? then None
      else
        (match TriggerResult(v, current.value.id, computed)
         case None => None
         case Some(ok) => Some([Check(id, current.value.id, computed, ok)]))
    case Attach(objectId, sha) =>
      if HasFile(v) || (current.Some? && current.value.value != sha) then None
      else if current.Some? then Some([File(objectId, sha)])
      else Some([Hash(HashRow(id, sha, None)), File(objectId, sha)])
    case RecordFile(objectId, sha) =>
      if HasFile(v) then None else Some([File(objectId, sha)])
  }

  function Append(v: Item, rows: seq<Entry>): Item {
    v + rows
  }

  function HashRules(): RowLock.Rules<Item, Op, seq<Entry>> {
    RowLock.Rules(Plan, Append)
  }

  // ---------------------------------------------------------------------------
  // What is true of every item
  // ---------------------------------------------------------------------------

  /** Row i supersedes the row before it, with a different value; the first row supersedes nothing. */
  ghost predicate Linked(h: seq<HashRow>, i: nat)
    requires i < |h|
  {
    if i == 0 then h[0].supersedes == None
    else h[i].supersedes == Some(h[i - 1].id) && h[i].value != h[i - 1].value
  }

  /** One line of corrections. */
  ghost predicate Chain(h: seq<HashRow>) {
    && (forall i | 0 <= i < |h| :: Linked(h, i))
    && (forall i, j | 0 <= i < j < |h| :: h[i].id < h[j].id)
  }

  lemma ChainSnoc(h: seq<HashRow>, r: HashRow)
    requires Chain(h) && forall k | 0 <= k < |h| :: h[k].id < r.id
    requires if h == [] then r.supersedes == None else r.supersedes == Some(Last(h).id) && r.value != Last(h).value
    ensures Chain(h + [r])
  {
    var g := h + [r];
    forall i | 0 <= i < |g| ensures Linked(g, i) {
      assert i < |h| ==> Linked(h, i);
    }
  }

  predicate HasId(e: Entry) {
    e.Hash? || e.Check?
  }

  function IdOf(e: Entry): nat
    requires HasId(e)
  {
    if e.Hash? then e.row.id else e.id
  }

  ghost predicate IdsInOrder(v: Item, n: nat) {
    && (forall i | 0 <= i < |v| && HasId(v[i]) :: IdOf(v[i]) < n)
    && (forall i, j | 0 <= i < j < |v| && HasId(v[i]) && HasId(v[j]) :: IdOf(v[i]) < IdOf(v[j]))
  }

  /** The check e, made when the item was v, was made against the reference hash of that moment. */
  ghost predicate ChecksTip(v: Item, e: Entry)
    requires e.Check?
  {
    var h := Hashes(v);
    && h != []
    && e.hashId == Last(h).id
    && e.verified == (e.computed == Last(h).value)
  }

  ghost predicate ChecksAgree(v: Item) {
    forall i | 0 <= i < |v| && v[i].Check? :: ChecksTip(v[..i], v[i])
  }

  ghost predicate Recorded(v: Item, value: Digest) {
    exists k | 0 <= k < |v| :: v[k].Hash? && v[k].row.value == value
  }

  ghost predicate FilesAgree(v: Item) {
    && (forall i, j | 0 <= i < |v| && 0 <= j < |v| && v[i].File? && v[j].File? :: i == j)
    && (forall i | 0 <= i < |v| && v[i].File? :: Recorded(v, v[i].sha))
  }

  ghost predicate Good(v: Item, n: nat) {
    && Chain(Hashes(v))
    && IdsInOrder(v, n)
    && ChecksAgree(v)
    && FilesAgree(v)
  }

  // ---------------------------------------------------------------------------
  // The chain has one tip, and the query finds it
  // ---------------------------------------------------------------------------

  lemma HashesSnoc(v: Item, e: Entry)
    ensures Hashes(v + [e]) == Hashes(v) + RowOf(e)
  {
    assert (v + [e])[..|v + [e]| - 1] == v;
  }

  lemma {:induction false} HashesAreRows(v: Item, r: HashRow)
    ensures r in Hashes(v) <==> Hash(r) in v
  {
    if v != [] {
      HashesAreRows(v[..|v| - 1], r);
      assert v == v[..|v| - 1] + [v[|v| - 1]];
    }
  }

  lemma SupersededIff(v: Item, k: nat)
    requires Chain(Hashes(v)) && k < |Hashes(v)|
    ensures IsSuperseded(v, Hashes(v)[k].id) <==> k + 1 < |Hashes(v)|
  {
    var h := Hashes(v);
    if k + 1 < |h| {
      assert Linked(h, k + 1);
      HashesAreRows(v, h[k + 1]);
      var j :| 0 <= j < |v| && v[j] == Hash(h[k + 1]);
    }
    if IsSuperseded(v, h[k].id) {
      var j :| 0 <= j < |v| && v[j].Hash? && v[j].row.supersedes == Some(h[k].id);
      HashesAreRows(v, v[j].row);
      var m :| 0 <= m < |h| && h[m] == v[j].row;
      assert Linked(h, m);
      assert m > 0 && h[m - 1].id == h[k].id;
      assert m - 1 == k;
    }
  }

  lemma RowIndex(v: Item, i: nat) returns (k: nat)
    requires i < |v| && v[i].Hash?
    ensures k < |Hashes(v)| && Hashes(v)[k] == v[i].row
  {
    HashesAreRows(v, v[i].row);
    assert Hash(v[i].row) in v;
    k :| 0 <= k < |Hashes(v)| && Hashes(v)[k] == v[i].row;
  }

  /** The query of _current_hash has exactly one answer: the last hash row of the chain. */
  lemma OneTip(v: Item, i: nat)
    requires Chain(Hashes(v)) && i < |v| && Unsuperseded(v, i)
    ensures Hashes(v) != [] && v[i].row == Last(Hashes(v))
  {
    var k := RowIndex(v, i);
    assert k + 1 >= |Hashes(v)| by {
      SupersededIff(v, k);
    }
  }

  lemma {:induction false} FirstTipFound(v: Item, from: nat, i: nat)
    requires from <= i < |v| && Unsuperseded(v, i)
    ensures FirstTip(v, from).Some?
    decreases |v| - from
  {
    if from < i && !Unsuperseded(v, from) {
      FirstTipFound(v, from + 1, i);
    }
  }

  lemma {:induction false} FirstTipIsTip(v: Item, from: nat) returns (i: nat)
    requires from <= |v| && FirstTip(v, from).Some?
    ensures i < |v| && Unsuperseded(v, i) && v[i].row == FirstTip(v, from).value
    decreases |v| - from
  {
    if Unsuperseded(v, from) {
      i := from;
    } else {
      i := FirstTipIsTip(v, from + 1);
    }
  }

  lemma CurrentIsLast(v: Item)
    requires Chain(Hashes(v))
    ensures CurrentHash(v) == if Hashes(v) == [] then None else Some(Last(Hashes(v)))
  {
    var h := Hashes(v);
    if h != [] {
      HashesAreRows(v, Last(h));
      SupersededIff(v, |h| - 1);
      var i :| 0 <= i < |v| && v[i] == Hash(Last(h));
      FirstTipFound(v, 0, i);
    }
    if CurrentHash(v).Some? {
      var i := FirstTipIsTip(v, 0);
      OneTip(v, i);
    }
  }

  lemma {:induction false} HashByIdFinds(v: Item, i: nat)
    requires i < |v| && v[i].Hash?
    requires forall j | 0 <= j < |v| && v[j].Hash? && v[j].row.id == v[i].row.id :: v[j] == v[i]
    ensures HashById(v, v[i].row.id) == Some(v[i].row)
  {
    if i > 0 && !(v[0].Hash? && v[0].row.id == v[i].row.id) {
      HashByIdFinds(v[1..], i - 1);
    }
  }

  lemma SameIdSameRow(v: Item, n: nat, i: nat, j: nat)
    requires IdsInOrder(v, n) && i < |v| && j < |v| && v[i].Hash? && v[j].Hash? && v[i].row.id == v[j].row.id
    ensures i == j
  {
    assert IdOf(v[i]) == IdOf(v[j]);
  }

  /** The trigger never refuses the row the service names, and compares with the value it read. */
  lemma TriggerAgrees(v: Item, n: nat, computed: Digest)
    requires Good(v, n) && CurrentHash(v).Some?
    ensures TriggerResult(v, CurrentHash(v).value.id, computed) == Some(computed == CurrentHash(v).value.value)
  {
    var i := FirstTipIsTip(v, 0);
    forall j | 0 <= j < |v| && v[j].Hash? && v[j].row.id == v[i].row.id ensures v[j] == v[i] {
      SameIdSameRow(v, n, i, j);
    }
    HashByIdFinds(v, i);
  }

  // ---------------------------------------------------------------------------
  // Every transaction keeps it
  // ---------------------------------------------------------------------------

  lemma SnocKeepsChecks(v: Item, e: Entry)
    requires ChecksAgree(v) && (e.Check? ==> ChecksTip(v, e))
    ensures ChecksAgree(v + [e])
  {
    var w := v + [e];
    forall i | 0 <= i < |w| && w[i].Check? ensures ChecksTip(w[..i], w[i]) {
      if i < |v| {
        assert w[..i] == v[..i];
      } else {
        assert w[..i] == v;
      }
    }
  }

  lemma SnocKeepsIds(v: Item, n: nat, e: Entry)
    requires IdsInOrder(v, n) && (HasId(e) ==> IdOf(e) == n)
    ensures IdsInOrder(v + [e], n + 1)
  {
  }

  lemma SnocKeepsFiles(v: Item, e: Entry)
    requires FilesAgree(v) && (e.File? ==> !HasFile(v) && Recorded(v, e.sha))
    ensures FilesAgree(v + [e])
    ensures e.Hash? ==> Recorded(v + [e], e.row.value)
  {
    var w := v + [e];
    forall i | 0 <= i < |w| && w[i].File? ensures Recorded(w, w[i].sha) {
      var k :| 0 <= k < |v| && v[k].Hash? && v[k].row.value == w[i].sha;
      assert w[k] == v[k];
    }
    assert w[|v|] == e;
  }

  lemma AddHash(v: Item, n: nat, r: HashRow)
    requires Good(v, n) && r.id == n
    requires match CurrentHash(v)
             case None => r.supersedes == None
             case Some(c) => r.supersedes == Some(c.id) && c.value != r.value
    ensures Good(v + [Hash(r)], n + 1) && Recorded(v + [Hash(r)], r.value)
  {
    CurrentIsLast(v);
    HashesSnoc(v, Hash(r));
    var h := Hashes(v);
    forall k | 0 <= k < |h| ensures h[k].id < n {
      HashesAreRows(v, h[k]);
      var i :| 0 <= i < |v| && v[i] == Hash(h[k]);
      assert IdOf(v[i]) < n;
    }
    ChainSnoc(h, r);
    SnocKeepsIds(v, n, Hash(r));
    SnocKeepsChecks(v, Hash(r));
    SnocKeepsFiles(v, Hash(r));
  }

  lemma AddCheck(v: Item, n: nat, e: Entry)
    requires Good(v, n) && e.Check? && e.id == n && ChecksTip(v, e)
    ensures Good(v + [e], n + 1)
  {
    HashesSnoc(v, e);
    assert Hashes(v + [e]) == Hashes(v);
    SnocKeepsIds(v, n, e);
    SnocKeepsChecks(v, e);
    SnocKeepsFiles(v, e);
  }

  /** A file row draws no id of the item's. */
  lemma AddFile(v: Item, n: nat, objectId: ObjectId, sha: Digest)
    requires Good(v, n) && !HasFile(v) && Recorded(v, sha)
    ensures Good(v + [File(objectId, sha)], n)
  {
    var e := File(objectId, sha);
    HashesSnoc(v, e);
    assert Hashes(v + [e]) == Hashes(v);
    SnocKeepsChecks(v, e);
    SnocKeepsFiles(v, e);
    assert IdsInOrder(v + [e], n);
  }

  lemma NoFileSnoc(v: Item, e: Entry)
    requires !HasFile(v) && !e.File?
    ensures !HasFile(v + [e])
  {
  }

  lemma AddHashThenFile(v: Item, n: nat, objectId: ObjectId, sha: Digest)
    requires Good(v, n) && CurrentHash(v) == None && !HasFile(v)
    ensures Good(v + [Hash(HashRow(n, sha, None))] + [File(objectId, sha)], n + 1)
  {
    var a := Hash(HashRow(n, sha, None));
    AddHash(v, n, a.row);
    NoFileSnoc(v, a);
    AddFile(v + [a], n + 1, objectId, sha);
  }

  lemma SameItem(v: Item, w: Item, n: nat)
    requires v == w && Good(w, n)
    ensures Good(v, n)
  {
  }

  lemma AddHashAndFile(v: Item, n: nat, objectId: ObjectId, sha: Digest)
    requires Good(v, n) && CurrentHash(v) == None && !HasFile(v)
    ensures Good(v + [Hash(HashRow(n, sha, None)), File(objectId, sha)], n + 1)
  {
    var a, b := Hash(HashRow(n, sha, None)), File(objectId, sha);
    AddHashThenFile(v, n, objectId, sha);
    SameItem(v + [a, b], v + [a] + [b], n + 1);
  }

  /** What the second transaction of register_with_file takes for granted. */
  ghost predicate FileIsRecorded(v: Item, op: Op) {
    op.RecordFile? ==> Recorded(v, op.sha)
  }

  lemma PlanKeepsGood(v: Item, op: Op, n: nat)
    requires Good(v, n) && Plan(v, op, n).Some? && FileIsRecorded(v, op)
    ensures Good(v + Plan(v, op, n).value, n + 1)
  {
    CurrentIsLast(v);
    match op
    case Record(value) => AddHash(v, n, HashRow(n, value, None));
    case Correct(newValue) => AddHash(v, n, HashRow(n, newValue, Some(CurrentHash(v).value.id)));
    case Verify(computed) =>
      TriggerAgrees(v, n, computed);
      var tip := CurrentHash(v).value;
      AddCheck(v, n, Check(n, tip.id, computed, computed == tip.value));
    case Attach(objectId, sha) =>
      if CurrentHash(v).Some? {
        var i := FirstTipIsTip(v, 0);
        AddFile(v, n, objectId, sha);
      } else {
        AddHashAndFile(v, n, objectId, sha);
      }
    case RecordFile(objectId, sha) => AddFile(v, n, objectId, sha);
  }

  /** An item is born with no hash, or (sp_register_evidence) with its original hash. */
  ghost predicate BornPlain(history: seq<RowLock.Event<Item, Op>>) {
    forall i | 0 <= i < |history| && history[i].Born? ::
      history[i].initial == [] || exists x :: history[i].initial == [Hash(HashRow(history[i].ticket, x, None))]
  }

  lemma RulesKeepGood()
    ensures RowLock.KeptWhen(HashRules(), Good, FileIsRecorded)
  {
    forall v: Item, op: Op, n: nat | Good(v, n) && FileIsRecorded(v, op)
      ensures var p := HashRules().plan(v, op, n); p.Some? ==> Good(HashRules().merge(v, p.value), n + 1)
    {
      if Plan(v, op, n).Some? {
        PlanKeepsGood(v, op, n);
      }
    }
  }

  /**
   register_with_file computes one SHA-256, registers the item with it, and records the file with it:
   when a RecordFile commits, its hash is the one the item was born with.
   */
  ghost predicate RecordsOwnFile(history: seq<RowLock.Event<Item, Op>>) {
    forall i, j | 0 <= i < j < |history| && FilesOne(history[i], history[j]) ::
      history[i].initial == [Hash(HashRow(history[i].ticket, history[j].op.sha, None))]
  }

  predicate FilesOne(born: RowLock.Event<Item, Op>, done: RowLock.Event<Item, Op>) {
    born.Born? && done.Done? && done.op.RecordFile? && born.key == done.key
  }

  /** An item still begins with what it was born with. */
  lemma {:induction false} BeginsAsBorn(history: seq<RowLock.Event<Item, Op>>, key: nat) returns (i: nat)
    requires key in RowLock.Replay(HashRules(), history)
    ensures i < |history| && history[i].Born? && history[i].key == key
    ensures history[i].initial <= RowLock.Replay(HashRules(), history)[key]
  {
    var n := |history| - 1;
    if history[n].Born? && history[n].key == key {
      i := n;
    } else {
      i := BeginsAsBorn(history[..n], key);
    }
  }

  /** Whatever commits between its two transactions, the hash of the file is still a recorded one. */
  lemma {:induction false} OwnFileIsRecorded(history: seq<RowLock.Event<Item, Op>>, key: nat)
    requires RecordsOwnFile(history)
    ensures RowLock.TurnsOk(HashRules(), history, key, FileIsRecorded)
  {
    if history != [] {
      var n := |history| - 1;
      var h, e := history[..n], history[n];
      assert RecordsOwnFile(h) by {
        forall i, j | 0 <= i < j < n && FilesOne(h[i], h[j])
          ensures h[i].initial == [Hash(HashRow(h[i].ticket, h[j].op.sha, None))]
        {
          assert FilesOne(history[i], history[j]);
        }
      }
      OwnFileIsRecorded(h, key);
      if e.Done? && e.key == key && key in RowLock.Replay(HashRules(), h) && e.op.RecordFile? {
        var i := BeginsAsBorn(h, key);
        assert FilesOne(history[i], history[n]);
        var v := RowLock.Replay(HashRules(), h)[key];
        assert v[0].Hash? && v[0].row.value == e.op.sha;
      }
    }
  }

  lemma BareItemIsGood(n: nat)
    ensures Good([], n)
  {
  }

  lemma RegisteredItemIsGood(ticket: nat, x: Digest)
    ensures Good([Hash(HashRow(ticket, x, None))], ticket + 1)
  {
    BareItemIsGood(ticket);
    assert CurrentHash([]) == None;
    AddHash([], ticket, HashRow(ticket, x, None));
    assert [] + [Hash(HashRow(ticket, x, None))] == [Hash(HashRow(ticket, x, None))];
  }

  lemma BornItemsAreGood(history: seq<RowLock.Event<Item, Op>>)
    requires BornPlain(history)
    ensures RowLock.BornGood(history, Good)
  {
    forall i | 0 <= i < |history| && history[i].Born?
      ensures Good(history[i].initial, history[i].ticket + 1)
    {
      if history[i].initial != [] {
        var x :| history[i].initial == [Hash(HashRow(history[i].ticket, x, None))];
        RegisteredItemIsGood(history[i].ticket, x);
      }
    }
  }

  // ---------------------------------------------------------------------------
  // Main results: every interleaving
  // ---------------------------------------------------------------------------

  /**
   In every interleaving of any number of record, correct, verify, attach and file transactions that
   lock only the evidence row and then read without a lock, each item's hash rows form one linear
   chain of corrections, its checks were each made against the reference hash of their moment, and
   its file, at most one, has one of its recorded hashes.
   */
  lemma ChainInEveryRun(run: seq<RowLock.Sys<Item, Op, seq<Entry>>>, i: nat, evidence: nat)
    requires RowLock.IsRun(HashRules(), run) && i < |run|
    requires BornPlain(run[i].history) && RecordsOwnFile(run[i].history) && evidence in run[i].rows
    ensures Good(run[i].rows[evidence], run[i].next)
  {
    RulesKeepGood();
    BornItemsAreGood(run[i].history);
    OwnFileIsRecorded(run[i].history, evidence);
    RowLock.GoodWhenTurnsOk(HashRules(), Good, FileIsRecorded, run, i, evidence);
  }

  /** uq_eh_supersedes and uq_eh_one_root: on these rows no insert can violate them. */
  lemma UniqueKeysNeverFire(v: Item, n: nat, i: nat, j: nat)
    requires Good(v, n) && i < |v| && j < |v| && v[i].Hash? && v[j].Hash?
    requires v[i].row.supersedes == v[j].row.supersedes
    ensures i == j
  {
    var h := Hashes(v);
    HashesAreRows(v, v[i].row);
    HashesAreRows(v, v[j].row);
    var a :| 0 <= a < |h| && h[a] == v[i].row;
    var b :| 0 <= b < |h| && h[b] == v[j].row;
    assert Linked(h, a) && Linked(h, b);
    if 0 < a && 0 < b {
      assert h[a - 1].id == h[b - 1].id;
      assert a - 1 == b - 1;
    }
    SameIdSameRow(v, n, i, j);
  }

  /** Nothing is ever edited or removed: between two moments of a run an item only gains rows. */
  lemma RowsOnlyAppended(run: seq<RowLock.Sys<Item, Op, seq<Entry>>>, i: nat, j: nat, evidence: nat)
    requires RowLock.IsRun(HashRules(), run) && i <= j < |run| && evidence in run[i].rows
    ensures evidence in run[j].rows && run[i].rows[evidence] <= run[j].rows[evidence]
  {
    var prefix := (u: Item, v: Item) => u <= v;
    RowLock.RelatedInEveryRun(HashRules(), prefix, run, i, j, evidence);
  }

  /** A file's SHA-256 stays one of the item's recorded hashes, whatever is corrected later. */
  lemma FileStaysRecorded(run: seq<RowLock.Sys<Item, Op, seq<Entry>>>, i: nat, j: nat, evidence: nat, k: nat)
    requires RowLock.IsRun(HashRules(), run) && i <= j < |run| && evidence in run[i].rows
    requires BornPlain(run[i].history) && RecordsOwnFile(run[i].history)
    requires k < |run[i].rows[evidence]| && run[i].rows[evidence][k].File?
    ensures evidence in run[j].rows && k < |run[j].rows[evidence]|
    ensures run[j].rows[evidence][k] == run[i].rows[evidence][k]
    ensures Recorded(run[j].rows[evidence], run[i].rows[evidence][k].sha)
  {
    ChainInEveryRun(run, i, evidence);
    RowsOnlyAppended(run, i, j, evidence);
    var u, v := run[i].rows[evidence], run[j].rows[evidence];
    var m :| 0 <= m < |u| && u[m].Hash? && u[m].row.value == u[k].sha;
    assert v[m] == u[m];
  }

  // ---------------------------------------------------------------------------
  // The integrity status
  // ---------------------------------------------------------------------------

  datatype Status = NotVerified | Pending | Verified | Failed

  /** The status kept up entry by entry. */
  function StatusOf(v: Item): Status {
    if v == [] then NotVerified
    else
      match v[|v| - 1]
      case Hash(_) => Pending
      case Check(_, _, _, ok) => if ok then Verified else Failed
      case File(_, _) => StatusOf(v[..|v| - 1])
  }

  /** ORDER BY verified_at DESC, verification_id DESC; verified_at is the clock when the id was drawn. */
  ghost predicate Later(clock: nat -> nat, a: nat, b: nat) {
    clock(a) > clock(b) || (clock(a) == clock(b) && a > b)
  }

  ghost predicate IsLatestCheck(v: Item, clock: nat -> nat, hashId: nat, i: nat) {
    && i < |v| && v[i].Check? && v[i].hashId == hashId
    && forall j | 0 <= j < |v| && v[j].Check? && v[j].hashId == hashId && j != i :: Later(clock, v[i].id, v[j].id)
  }

  /** v_evidence_integrity: defined over the whole log. */
  ghost predicate ViewStatus(v: Item, clock: nat -> nat, s: Status) {
    match CurrentHash(v)
    case None => s == NotVerified
    case Some(h) =>
      if forall i | 0 <= i < |v| :: !(v[i].Check? && v[i].hashId == h.id) then s == Pending
      else exists i: nat :: IsLatestCheck(v, clock, h.id, i) && s == if v[i].verified then Verified else Failed
  }

  ghost predicate ClockNeverGoesBack(clock: nat -> nat) {
    forall a, b | a <= b :: clock(a) <= clock(b)
  }

  /** Position of the entry that decides the status: the last one that is not a file. */
  function Deciding(v: Item): (d: nat)
    ensures d <= |v|
    ensures d < |v| ==> HasId(v[d]) && StatusOf(v) == StatusOf(v[..d + 1])
    ensures d == |v| ==> StatusOf(v) == NotVerified
    ensures forall k | 0 <= k < |v| && (d < k || d == |v|) :: v[k].File?
  {
    if v == [] then 0
    else if HasId(v[|v| - 1]) then assert v[..|v|] == v; |v| - 1
    else
      var w := v[..|v| - 1];
      var d := Deciding(w);
      assert forall k | 0 <= k < |w| :: w[k] == v[k];
      if d == |w| then |v| else assert w[..d + 1] == v[..d + 1]; d
  }

  lemma LatestIsLast(v: Item, n: nat, clock: nat -> nat, d: nat, i: nat)
    requires IdsInOrder(v, n) && ClockNeverGoesBack(clock)
    requires d < |v| && v[d].Check? && forall k | d < k < |v| :: v[k].File?
    ensures IsLatestCheck(v, clock, v[d].hashId, i) <==> i == d
  {
    forall j | 0 <= j < |v| && v[j].Check? && j != d ensures Later(clock, v[d].id, v[j].id) {
      assert IdOf(v[j]) < IdOf(v[d]);
    }
    if IsLatestCheck(v, clock, v[d].hashId, i) {
      assert i == d || Later(clock, v[i].id, v[d].id);
    }
  }

  /**
   The status the view derives from the whole log is the one kept up incrementally: Not Verified,
   Pending when a hash is recorded or corrected, then the outcome of each check.
   */
  lemma StatusIsIncremental(v: Item, n: nat, clock: nat -> nat, s: Status)
    requires Good(v, n) && ClockNeverGoesBack(clock)
    ensures ViewStatus(v, clock, s) <==> s == StatusOf(v)
  {
    var d := Deciding(v);
    CurrentIsLast(v);
    if d == |v| {
      if Hashes(v) != [] { HashesAreRows(v, Hashes(v)[0]); }
      assert CurrentHash(v).None?;
    } else {
      StatusFromDeciding(v, n, clock, s, d);
    }
  }

  lemma StatusFromDeciding(v: Item, n: nat, clock: nat -> nat, s: Status, d: nat)
    requires Good(v, n) && ClockNeverGoesBack(clock)
    requires d < |v| && HasId(v[d]) && StatusOf(v) == StatusOf(v[..d + 1])
    requires forall k | d < k < |v| :: v[k].File?
    ensures ViewStatus(v, clock, s) <==> s == StatusOf(v)
  {
    assert v[..d + 1][d] == v[d];
    if v[d].Hash? {
      assert StatusOf(v) == Pending;
      ViewAfterHash(v, n, clock, s, d);
    } else {
      assert StatusOf(v) == if v[d].verified then Verified else Failed;
      ViewAfterCheck(v, n, clock, s, d);
    }
  }

  lemma ViewAfterHash(v: Item, n: nat, clock: nat -> nat, s: Status, d: nat)
    requires Good(v, n) && d < |v| && v[d].Hash? && forall k | d < k < |v| :: v[k].File?
    ensures ViewStatus(v, clock, s) <==> s == Pending
  {
    assert CurrentHash(v) == Some(v[d].row) by {
      HashIsTip(v, d);
      CurrentIsLast(v);
    }
    OldChecksNameOldHashes(v, n, d);
  }

  lemma ViewAfterCheck(v: Item, n: nat, clock: nat -> nat, s: Status, d: nat)
    requires Good(v, n) && ClockNeverGoesBack(clock)
    requires d < |v| && v[d].Check? && forall k | d < k < |v| :: v[k].File?
    ensures ViewStatus(v, clock, s) <==> s == if v[d].verified then Verified else Failed
  {
    assert CurrentHash(v).Some? && CurrentHash(v).value.id == v[d].hashId by {
      CheckNamesTip(v, n, d);
      CurrentIsLast(v);
    }
    forall i: nat ensures IsLatestCheck(v, clock, v[d].hashId, i) <==> i == d {
      LatestIsLast(v, n, clock, d, i);
    }
    assert IsLatestCheck(v, clock, v[d].hashId, d);
  }

  lemma {:induction false} HashesOfPrefix(v: Item, d: nat)
    requires d <= |v| && forall k | d <= k < |v| :: !v[k].Hash?
    ensures Hashes(v) == Hashes(v[..d])
  {
    if d < |v| {
      HashesOfPrefix(v[..|v| - 1], d);
      assert v[..|v| - 1][..d] == v[..d];
    } else {
      assert v[..d] == v;
    }
  }

  lemma HashIsTip(v: Item, d: nat)
    requires d < |v| && v[d].Hash? && forall k | d < k < |v| :: v[k].File?
    ensures Hashes(v) != [] && Last(Hashes(v)) == v[d].row
  {
    HashesOfPrefix(v, d + 1);
    assert v[..d + 1] == v[..d] + [v[d]];
    HashesSnoc(v[..d], v[d]);
  }

  lemma OldChecksNameOldHashes(v: Item, n: nat, d: nat)
    requires Good(v, n) && d < |v| && v[d].Hash? && forall k | d < k < |v| :: v[k].File?
    ensures forall i | 0 <= i < |v| && v[i].Check? :: v[i].hashId != v[d].row.id
  {
    forall i | 0 <= i < |v| && v[i].Check? ensures v[i].hashId != v[d].row.id {
      assert i < d && ChecksTip(v[..i], v[i]);
      var tip := Last(Hashes(v[..i]));
      HashesAreRows(v[..i], tip);
      var k :| 0 <= k < i && v[k] == Hash(tip);
      assert IdOf(v[k]) < IdOf(v[d]);
    }
  }

  lemma CheckNamesTip(v: Item, n: nat, d: nat)
    requires Good(v, n) && d < |v| && v[d].Check? && forall k | d < k < |v| :: v[k].File?
    ensures Hashes(v) != [] && Last(Hashes(v)).id == v[d].hashId
  {
    assert ChecksTip(v[..d], v[d]);
    HashesOfPrefix(v, d);
  }
}
