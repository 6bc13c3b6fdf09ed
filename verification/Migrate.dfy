/**
 Moving evidence files between backends with verification (app/storage/migrate.py), with a fault
 injected at any call: a StorageError, any other exception, bytes damaged on the way, a clean-up that
 does not clean up.
 */
module Migrate {
  import opened Wrappers
  import opened Content

  datatype Backend = Local | S3

  /** A row of evidence_file_locations. */
  datatype Location = Location(fileId: nat, backend: Backend, before: Option<Digest>, after: Digest)

  /** A row of evidence_files. */
  datatype FileRow = FileRow(fileId: nat, objectId: ObjectId, sha256: Digest, size: nat)

  datatype Stores = Stores(local: Objects, s3: Objects) {
    function On(b: Backend): Objects {
      if b.Local? then local else s3
    }

    function With(b: Backend, objects: Objects): Stores {
      if b.Local? then this.(local := objects) else this.(s3 := objects)
    }
  }

  datatype State = State(stores: Stores, locations: seq<Location>)

  datatype Fault = Fine | RaisesStorageError | RaisesOther

  /** A removal that works, one that fails without saying so (S3), one that raises (local disk). */
  datatype Discard = Removes | LeavesSilently | LeavesAndRaises

  datatype PutFault =
    | PutFine
    | PutDamages(stored: Bytes)                              // the copy differs from the source
    | PutRaises(storageError: bool, left: Option<Bytes>)     // `left`: its own clean-up failed

  /** What goes wrong while one file is handled. */
  datatype Faults = Faults(
    hashSource: Fault, audit: bool, probe: Fault, hashExisting: Fault, openSource: Fault, put: PutFault,
    hashCopy: Fault, firstDiscard: Discard, transaction: bool, secondDiscard: Discard)

  const NO_FAULTS := Faults(Fine, false, Fine, Fine, Fine, PutFine, Fine, Removes, false, Removes)

  datatype Outcome = Moved | AlreadyThere | Skipped | Failed | WouldMove | Escaped

  // ---------------------------------------------------------------------------
  // Where a file is
  // ---------------------------------------------------------------------------

  /** The backend of its latest location row; no row means local disk. */
  function CurrentBackend(locations: seq<Location>, fileId: nat): Backend {
    if locations == [] then Local
    else if locations[|locations| - 1].fileId == fileId then locations[|locations| - 1].backend
    else CurrentBackend(locations[..|locations| - 1], fileId)
  }

  /** b is where the last row of the file says it is; without a row, local disk. */
  ghost predicate IsCurrent(locations: seq<Location>, fileId: nat, b: Backend) {
    || (b == Local && forall i | 0 <= i < |locations| :: locations[i].fileId != fileId)
    || exists i ::
         && 0 <= i < |locations| && locations[i].fileId == fileId && locations[i].backend == b
         && forall j | i < j < |locations| :: locations[j].fileId != fileId
  }

  lemma {:induction false} CurrentBackendIs(locations: seq<Location>, fileId: nat, b: Backend)
    ensures CurrentBackend(locations, fileId) == b <==> IsCurrent(locations, fileId, b)
  {
    if locations != [] {
      var n := |locations| - 1;
      var before := locations[..n];
      CurrentBackendIs(before, fileId, b);
      if locations[n].fileId != fileId {
        assert forall i | 0 <= i < n :: before[i] == locations[i];
        if IsCurrent(before, fileId, b) && exists i :: 0 <= i < n && before[i].fileId == fileId {
          var i :| && 0 <= i < n && before[i].fileId == fileId && before[i].backend == b
                   && forall j | i < j < n :: before[j].fileId != fileId;
          assert locations[i].fileId == fileId;
        }
      }
    }
  }

  predicate Has(st: State, b: Backend, id: ObjectId) {
    id in st.stores.On(b)
  }

  function Object(st: State, b: Backend, id: ObjectId): Bytes
    requires Has(st, b, id)
  {
    st.stores.On(b)[id]
  }

  /** The backend holds the object, and its bytes hash to the recorded value. */
  predicate HoldsRight(st: State, sha: Sha, b: Backend, f: FileRow) {
    Has(st, b, f.objectId) && sha(Object(st, b, f.objectId)) == f.sha256
  }

  predicate WellStored(st: State, sha: Sha, f: FileRow) {
    HoldsRight(st, sha, CurrentBackend(st.locations, f.fileId), f)
  }

  function Put(st: State, b: Backend, id: ObjectId, data: Bytes): State
  {
    st.(stores := st.stores.With(b, With(st.stores.On(b), id, data)))
  }

  function Remove(st: State, b: Backend, id: ObjectId, d: Discard): State
  {
    if d.Removes? then st.(stores := st.stores.With(b, st.stores.On(b) - {id})) else st
  }

  // ---------------------------------------------------------------------------
  // One file
  // ---------------------------------------------------------------------------

  /** How the `try` block ends up to its transaction: the state, whether a copy was made, the exception. */
  datatype Tried = Tried(st: State, copied: bool, raised: Fault)

  function TryCopy(st: State, sha: Sha, f: FileRow, source: Backend, target: Backend, maxBytes: nat, x: Faults): Tried
    requires Has(st, source, f.objectId) && !Has(st, target, f.objectId)
  {
    var data := Object(st, source, f.objectId);
    if !x.openSource.Fine? then Tried(st, false, x.openSource)
    else if x.put.PutRaises? then
      var after := if x.put.left.Some? then Put(st, target, f.objectId, x.put.left.value) else st;
      Tried(after, false, if x.put.storageError then RaisesStorageError else RaisesOther)
    else if data == [] || |data| > maxBytes then Tried(st, false, RaisesStorageError)
    else
      var copy := if x.put.PutDamages? then x.put.stored else data;
      var after := Put(st, target, f.objectId, copy);
      if !x.hashCopy.Fine? then Tried(after, true, x.hashCopy)
      else if sha(copy) != f.sha256 then
        Tried(Remove(after, target, f.objectId, x.firstDiscard), true,
              if x.firstDiscard.LeavesAndRaises? then RaisesOther else RaisesStorageError)
      else Tried(after, true, Fine)
  }

  function Try(st: State, sha: Sha, f: FileRow, source: Backend, target: Backend, maxBytes: nat, x: Faults): Tried
    requires Has(st, source, f.objectId)
  {
    if !x.probe.Fine? then Tried(st, false, x.probe)
    else if Has(st, target, f.objectId) then
      if !x.hashExisting.Fine? then Tried(st, false, x.hashExisting)
      else if sha(Object(st, target, f.objectId)) != f.sha256 then Tried(st, false, RaisesStorageError)
      else Tried(st, false, Fine)
    else TryCopy(st, sha, f, source, target, maxBytes, x)
  }

  /** The handler: a copy whose recording failed is removed, unless the exception is a StorageError. */
  function Handle(t: Tried, target: Backend, id: ObjectId, raised: Fault, x: Faults): (State, Outcome)
  {
    if t.copied && !raised.RaisesStorageError? then
      (Remove(t.st, target, id, x.secondDiscard), if x.secondDiscard.LeavesAndRaises? then Escaped else Failed)
    else (t.st, Failed)
  }

  function MoveOne(
    st: State, sha: Sha, f: FileRow, target: Backend, maxBytes: nat, dryRun: bool, x: Faults): (State, Outcome)
  {
    var source := CurrentBackend(st.locations, f.fileId);
    if x.hashSource.RaisesOther? then (st, Escaped)
    else if x.hashSource.RaisesStorageError? || !HoldsRight(st, sha, source, f) then
      (st, if x.audit then Escaped else Skipped)
    else if dryRun then (st, WouldMove)
    else
      var t := Try(st, sha, f, source, target, maxBytes, x);
      if !t.raised.Fine? then Handle(t, target, f.objectId, t.raised, x)
      else if x.transaction then Handle(t, target, f.objectId, RaisesOther, x)
      else
        (t.st.(locations := t.st.locations + [Location(f.fileId, target, Some(f.sha256), f.sha256)]),
         if t.copied then Moved else AlreadyThere)
  }

  // ---------------------------------------------------------------------------
  // The whole run
  // ---------------------------------------------------------------------------

  type Step = (State, FileRow, Faults) -> (State, Outcome)

  function Mover(sha: Sha, target: Backend, maxBytes: nat, dryRun: bool): Step {
    (st, f, x) => MoveOne(st, sha, f, target, maxBytes, dryRun, x)
  }

  /** The state after the files that were handled, and their outcomes; an escaped exception ends the run. */
  function RunWith(step: Step, st: State, todo: seq<FileRow>, plan: seq<Faults>): (r: (State, seq<Outcome>))
    requires |plan| == |todo|
    ensures |r.1| <= |todo|
  {
    if todo == [] then (st, [])
    else
      var n := |todo| - 1;
      var (s, outcomes) := RunWith(step, st, todo[..n], plan[..n]);
      if |outcomes| < n || Escaped in outcomes then (s, outcomes)
      else
        var (s', o) := step(s, todo[n], plan[n]);
        (s', outcomes + [o])
  }

  function Run(
    st: State, sha: Sha, todo: seq<FileRow>, target: Backend, maxBytes: nat, dryRun: bool, plan: seq<Faults>)
    : (State, seq<Outcome>)
    requires |plan| == |todo|
  {
    RunWith(Mover(sha, target, maxBytes, dryRun), st, todo, plan)
  }

  lemma RunNext(step: Step, st: State, todo: seq<FileRow>, i: nat, plan: seq<Faults>)
    requires |plan| == |todo| && i < |todo|
    ensures var (s, outcomes) := RunWith(step, st, todo[..i], plan[..i]);
            |outcomes| == i && Escaped !in outcomes ==>
              var (s', o) := step(s, todo[i], plan[i]);
              RunWith(step, st, todo[..i + 1], plan[..i + 1]) == (s', outcomes + [o])
  {
    assert todo[..i + 1][..i] == todo[..i] && plan[..i + 1][..i] == plan[..i];
  }

  /** Once an exception escapes, no further file is handled. */
  lemma {:induction false} RunStops(step: Step, st: State, todo: seq<FileRow>, i: nat, plan: seq<Faults>)
    requires |plan| == |todo| && i <= |todo|
    requires Escaped in RunWith(step, st, todo[..i], plan[..i]).1
    ensures RunWith(step, st, todo, plan) == RunWith(step, st, todo[..i], plan[..i])
  {
    if i == |todo| {
      assert todo[..i] == todo && plan[..i] == plan;
    } else {
      var n := |todo| - 1;
      assert todo[..n][..i] == todo[..i] && plan[..n][..i] == plan[..i];
      RunStops(step, st, todo[..n], i, plan[..n]);
    }
  }

  function Count(outcomes: seq<Outcome>, o: Outcome): nat {
    if outcomes == [] then 0
    else Count(outcomes[..|outcomes| - 1], o) + if outcomes[|outcomes| - 1] == o then 1 else 0
  }

  datatype Counts = Counts(moved: nat, alreadyThere: nat, skipped: nat, failed: nat)

  function CountsOf(outcomes: seq<Outcome>): Counts {
    Counts(Count(outcomes, Moved), Count(outcomes, AlreadyThere), Count(outcomes, Skipped), Count(outcomes, Failed))
  }

  /** counts[...] += 1 */
  function Tally(c: Counts, o: Outcome): Counts {
    match o
    case Moved => c.(moved := c.moved + 1)
    case AlreadyThere => c.(alreadyThere := c.alreadyThere + 1)
    case Skipped => c.(skipped := c.skipped + 1)
    case Failed => c.(failed := c.failed + 1)
    case _ => c
  }

  lemma CountNext(outcomes: seq<Outcome>, o: Outcome)
    ensures CountsOf(outcomes + [o]) == Tally(CountsOf(outcomes), o)
  {
    assert (outcomes + [o])[..|outcomes|] == outcomes;
  }

  function NotOn(files: seq<FileRow>, locations: seq<Location>, target: Backend): seq<FileRow> {
    if files == [] then []
    else
      var rest := NotOn(files[..|files| - 1], locations, target);
      var f := files[|files| - 1];
      if CurrentBackend(locations, f.fileId) != target then rest + [f] else rest
  }

  /** The files to handle: those not on the target, at most `limit` of them. */
  function Todo(files: seq<FileRow>, locations: seq<Location>, target: Backend, limit: Option<nat>): seq<FileRow> {
    var all := NotOn(files, locations, target);
    if limit.Some? && limit.value < |all| then all[..limit.value] else all
  }

  /**
   `todo` lists, in the order of the files, the first of those that are not on the target: `limit` of
   them, or all when there are no more; `at` says where each stands among the files.
   */
  ghost predicate TakesFirst(
    files: seq<FileRow>, locations: seq<Location>, target: Backend, limit: Option<nat>, todo: seq<FileRow>, at: seq<nat>)
  {
    && |at| == |todo|
    && (forall i | 0 <= i < |at| :: at[i] < |files| && files[at[i]] == todo[i])
    && (forall i | 0 <= i < |todo| :: CurrentBackend(locations, todo[i].fileId) != target)
    && (forall i, j | 0 <= i < j < |at| :: at[i] < at[j])
    && (limit.Some? ==> |todo| <= limit.value)
    && (forall j: nat | j < |files| && CurrentBackend(locations, files[j].fileId) != target ::
          j in at || (limit == Some(|todo|) && forall i | 0 <= i < |at| :: at[i] < j))
  }

  /** With one file more, which is taken when it is not on the target. */
  lemma TakesNext(files: seq<FileRow>, locations: seq<Location>, target: Backend, todo: seq<FileRow>, at: seq<nat>, f: FileRow)
    requires TakesFirst(files, locations, target, None, todo, at)
    ensures CurrentBackend(locations, f.fileId) != target ==>
      TakesFirst(files + [f], locations, target, None, todo + [f], at + [|files|])
    ensures CurrentBackend(locations, f.fileId) == target ==> TakesFirst(files + [f], locations, target, None, todo, at)
  {
    assert forall i | 0 <= i < |files| :: (files + [f])[i] == files[i];
    assert (at + [|files|])[|at|] == |files|;
    assert forall j | j in at :: j in at + [|files|];
  }

  lemma {:induction false} NotOnTakes(files: seq<FileRow>, locations: seq<Location>, target: Backend) returns (at: seq<nat>)
    ensures TakesFirst(files, locations, target, None, NotOn(files, locations, target), at)
  {
    at := [];
    if files != [] {
      var h, f := files[..|files| - 1], files[|files| - 1];
      at := NotOnTakes(h, locations, target);
      TakesNext(h, locations, target, NotOn(h, locations, target), at, f);
      assert h + [f] == files;
      at := if CurrentBackend(locations, f.fileId) != target then at + [|h|] else at;
    }
  }

  /** The first n of them, when that many are asked for. */
  lemma PrefixTakes(files: seq<FileRow>, locations: seq<Location>, target: Backend, all: seq<FileRow>, at: seq<nat>, n: nat)
    requires TakesFirst(files, locations, target, None, all, at) && n <= |all|
    ensures TakesFirst(files, locations, target, Some(n), all[..n], at[..n])
  {
    assert forall k | 0 <= k < n :: at[..n][k] == at[k] && at[k] in at[..n];
    forall j: nat | j in at && j !in at[..n] ensures forall i | 0 <= i < n :: at[..n][i] < j {
      var k :| 0 <= k < |at| && at[k] == j;
    }
  }

  lemma TodoTakes(files: seq<FileRow>, locations: seq<Location>, target: Backend, limit: Option<nat>)
    returns (at: seq<nat>)
    ensures TakesFirst(files, locations, target, limit, Todo(files, locations, target, limit), at)
  {
    at := NotOnTakes(files, locations, target);
    var all := NotOn(files, locations, target);
    if limit.Some? && limit.value < |all| {
      PrefixTakes(files, locations, target, all, at, limit.value);
      at := at[..limit.value];
    }
  }

  function MaxSize(files: seq<FileRow>): nat {
    if files == [] then 0
    else
      var m := MaxSize(files[..|files| - 1]);
      if files[|files| - 1].size > m then files[|files| - 1].size else m
  }

  /** max_bytes: no file of the list is refused for the size it was recorded with. */
  function MaxBytes(configuredMax: nat, todo: seq<FileRow>): nat {
    (if MaxSize(todo) > configuredMax then MaxSize(todo) else configuredMax) + 1
  }

  class Migration {
    const sha: Sha
    const files: seq<FileRow>
    const configuredMax: nat
    var stores: Stores
    var locations: seq<Location>

    function Now(): State
      reads this
    {
      State(stores, locations)
    }

    constructor (sha: Sha, files: seq<FileRow>, configuredMax: nat, local: Objects, s3: Objects, locations: seq<Location>)
      ensures Now() == State(Stores(local, s3), locations)
      ensures this.sha == sha && this.files == files && this.configuredMax == configuredMax
    {
      this.sha := sha;
      this.files := files;
      this.configuredMax := configuredMax;
      this.stores := Stores(local, s3);
      this.locations := locations;
    }

    function Backlog(target: Backend, limit: Option<nat>): seq<FileRow>
      reads this
    {
      Todo(files, locations, target, limit)
    }

    method DiscardUnrecorded(target: Backend, id: ObjectId, d: Discard) returns (raises: bool)
      modifies this`stores
      ensures Now() == Remove(old(Now()), target, id, d) && raises == d.LeavesAndRaises?
    {
      if d.Removes? {
        stores := stores.With(target, stores.On(target) - {id});
      }
      return d.LeavesAndRaises?;
    }

    /** The body of the loop. */
    method Move(f: FileRow, target: Backend, maxBytes: nat, dryRun: bool, x: Faults) returns (o: Outcome)
      modifies this
      ensures (Now(), o) == MoveOne(old(Now()), sha, f, target, maxBytes, dryRun, x)
    {
      var source := CurrentBackend(locations, f.fileId);
      if x.hashSource.RaisesOther? {
        return Escaped;
      }
      if x.hashSource.RaisesStorageError? || f.objectId !in stores.On(source) {
        return if x.audit then Escaped else Skipped;
      }
      var before := sha(stores.On(source)[f.objectId]);
      if before != f.sha256 {
        return if x.audit then Escaped else Skipped;
      }
      if dryRun {
        return WouldMove;
      }
      var copied, raised := false, x.probe;
      if raised.Fine? {
        if f.objectId in stores.On(target) {
          raised := x.hashExisting;
          if raised.Fine? && sha(stores.On(target)[f.objectId]) != f.sha256 {
            raised := RaisesStorageError;
          }
        } else {
          copied, raised := CopyAndCheck(f, source, target, maxBytes, x);
        }
      }
      if raised.Fine? {
        raised := if x.transaction then RaisesOther else Fine;
        if raised.Fine? {
          locations := locations + [Location(f.fileId, target, Some(before), f.sha256)];
          return if copied then Moved else AlreadyThere;
        }
      }
      if copied && !raised.RaisesStorageError? {
        var raises := DiscardUnrecorded(target, f.objectId, x.secondDiscard);
        return if raises then Escaped else Failed;
      }
      return Failed;
    }

    /** open_read, put_as, and the hash of the copy. */
    method CopyAndCheck(f: FileRow, source: Backend, target: Backend, maxBytes: nat, x: Faults)
      returns (copied: bool, raised: Fault)
      requires Has(Now(), source, f.objectId) && !Has(Now(), target, f.objectId)
      modifies this`stores
      ensures Tried(Now(), copied, raised) == TryCopy(old(Now()), sha, f, source, target, maxBytes, x)
    {
      var data := stores.On(source)[f.objectId];
      if !x.openSource.Fine? {
        return false, x.openSource;
      }
      match x.put {
        case PutRaises(storageError, left) =>
          if left.Some? {
            stores := stores.With(target, With(stores.On(target), f.objectId, left.value));
          }
          return false, if storageError then RaisesStorageError else RaisesOther;
        case _ =>
      }
      if data == [] || |data| > maxBytes {
        return false, RaisesStorageError;
      }
      var copy := if x.put.PutDamages? then x.put.stored else data;
      stores := stores.With(target, With(stores.On(target), f.objectId, copy));
      if !x.hashCopy.Fine? {
        return true, x.hashCopy;
      }
      if sha(copy) != f.sha256 {
        var raises := DiscardUnrecorded(target, f.objectId, x.firstDiscard);
        return true, if raises then RaisesOther else RaisesStorageError;
      }
      return true, Fine;
    }

    /** The loop. `step` stands for what one pass does to the state. None: an exception escaped. */
    method MoveAll(
      todo: seq<FileRow>, target: Backend, maxBytes: nat, dryRun: bool, plan: seq<Faults>, ghost step: Step)
      returns (counts: Option<Counts>, ghost outcomes: seq<Outcome>)
      requires |plan| == |todo|
      requires forall s, f, x :: step(s, f, x) == MoveOne(s, sha, f, target, maxBytes, dryRun, x)
      modifies this
      ensures (Now(), outcomes) == RunWith(step, old(Now()), todo, plan)
      ensures counts == if Escaped in outcomes then None else Some(CountsOf(outcomes))
    {
      var tally := Counts(0, 0, 0, 0);
      outcomes := [];
      var i := 0;
      ghost var start := Now();
      while i < |todo|
        invariant i <= |todo| && |outcomes| == i && Escaped !in outcomes
        invariant (Now(), outcomes) == RunWith(step, start, todo[..i], plan[..i])
        invariant tally == CountsOf(outcomes)
      {
        ghost var now := Now();
        var o := Move(todo[i], target, maxBytes, dryRun, plan[i]);
        RunNext(step, start, todo, i, plan);
        assert (Now(), o) == step(now, todo[i], plan[i]);
        CountNext(outcomes, o);
        outcomes := outcomes + [o];
        if o.Escaped? {
          RunStops(step, start, todo, i + 1, plan);
          return None, outcomes;
        }
        tally := Tally(tally, o);
        i := i + 1;
      }
      assert todo[..i] == todo && plan[..i] == plan;
      return Some(tally), outcomes;
    }

    /** `plan`: what goes wrong with the first file handled, the second, and so on. */
    method MigrateTo(target: Backend, limit: Option<nat>, dryRun: bool, plan: seq<Faults>)
      returns (counts: Option<Counts>, ghost outcomes: seq<Outcome>, ghost handled: seq<FileRow>, ghost at: seq<nat>)
      requires |plan| == |files|
      modifies this
      ensures TakesFirst(files, old(locations), target, limit, handled, at) && |handled| <= |plan|
      ensures (Now(), outcomes)
           == Run(old(Now()), sha, handled, target, MaxBytes(configuredMax, handled), dryRun, plan[..|handled|])
      ensures if Escaped in outcomes then |outcomes| <= |handled| && counts == None
              else |outcomes| == |handled| && counts == Some(CountsOf(outcomes))
    {
      var todo := Backlog(target, limit);
      var maxBytes := MaxBytes(configuredMax, todo);
      at := TodoTakes(files, locations, target, limit);
      NoMoreThanFiles(at, |files|);
      handled := todo;
      EveryFileHasAnOutcome(Now(), sha, todo, target, maxBytes, dryRun, plan[..|todo|]);
      counts, outcomes :=
        MoveAll(todo, target, maxBytes, dryRun, plan[..|todo|], Mover(sha, target, maxBytes, dryRun));
    }
  }

  lemma {:induction false} NoMoreThanFiles(at: seq<nat>, n: nat)
    requires forall i, j | 0 <= i < j < |at| :: at[i] < at[j]
    requires forall i | 0 <= i < |at| :: at[i] < n
    ensures |at| <= n
  {
    if at != [] {
      NoMoreThanFiles(at[..|at| - 1], at[|at| - 1]);
    }
  }

  // ---------------------------------------------------------------------------
  // One file, whatever fails
  // ---------------------------------------------------------------------------

  predicate Records(o: Outcome) {
    o.Moved? || o.AlreadyThere?
  }

  function RowFor(f: FileRow, target: Backend): Location {
    Location(f.fileId, target, Some(f.sha256), f.sha256)
  }

  /** Nothing that was stored changes, only the file's own object can appear, and only on the target. */
  ghost predicate Preserves(st: State, st': State, target: Backend, ids: set<ObjectId>) {
    && (forall b: Backend | b != target :: st'.stores.On(b) == st.stores.On(b))
    && (forall id | id in st.stores.On(target) ::
          id in st'.stores.On(target) && st'.stores.On(target)[id] == st.stores.On(target)[id])
    && (forall id | id in st'.stores.On(target) && id !in st.stores.On(target) :: id in ids)
  }

  function Copied(x: Faults, data: Bytes): Bytes {
    if x.put.PutDamages? then x.put.stored else data
  }

  lemma PutPreserves(st: State, target: Backend, id: ObjectId, data: Bytes)
    requires !Has(st, target, id)
    ensures Preserves(st, Put(st, target, id, data), target, {id})
  {
  }

  lemma RemovePreserves(st: State, s: State, target: Backend, id: ObjectId, d: Discard)
    requires Preserves(st, s, target, {id}) && !Has(st, target, id)
    ensures Preserves(st, Remove(s, target, id, d), target, {id})
  {
  }

  lemma TryPreserves(st: State, sha: Sha, f: FileRow, source: Backend, target: Backend, maxBytes: nat, x: Faults)
    requires Has(st, source, f.objectId)
    ensures var t := Try(st, sha, f, source, target, maxBytes, x);
            && Preserves(st, t.st, target, {f.objectId})
            && t.st.locations == st.locations
            && (t.copied ==> !Has(st, target, f.objectId))
  {
    if x.probe.Fine? && !Has(st, target, f.objectId) {
      var data := Object(st, source, f.objectId);
      if x.put.PutRaises? {
        if x.put.left.Some? { PutPreserves(st, target, f.objectId, x.put.left.value); }
      } else {
        var after := Put(st, target, f.objectId, Copied(x, data));
        PutPreserves(st, target, f.objectId, Copied(x, data));
        RemovePreserves(st, after, target, f.objectId, x.firstDiscard);
      }
    }
  }

  lemma MovePreserves(st: State, sha: Sha, f: FileRow, target: Backend, maxBytes: nat, dryRun: bool, x: Faults)
    ensures Preserves(st, MoveOne(st, sha, f, target, maxBytes, dryRun, x).0, target, {f.objectId})
  {
    var source := CurrentBackend(st.locations, f.fileId);
    if x.hashSource.Fine? && HoldsRight(st, sha, source, f) && !dryRun {
      var t := Try(st, sha, f, source, target, maxBytes, x);
      TryPreserves(st, sha, f, source, target, maxBytes, x);
      if t.copied {
        RemovePreserves(st, t.st, target, f.objectId, x.secondDiscard);
      }
    }
  }

  /** A location row is written exactly when the call reports success, and then the target is right. */
  lemma MoveRecords(st: State, sha: Sha, f: FileRow, target: Backend, maxBytes: nat, dryRun: bool, x: Faults)
    ensures var (st', o) := MoveOne(st, sha, f, target, maxBytes, dryRun, x);
            && st'.locations == st.locations + (if Records(o) then [RowFor(f, target)] else [])
            && (Records(o) ==> HoldsRight(st', sha, target, f))
            && (o.AlreadyThere? || o.Skipped? || o.WouldMove? ==> st'.stores == st.stores)
            && (o.WouldMove? ==> dryRun) && (dryRun ==> !Records(o))
  {
  }

  /** Exactly which files are skipped, announced, found in place or moved; the others fail, unless an exception escapes. */
  lemma OutcomeIff(st: State, sha: Sha, f: FileRow, target: Backend, maxBytes: nat, dryRun: bool, x: Faults)
    ensures var o := MoveOne(st, sha, f, target, maxBytes, dryRun, x).1;
      var source := CurrentBackend(st.locations, f.fileId);
      var right := x.hashSource.Fine? && HoldsRight(st, sha, source, f);
      && (o.Skipped? <==> !right && !x.hashSource.RaisesOther? && !x.audit)
      && (o.WouldMove? <==> right && dryRun)
      && (o.AlreadyThere? <==>
            right && !dryRun && x.probe.Fine? && x.hashExisting.Fine? && HoldsRight(st, sha, target, f) && !x.transaction)
      && (o.Moved? <==>
            && right && !dryRun && x.probe.Fine? && !Has(st, target, f.objectId) && x.openSource.Fine? && !x.put.PutRaises?
            && x.hashCopy.Fine? && !x.transaction
            && var data := Object(st, source, f.objectId);
               0 < |data| <= maxBytes && sha(Copied(x, data)) == f.sha256)
      && (!right && !o.Skipped? ==> o.Escaped?)
      && (o.Escaped? && right ==> x.secondDiscard.LeavesAndRaises?)
  {
  }

  lemma CurrentBackendSnoc(locations: seq<Location>, row: Location, fileId: nat)
    ensures CurrentBackend(locations + [row], fileId)
         == if row.fileId == fileId then row.backend else CurrentBackend(locations, fileId)
  {
    assert (locations + [row])[..|locations|] == locations;
  }

  predicate SameFile(f: FileRow, g: FileRow) {
    f == g || (f.fileId != g.fileId && f.objectId != g.objectId)
  }

  lemma MoveKeepsWellStored(
    st: State, sha: Sha, f: FileRow, g: FileRow, target: Backend, maxBytes: nat, dryRun: bool, x: Faults)
    requires SameFile(f, g) && WellStored(st, sha, g)
    ensures WellStored(MoveOne(st, sha, f, target, maxBytes, dryRun, x).0, sha, g)
  {
    var (st', o) := MoveOne(st, sha, f, target, maxBytes, dryRun, x);
    MovePreserves(st, sha, f, target, maxBytes, dryRun, x);
    MoveRecords(st, sha, f, target, maxBytes, dryRun, x);
    StaysWellStored(st, st', sha, f, g, target, Records(o));
  }

  lemma StaysWellStored(st: State, st': State, sha: Sha, f: FileRow, g: FileRow, target: Backend, recorded: bool)
    requires SameFile(f, g) && WellStored(st, sha, g) && Preserves(st, st', target, {f.objectId})
    requires st'.locations == st.locations + if recorded then [RowFor(f, target)] else []
    requires recorded ==> HoldsRight(st', sha, target, f)
    ensures WellStored(st', sha, g)
  {
    if recorded {
      CurrentBackendSnoc(st.locations, RowFor(f, target), g.fileId);
    } else {
      assert st'.locations == st.locations;
    }
    assert HoldsRight(st', sha, CurrentBackend(st.locations, g.fileId), g);
  }

  /**
   The faults after which a copy that no row records stays on the target. With removals that work
   that is one case only: the hash of the copy raised a StorageError.
   */
  predicate CopySurvives(x: Faults, fits: bool, right: bool) {
    && x.openSource.Fine?
    && if x.put.PutRaises? then x.put.left.Some?
       else
         && fits
         && (if x.hashCopy.RaisesStorageError? then true
             else if x.hashCopy.RaisesOther? then !x.secondDiscard.Removes?
             else if !right then
               !x.firstDiscard.Removes? && (x.firstDiscard.LeavesSilently? || !x.secondDiscard.Removes?)
             else x.transaction && !x.secondDiscard.Removes?)
  }

  /** Exactly when a move leaves an object on the target that no location row speaks of. */
  lemma UnrecordedCopyIff(st: State, sha: Sha, f: FileRow, target: Backend, maxBytes: nat, x: Faults)
    requires !Has(st, target, f.objectId)
    ensures var (st', o) := MoveOne(st, sha, f, target, maxBytes, false, x);
            var source := CurrentBackend(st.locations, f.fileId);
            Has(st', target, f.objectId) && !Records(o) <==>
              && x.hashSource.Fine? && HoldsRight(st, sha, source, f) && x.probe.Fine?
              && var data := Object(st, source, f.objectId);
                 CopySurvives(x, 0 < |data| <= maxBytes, sha(Copied(x, data)) == f.sha256)
  {
  }

  /** When clean-up works, the one way to leave such a copy is a StorageError from hashing it. */
  lemma UnrecordedCopyWithWorkingRemovals(st: State, sha: Sha, f: FileRow, target: Backend, maxBytes: nat, x: Faults)
    requires !Has(st, target, f.objectId)
    requires x.firstDiscard.Removes? && x.secondDiscard.Removes? && (x.put.PutRaises? ==> x.put.left.None?)
    ensures var (st', o) := MoveOne(st, sha, f, target, maxBytes, false, x);
            && (Has(st', target, f.objectId) && !Records(o) ==> x.hashCopy == RaisesStorageError)
            && (!Records(o) && x.hashCopy != RaisesStorageError ==> st'.stores == st.stores)
  {
    assert st.stores.On(target) - {f.objectId} == st.stores.On(target);
    forall data: Bytes ensures With(st.stores.On(target), f.objectId, data) - {f.objectId} == st.stores.On(target) {
    }
  }

  /** The next run finds the leftover: it adopts it when the hash is right, and reports it untouched when not. */
  lemma LeftoverAdoptedOrReported(st: State, sha: Sha, f: FileRow, target: Backend, maxBytes: nat)
    requires WellStored(st, sha, f) && Has(st, target, f.objectId)
    ensures var (st', o) := MoveOne(st, sha, f, target, maxBytes, false, NO_FAULTS);
            && st'.stores == st.stores
            && (HoldsRight(st, sha, target, f) <==> o == AlreadyThere)
            && (!HoldsRight(st, sha, target, f) <==> o == Failed)
            && st'.locations == st.locations + (if o == AlreadyThere then [RowFor(f, target)] else [])
  {
  }

  // ---------------------------------------------------------------------------
  // The whole run, whatever fails
  // ---------------------------------------------------------------------------

  ghost predicate Distinct(files: seq<FileRow>) {
    forall i, j | 0 <= i < j < |files| :: files[i].fileId != files[j].fileId && files[i].objectId != files[j].objectId
  }

  function Ids(files: seq<FileRow>): set<ObjectId> {
    set i | 0 <= i < |files| :: files[i].objectId
  }

  /** A row that says: verified before and after, with the file's recorded SHA-256. */
  ghost predicate VerifiedRow(row: Location, todo: seq<FileRow>, target: Backend) {
    exists i | 0 <= i < |todo| :: row == RowFor(todo[i], target)
  }

  /** One file more, and at most its row more. */
  lemma RowsStayVerified(
    first: seq<Location>, before: seq<Location>, after: seq<Location>, todo: seq<FileRow>, f: FileRow, target: Backend)
    requires first <= before && (after == before || after == before + [RowFor(f, target)])
    requires forall k | |first| <= k < |before| :: VerifiedRow(before[k], todo, target)
    ensures forall k | |first| <= k < |after| :: VerifiedRow(after[k], todo + [f], target)
  {
    forall k | |first| <= k < |after| ensures VerifiedRow(after[k], todo + [f], target) {
      if k < |before| {
        assert VerifiedRow(before[k], todo, target);
        var i :| 0 <= i < |todo| && before[k] == RowFor(todo[i], target);
        assert (todo + [f])[i] == todo[i];
      } else {
        assert (todo + [f])[|todo|] == f;
      }
    }
  }

  /**
   Under any failure of any storage call or transaction: no object on another backend and none that
   was on the target changes or goes; only objects of handled files appear; the location log only
   grows, by rows whose two hashes are the recorded one.
   */
  lemma {:induction false} MigrationPreserves(
    st: State, sha: Sha, todo: seq<FileRow>, target: Backend, maxBytes: nat, dryRun: bool, plan: seq<Faults>)
    requires |plan| == |todo|
    ensures var st' := Run(st, sha, todo, target, maxBytes, dryRun, plan).0;
            && Preserves(st, st', target, Ids(todo))
            && st.locations <= st'.locations
            && (forall k | |st.locations| <= k < |st'.locations| :: VerifiedRow(st'.locations[k], todo, target))
            && (dryRun ==> st'.locations == st.locations)
  {
    if todo != [] {
      var n := |todo| - 1;
      MigrationPreserves(st, sha, todo[..n], target, maxBytes, dryRun, plan[..n]);
      var s := Run(st, sha, todo[..n], target, maxBytes, dryRun, plan[..n]).0;
      var st' := Run(st, sha, todo, target, maxBytes, dryRun, plan).0;
      RunLast(st, sha, todo, target, maxBytes, dryRun, plan);
      if st' != s {
        MovePreserves(s, sha, todo[n], target, maxBytes, dryRun, plan[n]);
        MoveRecords(s, sha, todo[n], target, maxBytes, dryRun, plan[n]);
        PreservesChains(st, s, st', target, Ids(todo[..n]), todo[n].objectId);
      }
      assert Ids(todo) == Ids(todo[..n]) + {todo[n].objectId};
      assert todo[..n] + [todo[n]] == todo;
      RowsStayVerified(st.locations, s.locations, st'.locations, todo[..n], todo[n], target);
    }
  }

  lemma PreservesChains(st: State, s: State, st': State, target: Backend, ids: set<ObjectId>, id: ObjectId)
    requires Preserves(st, s, target, ids) && Preserves(s, st', target, {id})
    ensures Preserves(st, st', target, ids + {id})
  {
  }

  /** A run either stopped before its last file, or ends with the move of it. */
  lemma RunLast(
    st: State, sha: Sha, todo: seq<FileRow>, target: Backend, maxBytes: nat, dryRun: bool, plan: seq<Faults>)
    requires |plan| == |todo| && todo != []
    ensures var n := |todo| - 1;
            var s := Run(st, sha, todo[..n], target, maxBytes, dryRun, plan[..n]).0;
            var st' := Run(st, sha, todo, target, maxBytes, dryRun, plan).0;
            st' == s || st' == MoveOne(s, sha, todo[n], target, maxBytes, dryRun, plan[n]).0
  {
  }

  /** A file whose current location holds the recorded bytes still has such a location afterwards. */
  lemma {:induction false} MigrationKeepsFilesReadable(
    st: State, sha: Sha, todo: seq<FileRow>, target: Backend, maxBytes: nat, dryRun: bool, plan: seq<Faults>, g: FileRow)
    requires |plan| == |todo| && WellStored(st, sha, g)
    requires forall i | 0 <= i < |todo| :: SameFile(todo[i], g)
    ensures WellStored(Run(st, sha, todo, target, maxBytes, dryRun, plan).0, sha, g)
  {
    if todo != [] {
      var n := |todo| - 1;
      MigrationKeepsFilesReadable(st, sha, todo[..n], target, maxBytes, dryRun, plan[..n], g);
      var s := Run(st, sha, todo[..n], target, maxBytes, dryRun, plan[..n]).0;
      MoveKeepsWellStored(s, sha, todo[n], g, target, maxBytes, dryRun, plan[n]);
    }
  }

  lemma {:induction false} CountsAddUp(outcomes: seq<Outcome>)
    requires Escaped !in outcomes
    ensures var c := CountsOf(outcomes);
            c.moved + c.alreadyThere + c.skipped + c.failed + Count(outcomes, WouldMove) == |outcomes|
  {
    if outcomes != [] {
      assert outcomes[|outcomes| - 1] in outcomes;
      CountsAddUp(outcomes[..|outcomes| - 1]);
    }
  }

  lemma {:induction false} EveryFileHasAnOutcome(
    st: State, sha: Sha, todo: seq<FileRow>, target: Backend, maxBytes: nat, dryRun: bool, plan: seq<Faults>)
    requires |plan| == |todo|
    ensures var outcomes := Run(st, sha, todo, target, maxBytes, dryRun, plan).1;
            && (Escaped !in outcomes ==> |outcomes| == |todo|)
            && (!dryRun ==> Count(outcomes, WouldMove) == 0)
            && (dryRun ==> Count(outcomes, Moved) == 0 && Count(outcomes, AlreadyThere) == 0)
  {
    if todo != [] {
      var n := |todo| - 1;
      EveryFileHasAnOutcome(st, sha, todo[..n], target, maxBytes, dryRun, plan[..n]);
      var (s, outcomes) := Run(st, sha, todo[..n], target, maxBytes, dryRun, plan[..n]);
      MoveRecords(s, sha, todo[n], target, maxBytes, dryRun, plan[n]);
      var o := MoveOne(s, sha, todo[n], target, maxBytes, dryRun, plan[n]).1;
      assert (outcomes + [o])[..|outcomes|] == outcomes;
    }
  }

  /** A dry run leaves everything as it is, and announces exactly the well-stored files it can read. */
  lemma {:induction false} DryRunAnnounces(
    st: State, sha: Sha, todo: seq<FileRow>, target: Backend, maxBytes: nat, plan: seq<Faults>)
    requires |plan| == |todo|
    ensures var (s, outcomes) := Run(st, sha, todo, target, maxBytes, true, plan);
            && s == st
            && (Escaped !in outcomes ==>
                  |outcomes| == |todo| &&
                  forall i | 0 <= i < |todo| :: outcomes[i] == WouldMove <==> WouldBeMoved(st, sha, todo[i], plan[i]))
  {
    if todo != [] {
      var n := |todo| - 1;
      DryRunAnnounces(st, sha, todo[..n], target, maxBytes, plan[..n]);
    }
  }

  /** Its current location can be read and holds the recorded bytes. */
  predicate WouldBeMoved(st: State, sha: Sha, f: FileRow, x: Faults) {
    x.hashSource.Fine? && WellStored(st, sha, f)
  }

  lemma {:induction false} CountIsPositiveIff(outcomes: seq<Outcome>, o: Outcome)
    ensures Count(outcomes, o) > 0 <==> exists i :: 0 <= i < |outcomes| && outcomes[i] == o
  {
    if outcomes != [] {
      var n := |outcomes| - 1;
      CountIsPositiveIff(outcomes[..n], o);
      assert forall i | 0 <= i < n :: outcomes[..n][i] == outcomes[i];
    }
  }

  /**
   The four counts fall short of the files handled exactly when the run is a dry run and some file of
   its list can be read and is well stored: there, files that would move are logged but not counted.
   */
  lemma CountsSumToFiles(
    st: State, sha: Sha, todo: seq<FileRow>, target: Backend, maxBytes: nat, dryRun: bool, plan: seq<Faults>)
    requires |plan| == |todo|
    requires Escaped !in Run(st, sha, todo, target, maxBytes, dryRun, plan).1
    ensures var c := CountsOf(Run(st, sha, todo, target, maxBytes, dryRun, plan).1);
            && (c.moved + c.alreadyThere + c.skipped + c.failed != |todo|
                <==> dryRun && exists i :: 0 <= i < |todo| && WouldBeMoved(st, sha, todo[i], plan[i]))
            && (dryRun ==> c.moved == 0 && c.alreadyThere == 0)
  {
    var outcomes := Run(st, sha, todo, target, maxBytes, dryRun, plan).1;
    EveryFileHasAnOutcome(st, sha, todo, target, maxBytes, dryRun, plan);
    CountsAddUp(outcomes);
    CountIsPositiveIff(outcomes, WouldMove);
    if dryRun {
      DryRunAnnounces(st, sha, todo, target, maxBytes, plan);
    }
  }

  // ---------------------------------------------------------------------------
  // There and back
  // ---------------------------------------------------------------------------

  /** All that the move of a file depends on: where it is, and its object on either backend. */
  function Side(objects: Objects, id: ObjectId): Option<Bytes> {
    if id in objects then Some(objects[id]) else None
  }

  ghost predicate SameView(s: State, t: State, f: FileRow) {
    && CurrentBackend(s.locations, f.fileId) == CurrentBackend(t.locations, f.fileId)
    && Side(s.stores.local, f.objectId) == Side(t.stores.local, f.objectId)
    && Side(s.stores.s3, f.objectId) == Side(t.stores.s3, f.objectId)
  }

  lemma MoveDependsOnView(s: State, t: State, sha: Sha, f: FileRow, target: Backend, maxBytes: nat)
    requires SameView(s, t, f)
    ensures var (s', o) := MoveOne(s, sha, f, target, maxBytes, false, NO_FAULTS);
            var (t', q) := MoveOne(t, sha, f, target, maxBytes, false, NO_FAULTS);
            o == q && SameView(s', t', f)
  {
    var (s', o) := MoveOne(s, sha, f, target, maxBytes, false, NO_FAULTS);
    if Records(o) {
      CurrentBackendSnoc(s.locations, RowFor(f, target), f.fileId);
      CurrentBackendSnoc(t.locations, RowFor(f, target), f.fileId);
    }
  }

  lemma MoveLeavesOtherViews(s: State, sha: Sha, f: FileRow, g: FileRow, target: Backend, maxBytes: nat)
    requires f.fileId != g.fileId && f.objectId != g.objectId
    ensures SameView(s, MoveOne(s, sha, f, target, maxBytes, false, NO_FAULTS).0, g)
  {
    MoveRecords(s, sha, f, target, maxBytes, false, NO_FAULTS);
    MovePreserves(s, sha, f, target, maxBytes, false, NO_FAULTS);
    CurrentBackendSnoc(s.locations, RowFor(f, target), g.fileId);
  }

  function NoFaults(n: nat): seq<Faults> {
    seq(n, i => NO_FAULTS)
  }

  ghost predicate Apart(todo: seq<FileRow>, g: FileRow) {
    forall k | 0 <= k < |todo| :: todo[k].fileId != g.fileId && todo[k].objectId != g.objectId
  }

  lemma {:induction false} RunLeavesOtherViews(
    st: State, sha: Sha, todo: seq<FileRow>, target: Backend, maxBytes: nat, g: FileRow)
    requires Apart(todo, g)
    ensures SameView(Run(st, sha, todo, target, maxBytes, false, NoFaults(|todo|)).0, st, g)
  {
    if todo != [] {
      var n := |todo| - 1;
      assert NoFaults(|todo|)[..n] == NoFaults(n);
      RunLeavesOtherViews(st, sha, todo[..n], target, maxBytes, g);
      RunLast(st, sha, todo, target, maxBytes, false, NoFaults(|todo|));
      var s := Run(st, sha, todo[..n], target, maxBytes, false, NoFaults(n)).0;
      assert todo[n].fileId != g.fileId;
      MoveLeavesOtherViews(s, sha, todo[n], g, target, maxBytes);
    }
  }

  lemma {:induction false} NothingEscapes(st: State, sha: Sha, todo: seq<FileRow>, target: Backend, maxBytes: nat)
    ensures var outcomes := Run(st, sha, todo, target, maxBytes, false, NoFaults(|todo|)).1;
            |outcomes| == |todo| && Escaped !in outcomes
  {
    if todo != [] {
      var n := |todo| - 1;
      assert NoFaults(|todo|)[..n] == NoFaults(n);
      NothingEscapes(st, sha, todo[..n], target, maxBytes);
    }
  }

  lemma FaultFreeRunLast(st: State, sha: Sha, todo: seq<FileRow>, target: Backend, maxBytes: nat)
    requires todo != []
    ensures var n := |todo| - 1;
            var (s, outcomes) := Run(st, sha, todo[..n], target, maxBytes, false, NoFaults(n));
            var (s', o) := MoveOne(s, sha, todo[n], target, maxBytes, false, NO_FAULTS);
            |outcomes| == n && Run(st, sha, todo, target, maxBytes, false, NoFaults(|todo|)) == (s', outcomes + [o])
  {
    var n := |todo| - 1;
    assert NoFaults(|todo|)[..n] == NoFaults(n);
    NothingEscapes(st, sha, todo[..n], target, maxBytes);
  }

  /** Without faults, files do not affect each other: each ends as if it had been moved alone. */
  lemma {:induction false} RunIsPointwise(
    st: State, sha: Sha, todo: seq<FileRow>, target: Backend, maxBytes: nat, i: nat)
    requires Distinct(todo) && i < |todo|
    ensures var (st', outcomes) := Run(st, sha, todo, target, maxBytes, false, NoFaults(|todo|));
            var (alone, o) := MoveOne(st, sha, todo[i], target, maxBytes, false, NO_FAULTS);
            |outcomes| == |todo| && outcomes[i] == o && SameView(st', alone, todo[i])
    decreases |todo|
  {
    var n := |todo| - 1;
    FaultFreeRunLast(st, sha, todo, target, maxBytes);
    var s := Run(st, sha, todo[..n], target, maxBytes, false, NoFaults(n)).0;
    if i < n {
      RunIsPointwise(st, sha, todo[..n], target, maxBytes, i);
      MoveLeavesOtherViews(s, sha, todo[n], todo[i], target, maxBytes);
    } else {
      RunLeavesOtherViews(st, sha, todo[..n], target, maxBytes, todo[n]);
      MoveDependsOnView(s, st, sha, todo[n], target, maxBytes);
    }
  }

  /** A file copied by one run and handled by a run back: found in place, and on its first backend again. */
  lemma CopiedAndBack(
    st: State, sha: Sha, there: seq<FileRow>, back: seq<FileRow>, target: Backend, m1: nat, m2: nat, i: nat, j: nat)
    requires Distinct(there) && Distinct(back) && i < |there| && j < |back| && there[i] == back[j]
    ensures var f := there[i];
            var home := CurrentBackend(st.locations, f.fileId);
            var (s1, o1) := Run(st, sha, there, target, m1, false, NoFaults(|there|));
            var (s2, o2) := Run(s1, sha, back, home, m2, false, NoFaults(|back|));
            |o1| == |there| && |o2| == |back| &&
            (o1[i] == Moved ==>
              && CurrentBackend(s1.locations, f.fileId) == target && HoldsRight(s1, sha, target, f)
              && o2[j] == AlreadyThere
              && CurrentBackend(s2.locations, f.fileId) == home
              && Has(st, home, f.objectId) && Has(s2, home, f.objectId)
              && Object(s2, home, f.objectId) == Object(st, home, f.objectId)
              && sha(Object(s2, home, f.objectId)) == f.sha256)
  {
    var f := there[i];
    var home := CurrentBackend(st.locations, f.fileId);
    var s1 := Run(st, sha, there, target, m1, false, NoFaults(|there|)).0;
    RunIsPointwise(st, sha, there, target, m1, i);
    RunIsPointwise(s1, sha, back, home, m2, j);
    if MoveOne(st, sha, f, target, m1, false, NO_FAULTS).1 == Moved {
      MovedAlone(st, sha, f, target, m1);
      FoundAlone(s1, sha, f, home, m2);
    }
  }

  /** What a fault-free copy leaves: the file on both backends, and the target its location. */
  lemma MovedAlone(st: State, sha: Sha, f: FileRow, target: Backend, maxBytes: nat)
    requires MoveOne(st, sha, f, target, maxBytes, false, NO_FAULTS).1 == Moved
    ensures var home, alone := CurrentBackend(st.locations, f.fileId), MoveOne(st, sha, f, target, maxBytes, false, NO_FAULTS).0;
            && home != target && CurrentBackend(alone.locations, f.fileId) == target
            && HoldsRight(st, sha, home, f) && HoldsRight(alone, sha, target, f)
            && Side(alone.stores.On(home), f.objectId) == Side(st.stores.On(home), f.objectId)
  {
    CurrentBackendSnoc(st.locations, RowFor(f, target), f.fileId);
  }

  /** A fault-free move that finds the right copy in place. */
  lemma FoundAlone(st: State, sha: Sha, f: FileRow, target: Backend, maxBytes: nat)
    requires WellStored(st, sha, f) && HoldsRight(st, sha, target, f)
    ensures var (alone, o) := MoveOne(st, sha, f, target, maxBytes, false, NO_FAULTS);
            o == AlreadyThere && alone.stores == st.stores && CurrentBackend(alone.locations, f.fileId) == target
  {
    CurrentBackendSnoc(st.locations, RowFor(f, target), f.fileId);
  }

  /** A fault-free move that records nothing changes nothing, and never succeeds later under a smaller limit. */
  lemma UnmovedStaysUnmoved(st: State, sha: Sha, f: FileRow, target: Backend, m1: nat, m2: nat)
    requires !Records(MoveOne(st, sha, f, target, m1, false, NO_FAULTS).1) && m2 <= m1
    ensures MoveOne(st, sha, f, target, m1, false, NO_FAULTS).0 == st
    ensures MoveOne(st, sha, f, target, m2, false, NO_FAULTS).0 == st
    ensures !Records(MoveOne(st, sha, f, target, m2, false, NO_FAULTS).1)
  {
  }

  lemma {:induction false} RunThatMovesNothing(
    st: State, sha: Sha, todo: seq<FileRow>, target: Backend, maxBytes: nat)
    requires forall i | 0 <= i < |todo| :: MoveOne(st, sha, todo[i], target, maxBytes, false, NO_FAULTS).0 == st
    ensures Run(st, sha, todo, target, maxBytes, false, NoFaults(|todo|)).0 == st
  {
    if todo != [] {
      var n := |todo| - 1;
      assert NoFaults(|todo|)[..n] == NoFaults(n);
      RunThatMovesNothing(st, sha, todo[..n], target, maxBytes);
    }
  }

  lemma RunAgainChangesNothing(
    st: State, sha: Sha, todo: seq<FileRow>, again: seq<FileRow>, target: Backend, m1: nat, m2: nat)
    requires Distinct(todo) && m2 <= m1
    requires var s1 := Run(st, sha, todo, target, m1, false, NoFaults(|todo|)).0;
             forall j | 0 <= j < |again| :: again[j] in todo && CurrentBackend(s1.locations, again[j].fileId) != target
    ensures var s1 := Run(st, sha, todo, target, m1, false, NoFaults(|todo|)).0;
            Run(s1, sha, again, target, m2, false, NoFaults(|again|)).0 == s1
  {
    var s1 := Run(st, sha, todo, target, m1, false, NoFaults(|todo|)).0;
    forall j | 0 <= j < |again| ensures MoveOne(s1, sha, again[j], target, m2, false, NO_FAULTS).0 == s1 {
      var f := again[j];
      var i :| 0 <= i < |todo| && todo[i] == f;
      RunIsPointwise(st, sha, todo, target, m1, i);
      var (alone, o) := MoveOne(st, sha, f, target, m1, false, NO_FAULTS);
      CurrentBackendSnoc(st.locations, RowFor(f, target), f.fileId);
      assert !Records(o);
      UnmovedStaysUnmoved(st, sha, f, target, m1, m2);
      MoveDependsOnView(s1, st, sha, f, target, m1);
      UnmovedStaysUnmoved(s1, sha, f, target, m1, m2);
    }
    RunThatMovesNothing(s1, sha, again, target, m2);
  }

  // ---------------------------------------------------------------------------
  // Whole migrations
  // ---------------------------------------------------------------------------

  /** What `MigrateTo` comes to when nothing fails: its own list of files, and its own size limit. */
  function FaultFree(
    st: State, sha: Sha, files: seq<FileRow>, configuredMax: nat, target: Backend, limit: Option<nat>)
    : (State, seq<Outcome>)
  {
    var todo := Todo(files, st.locations, target, limit);
    Run(st, sha, todo, target, MaxBytes(configuredMax, todo), false, NoFaults(|todo|))
  }

  function Other(b: Backend): Backend {
    if b.Local? then S3 else Local
  }

  lemma {:induction false} NotOnIs(files: seq<FileRow>, locations: seq<Location>, b: Backend, f: FileRow)
    ensures f in NotOn(files, locations, b) <==> f in files && CurrentBackend(locations, f.fileId) != b
  {
    if files != [] {
      var init, last := files[..|files| - 1], files[|files| - 1];
      assert files == init + [last];
      NotOnIs(init, locations, b, f);
    }
  }

  lemma {:induction false} NotOnDistinct(files: seq<FileRow>, locations: seq<Location>, b: Backend)
    requires Distinct(files)
    ensures Distinct(NotOn(files, locations, b))
  {
    if files != [] {
      var init, last := files[..|files| - 1], files[|files| - 1];
      var rest := NotOn(init, locations, b);
      NotOnDistinct(init, locations, b);
      forall i | 0 <= i < |rest| ensures rest[i].fileId != last.fileId && rest[i].objectId != last.objectId {
        NotOnIs(init, locations, b, rest[i]);
        var k :| 0 <= k < |init| && init[k] == rest[i];
        assert files[k] == rest[i];
      }
    }
  }

  lemma TodoDistinct(files: seq<FileRow>, locations: seq<Location>, b: Backend, limit: Option<nat>)
    requires Distinct(files)
    ensures Distinct(Todo(files, locations, b, limit))
  {
    NotOnDistinct(files, locations, b);
  }

  lemma {:induction false} MaxSizeBounds(files: seq<FileRow>, f: FileRow)
    requires f in files
    ensures f.size <= MaxSize(files)
  {
    var init, last := files[..|files| - 1], files[|files| - 1];
    assert files == init + [last];
    if f in init {
      MaxSizeBounds(init, f);
    }
  }

  lemma {:induction false} MaxSizeMonotone(part: seq<FileRow>, files: seq<FileRow>)
    requires forall f | f in part :: f in files
    ensures MaxSize(part) <= MaxSize(files)
  {
    if part != [] {
      var init, last := part[..|part| - 1], part[|part| - 1];
      assert part == init + [last];
      MaxSizeMonotone(init, files);
      MaxSizeBounds(files, last);
    }
  }

  /** A file that is not handled stays where it is. */
  lemma UnhandledStays(
    st: State, sha: Sha, files: seq<FileRow>, configuredMax: nat, target: Backend, limit: Option<nat>, f: FileRow)
    requires Distinct(files) && f in files && f !in Todo(files, st.locations, target, limit)
    ensures CurrentBackend(FaultFree(st, sha, files, configuredMax, target, limit).0.locations, f.fileId)
         == CurrentBackend(st.locations, f.fileId)
  {
    var todo := Todo(files, st.locations, target, limit);
    forall k | 0 <= k < |todo| ensures todo[k].fileId != f.fileId && todo[k].objectId != f.objectId {
      NotOnIs(files, st.locations, target, todo[k]);
      assert todo[k] in NotOn(files, st.locations, target);
      var a :| 0 <= a < |files| && files[a] == todo[k];
      var b :| 0 <= b < |files| && files[b] == f;
    }
    RunLeavesOtherViews(st, sha, todo, target, MaxBytes(configuredMax, todo), f);
  }

  ghost predicate HasOutcome(todo: seq<FileRow>, outcomes: seq<Outcome>, f: FileRow, o: Outcome) {
    exists i :: 0 <= i < |todo| && i < |outcomes| && todo[i] == f && outcomes[i] == o
  }

  lemma InTodo(files: seq<FileRow>, locations: seq<Location>, target: Backend, limit: Option<nat>, f: FileRow)
    requires f in Todo(files, locations, target, limit)
    ensures f in files && CurrentBackend(locations, f.fileId) == Other(target)
  {
    assert f in NotOn(files, locations, target);
    NotOnIs(files, locations, target, f);
  }

  /**
   A fault-free migration, limited or not, and one back: every file the first copied was on the other
   backend; the second handles it, finds its copy in place and copies nothing for it; then it is on
   its first backend again, with the same bytes.
   */
  lemma ThereAndBack(
    st: State, sha: Sha, files: seq<FileRow>, configuredMax: nat, target: Backend, limit: Option<nat>, f: FileRow)
    requires Distinct(files)
    requires HasOutcome(Todo(files, st.locations, target, limit),
                        FaultFree(st, sha, files, configuredMax, target, limit).1, f, Moved)
    ensures var home := Other(target);
            var s1 := FaultFree(st, sha, files, configuredMax, target, limit).0;
            var (s2, o2) := FaultFree(s1, sha, files, configuredMax, home, None);
            && CurrentBackend(st.locations, f.fileId) == home && CurrentBackend(s1.locations, f.fileId) == target
            && HasOutcome(Todo(files, s1.locations, home, None), o2, f, AlreadyThere)
            && CurrentBackend(s2.locations, f.fileId) == home
            && Has(st, home, f.objectId) && Has(s2, home, f.objectId)
            && Object(s2, home, f.objectId) == Object(st, home, f.objectId)
            && sha(Object(s2, home, f.objectId)) == f.sha256
  {
    var there := Todo(files, st.locations, target, limit);
    var m1 := MaxBytes(configuredMax, there);
    var (s1, o1) := FaultFree(st, sha, files, configuredMax, target, limit);
    var i :| 0 <= i < |there| && i < |o1| && there[i] == f && o1[i] == Moved;
    InTodo(files, st.locations, target, limit, f);
    TodoDistinct(files, st.locations, target, limit);
    MovedIsOnTarget(st, sha, there, target, m1, i);
    var home := Other(target);
    var back := Todo(files, s1.locations, home, None);
    NotOnIs(files, s1.locations, home, f);
    TodoDistinct(files, s1.locations, home, None);
    var j :| 0 <= j < |back| && back[j] == f;
    CopiedAndBack(st, sha, there, back, target, m1, MaxBytes(configuredMax, back), i, j);
  }

  lemma MovedIsOnTarget(st: State, sha: Sha, todo: seq<FileRow>, target: Backend, maxBytes: nat, i: nat)
    requires Distinct(todo) && i < |todo|
    ensures var (s1, o1) := Run(st, sha, todo, target, maxBytes, false, NoFaults(|todo|));
            && |o1| == |todo|
            && CurrentBackend(s1.locations, todo[i].fileId)
               == if Records(o1[i]) then target else CurrentBackend(st.locations, todo[i].fileId)
  {
    RunIsPointwise(st, sha, todo, target, maxBytes, i);
    MoveRecords(st, sha, todo[i], target, maxBytes, false, NO_FAULTS);
    CurrentBackendSnoc(st.locations, RowFor(todo[i], target), todo[i].fileId);
  }

  /** After a migration without a limit only files it could not move are left, so repeating it changes nothing. */
  lemma RepeatedMigrationChangesNothing(
    st: State, sha: Sha, files: seq<FileRow>, configuredMax: nat, target: Backend, limit: Option<nat>)
    requires Distinct(files)
    ensures var s1 := FaultFree(st, sha, files, configuredMax, target, None).0;
            FaultFree(s1, sha, files, configuredMax, target, limit).0 == s1
  {
    var todo := Todo(files, st.locations, target, None);
    var s1 := FaultFree(st, sha, files, configuredMax, target, None).0;
    var again := Todo(files, s1.locations, target, limit);
    forall f | f in again ensures f in todo && CurrentBackend(s1.locations, f.fileId) != target {
      InTodo(files, s1.locations, target, limit, f);
      if f !in todo {
        UnhandledStays(st, sha, files, configuredMax, target, None, f);
        NotOnIs(files, st.locations, target, f);
      }
    }
    MaxSizeMonotone(again, todo);
    TodoDistinct(files, st.locations, target, None);
    forall j | 0 <= j < |again| ensures again[j] in todo && CurrentBackend(s1.locations, again[j].fileId) != target {
      assert again[j] in again;
    }
    RunAgainChangesNothing(st, sha, todo, again, target, MaxBytes(configuredMax, todo), MaxBytes(configuredMax, again));
  }

  /** A fault-free migration moves every non-empty well-stored file of its list that is as long as recorded and new to the target. */
  lemma WellStoredIsMoved(
    st: State, sha: Sha, files: seq<FileRow>, configuredMax: nat, target: Backend, limit: Option<nat>, f: FileRow)
    requires Distinct(files) && f in Todo(files, st.locations, target, limit)
    requires WellStored(st, sha, f) && !Has(st, target, f.objectId)
    requires 0 < |Object(st, CurrentBackend(st.locations, f.fileId), f.objectId)| == f.size
    ensures HasOutcome(Todo(files, st.locations, target, limit),
                       FaultFree(st, sha, files, configuredMax, target, limit).1, f, Moved)
  {
    var todo := Todo(files, st.locations, target, limit);
    var i :| 0 <= i < |todo| && todo[i] == f;
    TodoDistinct(files, st.locations, target, limit);
    MaxSizeBounds(todo, f);
    RunIsPointwise(st, sha, todo, target, MaxBytes(configuredMax, todo), i);
  }

  lemma {:induction false} NotOnLater(files: seq<FileRow>, before: seq<Location>, after: seq<Location>, b: Backend)
    requires forall f | f in files && CurrentBackend(before, f.fileId) == b :: CurrentBackend(after, f.fileId) == b
    ensures NotOn(files, after, b) == NotOn(NotOn(files, before, b), after, b)
  {
    if files != [] {
      var init, last := files[..|files| - 1], files[|files| - 1];
      var rest := NotOn(init, before, b);
      assert files == init + [last];
      NotOnLater(init, before, after, b);
      assert (rest + [last])[..|rest|] == rest;
    }
  }

  lemma {:induction false} NotOnConcat(x: seq<FileRow>, y: seq<FileRow>, locations: seq<Location>, b: Backend)
    ensures NotOn(x + y, locations, b) == NotOn(x, locations, b) + NotOn(y, locations, b)
  {
    if y == [] {
      assert x + y == x;
    } else {
      var n := |y| - 1;
      NotOnConcat(x, y[..n], locations, b);
      assert (x + y)[..|x| + n] == x + y[..n];
    }
  }

  lemma {:induction false} NotOnAll(files: seq<FileRow>, locations: seq<Location>, b: Backend)
    requires forall f | f in files :: CurrentBackend(locations, f.fileId) != b
    ensures NotOn(files, locations, b) == files
  {
    if files != [] {
      var n := |files| - 1;
      assert files == files[..n] + [files[n]];
      NotOnAll(files[..n], locations, b);
    }
  }

  /**
   What a limited migration leaves to do: first the files it handled and could not move, then the
   files it did not reach.
   */
  lemma LimitedRepeatGoesOn(
    st: State, sha: Sha, files: seq<FileRow>, configuredMax: nat, target: Backend, limit: nat)
    requires Distinct(files)
    ensures var todo := Todo(files, st.locations, target, Some(limit));
            var (s1, o1) := FaultFree(st, sha, files, configuredMax, target, Some(limit));
            var unmoved := NotOn(todo, s1.locations, target);
            && |o1| == |todo|
            && NotOn(files, s1.locations, target) == unmoved + NotOn(files, st.locations, target)[|todo|..]
            && (forall i | 0 <= i < |todo| :: todo[i] in unmoved <==> !Records(o1[i]))
  {
    var todo := Todo(files, st.locations, target, Some(limit));
    var all := NotOn(files, st.locations, target);
    var rest := all[|todo|..];
    var (s1, o1) := FaultFree(st, sha, files, configuredMax, target, Some(limit));
    TodoDistinct(files, st.locations, target, Some(limit));
    NotOnDistinct(files, st.locations, target);
    NothingEscapes(st, sha, todo, target, MaxBytes(configuredMax, todo));
    forall i | 0 <= i < |todo| ensures todo[i] in NotOn(todo, s1.locations, target) <==> !Records(o1[i]) {
      MovedIsOnTarget(st, sha, todo, target, MaxBytes(configuredMax, todo), i);
      InTodo(files, st.locations, target, Some(limit), todo[i]);
      NotOnIs(todo, s1.locations, target, todo[i]);
    }
    forall f | f in files && f !in todo
      ensures CurrentBackend(s1.locations, f.fileId) == CurrentBackend(st.locations, f.fileId)
    {
      UnhandledStays(st, sha, files, configuredMax, target, Some(limit), f);
    }
    forall f | f in files && CurrentBackend(st.locations, f.fileId) == target ensures f !in todo {
      if f in todo { InTodo(files, st.locations, target, Some(limit), f); }
    }
    NotOnLater(files, st.locations, s1.locations, target);
    assert all == todo + rest;
    NotOnConcat(todo, rest, s1.locations, target);
    forall f | f in rest ensures CurrentBackend(s1.locations, f.fileId) != target {
      NotOnIs(files, st.locations, target, f);
      RestIsUnhandled(all, |todo|, f);
    }
    NotOnAll(rest, s1.locations, target);
  }

  /** Repeated with the same limit, it goes on to further files if and only if it moved one. */
  lemma LimitedRepeatStaysIff(
    st: State, sha: Sha, files: seq<FileRow>, configuredMax: nat, target: Backend, limit: nat)
    requires Distinct(files)
    ensures var todo := Todo(files, st.locations, target, Some(limit));
            var (s1, o1) := FaultFree(st, sha, files, configuredMax, target, Some(limit));
            && |o1| == |todo|
            && (Todo(files, s1.locations, target, Some(limit)) == todo
                <==> forall i | 0 <= i < |todo| :: !Records(o1[i]))
  {
    var todo := Todo(files, st.locations, target, Some(limit));
    var (s1, o1) := FaultFree(st, sha, files, configuredMax, target, Some(limit));
    LimitedRepeatGoesOn(st, sha, files, configuredMax, target, limit);
    TodoDistinct(files, st.locations, target, Some(limit));
    if forall i | 0 <= i < |todo| :: !Records(o1[i]) {
      forall f | f in todo ensures CurrentBackend(s1.locations, f.fileId) != target {
        NotOnIs(todo, s1.locations, target, f);
      }
      NotOnAll(todo, s1.locations, target);
    } else {
      var i :| 0 <= i < |todo| && Records(o1[i]);
      NotOnIs(todo, s1.locations, target, todo[i]);
      MovedIsGone(files, s1.locations, target, Some(limit), todo[i]);
    }
  }

  lemma MovedIsGone(files: seq<FileRow>, locations: seq<Location>, target: Backend, limit: Option<nat>, f: FileRow)
    requires CurrentBackend(locations, f.fileId) == target
    ensures f !in Todo(files, locations, target, limit)
  {
    NotOnIs(files, locations, target, f);
  }

  lemma RestIsUnhandled(all: seq<FileRow>, n: nat, f: FileRow)
    requires Distinct(all) && n <= |all| && f in all[n..]
    ensures f in all && f !in all[..n]
  {
    var i :| 0 <= i < |all[n..]| && all[n..][i] == f;
    assert all[n + i] == f;
    assert forall k | 0 <= k < n :: all[k].fileId != all[n + i].fileId;
  }
}
