/**
 Several migrations at once (app/storage/migrate.py:47-96). The look for a copy on the target and the
 put that makes one are separate calls, and LocalStorage.put_as itself opens a path, writes to it and
 removes it again when something fails (app/storage/__init__.py:60-85). Here each move of a file is
 cut into these calls, and the calls of any number of moves, of any files and in both directions, are
 interleaved.

 A path on local disk knows which put created the file that is there now: a put whose file was removed
 goes on writing to a file that has no name any more.
 */
module ConcurrentMigrations {
  import opened Wrappers
  import opened Content
  import opened Migrate

  datatype Phase =
    | Listed                     // in the list of its run
    | SourceRight
    | Present                    // the target has an object of this id
    | Absent
    | Writing                    // on local disk: the path is open
    | Copied
    | Verified(copied: bool)     // the target's hash is right; the transaction has not ended
    | Discarding(again: bool)    // `again`: should the removal raise, it is tried once more
    | Ended(outcome: Outcome)

  datatype Move = Move(f: FileRow, target: Backend, phase: Phase)

  /** `writers`: the put that created the file at this path and is still writing it. */
  datatype Sys = Sys(st: State, moves: map<nat, Move>, writers: map<ObjectId, nat>)

  datatype Event =
    | Start(id: nat, f: FileRow, target: Backend)
    | HashSource(id: nat, fault: Fault, audit: bool)
    | Probe(id: nat)
    | HashExisting(id: nat)
    | Open(id: nat, refused: bool, removes: bool)   // open(path, "xb"), and the handler when it fails
    | Write(id: nat, chunk: Bytes)
    | PutFails(id: nat, removes: bool)              // a read, write or limit fails: the handler
    | PutDone(id: nat, chmod: bool)                 // `chmod`: making the file read-only fails
    | Upload(id: nat, data: Bytes)                  // put_object
    | HashCopy(id: nat)
    | Commit(id: nat)
    | Raises(id: nat, storageError: bool)           // any other call fails before it has an effect
    | DiscardCopy(id: nat, how: Discard)

  function At(s: Sys, id: nat, p: Phase): Sys
    requires id in s.moves
  {
    s.(moves := s.moves[id := s.moves[id].(phase := p)])
  }

  predicate In(s: Sys, e: Event, p: Phase) {
    e.id in s.moves && s.moves[e.id].phase == p
  }

  /** The object of a move on its target. */
  predicate There(s: Sys, m: Move) {
    Has(s.st, m.target, m.f.objectId)
  }

  function Without(s: Sys, m: Move): Sys {
    s.(st := Remove(s.st, m.target, m.f.objectId, Removes),
       writers := if m.target.Local? then s.writers - {m.f.objectId} else s.writers)
  }

  predicate OwnsPath(s: Sys, e: Event)
    requires e.id in s.moves
  {
    var path := s.moves[e.id].f.objectId;
    path in s.writers && s.writers[path] == e.id && Has(s.st, Local, path)
  }

  // ---------------------------------------------------------------------------
  // One call
  // ---------------------------------------------------------------------------

  /** What a call that changes no object and no row makes of its move. */
  function NextPhase(s: Sys, sha: Sha, e: Event): Phase
    requires e.id in s.moves
  {
    var m := s.moves[e.id];
    match e
    case HashSource(_, fault, audit) =>
      if !m.phase.Listed? then m.phase
      else if fault.RaisesOther? then Ended(Escaped)
      else if fault.RaisesStorageError? || !HoldsRight(s.st, sha, Other(m.target), m.f) then Ended(if audit then Escaped else Skipped)
      else SourceRight
    case Probe(_) =>
      if !m.phase.SourceRight? then m.phase else if There(s, m) then Present else Absent
    case HashExisting(_) =>
      if !m.phase.Present? then m.phase
      else if HoldsRight(s.st, sha, m.target, m.f) then Verified(false) else Ended(Failed)
    case HashCopy(_) =>
      if !m.phase.Copied? then m.phase
      else if !There(s, m) then Ended(Failed)
      else if HoldsRight(s.st, sha, m.target, m.f) then Verified(true) else Discarding(true)
    case Raises(_, storageError) => PhaseRaised(m.phase, storageError)
    case _ => m.phase
  }

  /** A copy whose hashing or recording failed is discarded, unless the exception is a StorageError. */
  function PhaseRaised(p: Phase, storageError: bool): Phase {
    if p.SourceRight? || p.Present? || p.Absent? || p == Verified(false) then Ended(Failed)
    else if p.Copied? then if storageError then Ended(Failed) else Discarding(false)
    else if p == Verified(true) then Discarding(false)
    else p
  }

  /** LocalStorage.put_as, call by call. */
  function StepPut(s: Sys, e: Event): Sys
    requires (e.Open? || e.Write? || e.PutFails? || e.PutDone?) && e.id in s.moves
  {
    var m := s.moves[e.id];
    var path := m.f.objectId;
    if !m.target.Local? then s
    else
    match e
    case Open(id, refused, removes) =>
      if !In(s, e, Absent) then s
      else if refused || There(s, m) then At(if removes then Without(s, m) else s, id, Ended(Failed))
      else At(s, id, Writing).(st := Put(s.st, Local, path, []), writers := s.writers[path := id])
    case Write(_, chunk) =>
      if !In(s, e, Writing) || !OwnsPath(s, e) then s
      else s.(st := Put(s.st, Local, path, Object(s.st, Local, path) + chunk))
    case PutFails(id, removes) =>
      if !In(s, e, Writing) then s else At(if removes then Without(s, m) else s, id, Ended(Failed))
    case PutDone(id, chmod) =>
      if !In(s, e, Writing) then s
      else
        var closed := if OwnsPath(s, e) then s.(writers := s.writers - {path}) else s;
        At(closed, id, if chmod || !Has(s.st, Local, path) then Ended(Failed) else Copied)
  }

  function StepUpload(s: Sys, conditional: bool, e: Event): Sys
    requires e.Upload? && e.id in s.moves
  {
    var m := s.moves[e.id];
    if !In(s, e, Absent) || !m.target.S3? then s
    else if conditional && There(s, m) then At(s, e.id, Ended(Failed))
    else At(s, e.id, Copied).(st := Put(s.st, S3, m.f.objectId, e.data))
  }

  function StepCommit(s: Sys, id: nat): Sys
    requires id in s.moves
  {
    var m := s.moves[id];
    if !m.phase.Verified? then s
    else
      var recorded := s.st.(locations := s.st.locations + [RowFor(m.f, m.target)]);
      At(s, id, Ended(if m.phase.copied then Moved else AlreadyThere)).(st := recorded)
  }

  function StepDiscard(s: Sys, id: nat, how: Discard): Sys
    requires id in s.moves
  {
    var m := s.moves[id];
    if !m.phase.Discarding? then s
    else
      At(if how.Removes? then Without(s, m) else s, id,
         if !how.LeavesAndRaises? then Ended(Failed) else if m.phase.again then Discarding(false) else Ended(Escaped))
  }

  /** `conditional`: the bucket honours If-None-Match. An event that does not fit changes nothing. */
  function Step(s: Sys, sha: Sha, conditional: bool, e: Event): Sys {
    if e.id !in s.moves then
      if e.Start? then s.(moves := s.moves[e.id := Move(e.f, e.target, Listed)]) else s
    else
      match e
      case Open(_, _, _) | Write(_, _) | PutFails(_, _) | PutDone(_, _) => StepPut(s, e)
      case Upload(_, _) => StepUpload(s, conditional, e)
      case Commit(id) => StepCommit(s, id)
      case DiscardCopy(id, how) => StepDiscard(s, id, how)
      case _ => At(s, e.id, NextPhase(s, sha, e))
  }

  function After(s: Sys, sha: Sha, conditional: bool, es: seq<Event>): Sys {
    if es == [] then s else Step(After(s, sha, conditional, es[..|es| - 1]), sha, conditional, es[|es| - 1])
  }

  // ---------------------------------------------------------------------------
  // What is relied on
  // ---------------------------------------------------------------------------

  /** A move of g has found the hash on b right, and will record b as its location. */
  ghost predicate Promised(s: Sys, b: Backend, g: FileRow) {
    exists id | id in s.moves :: s.moves[id].phase.Verified? && s.moves[id].target == b && s.moves[id].f == g
  }

  ghost predicate Relied(s: Sys, b: Backend, g: FileRow) {
    CurrentBackend(s.st.locations, g.fileId) == b || Promised(s, b, g)
  }

  /** Every copy of g that a row names, or that a move is about to name, holds the recorded bytes. */
  ghost predicate Safe(s: Sys, sha: Sha, g: FileRow) {
    forall b | Relied(s, b, g) :: HoldsRight(s.st, sha, b, g)
  }

  /** The moves are of g or of files that share neither its row nor its object. */
  ghost predicate Fits(s: Sys, g: FileRow) {
    forall id | id in s.moves :: SameFile(s.moves[id].f, g)
  }

  predicate EventFits(e: Event, g: FileRow) {
    e.Start? ==> SameFile(e.f, g)
  }

  /** The move `e.id` is one of g. */
  predicate OfFile(s: Sys, e: Event, g: FileRow) {
    e.id in s.moves && s.moves[e.id].f == g
  }

  /**
   The event takes a relied-on copy of g away, or makes it wrong: put_as finds the path taken and
   removes it; put_as fails after another move found its file complete; it goes on writing to a file
   that was found complete; an unconditional upload replaces an object with damaged bytes; a
   compensation removes a copy that another move found.
   */
  ghost predicate Undoes(s: Sys, sha: Sha, conditional: bool, e: Event, g: FileRow) {
    && OfFile(s, e, g) && Relied(s, s.moves[e.id].target, g)
    && match e
       case Open(_, _, removes) => In(s, e, Absent) && s.moves[e.id].target.Local? && removes
       case PutFails(_, removes) => In(s, e, Writing) && s.moves[e.id].target.Local? && removes
       case Write(_, chunk) =>
         && In(s, e, Writing) && s.moves[e.id].target.Local? && OwnsPath(s, e)
         && sha(Object(s.st, Local, g.objectId) + chunk) != g.sha256
       case Upload(_, data) =>
         In(s, e, Absent) && s.moves[e.id].target.S3? && !conditional && sha(data) != g.sha256
       case DiscardCopy(_, how) => s.moves[e.id].phase.Discarding? && how.Removes?
       case _ => false
  }

  // ---------------------------------------------------------------------------
  // One call keeps what is relied on, exactly when it does not undo it
  // ---------------------------------------------------------------------------

  /** Nothing about g changes: not its objects, not its location, not its promises. */
  ghost predicate Untouched(s: Sys, t: Sys, g: FileRow) {
    && (forall b: Backend :: Side(t.st.stores.On(b), g.objectId) == Side(s.st.stores.On(b), g.objectId))
    && CurrentBackend(t.st.locations, g.fileId) == CurrentBackend(s.st.locations, g.fileId)
    && (forall b: Backend :: Promised(t, b, g) <==> Promised(s, b, g))
  }

  lemma UntouchedIsSafe(s: Sys, t: Sys, sha: Sha, g: FileRow)
    requires Untouched(s, t, g)
    ensures Safe(t, sha, g) <==> Safe(s, sha, g)
  {
    forall b: Backend ensures HoldsRight(t.st, sha, b, g) <==> HoldsRight(s.st, sha, b, g) {
      assert Side(t.st.stores.On(b), g.objectId) == Side(s.st.stores.On(b), g.objectId);
    }
  }

  /** The only move that changed is not of g, or promises nothing. */
  lemma PromisesKept(s: Sys, t: Sys, id: nat, g: FileRow)
    requires id in s.moves ==> s.moves[id].f != g
    requires id in t.moves ==> t.moves[id].f != g || !t.moves[id].phase.Verified?
    requires forall k | k != id :: k in s.moves <==> k in t.moves
    requires forall k | k != id && k in s.moves :: t.moves[k] == s.moves[k]
    ensures forall b: Backend :: Promised(t, b, g) <==> Promised(s, b, g)
  {
  }

  /** Nothing but this object on this backend differs. */
  predicate SameBut(st: State, st': State, b: Backend, id: ObjectId) {
    && st'.stores.On(Other(b)) == st.stores.On(Other(b))
    && st'.stores.On(b) - {id} == st.stores.On(b) - {id}
  }

  lemma PutSameBut(st: State, b: Backend, id: ObjectId, data: Bytes)
    ensures SameBut(st, Put(st, b, id, data), b, id)
  {
    assert With(st.stores.On(b), id, data) - {id} == st.stores.On(b) - {id};
  }

  lemma RemoveSameBut(st: State, b: Backend, id: ObjectId, how: Discard)
    ensures SameBut(st, Remove(st, b, id, how), b, id)
  {
    assert st.stores.On(b) - {id} - {id} == st.stores.On(b) - {id};
  }

  /** A call changes its own move, and only its object on its target. */
  ghost predicate OnlyItsOwn(s: Sys, t: Sys, id: nat)
    requires id in s.moves
  {
    var m := s.moves[id];
    && t.moves.Keys == s.moves.Keys
    && t.moves[id].f == m.f && t.moves[id].target == m.target
    && (forall k | k in s.moves && k != id :: t.moves[k] == s.moves[k])
    && SameBut(s.st, t.st, m.target, m.f.objectId)
  }

  lemma PutIsLocal(s: Sys, e: Event)
    requires (e.Open? || e.Write? || e.PutFails? || e.PutDone?) && e.id in s.moves
    ensures OnlyItsOwn(s, StepPut(s, e), e.id) && StepPut(s, e).st.locations == s.st.locations
  {
    var m := s.moves[e.id];
    var path := m.f.objectId;
    PutSameBut(s.st, Local, path, []);
    RemoveSameBut(s.st, Local, path, Removes);
    if e.Write? && OwnsPath(s, e) {
      PutSameBut(s.st, Local, path, Object(s.st, Local, path) + e.chunk);
    }
  }

  lemma UploadIsLocal(s: Sys, conditional: bool, e: Event)
    requires e.Upload? && e.id in s.moves
    ensures OnlyItsOwn(s, StepUpload(s, conditional, e), e.id) && StepUpload(s, conditional, e).st.locations == s.st.locations
  {
    PutSameBut(s.st, S3, s.moves[e.id].f.objectId, e.data);
  }

  lemma DiscardIsLocal(s: Sys, id: nat, how: Discard)
    requires id in s.moves
    ensures OnlyItsOwn(s, StepDiscard(s, id, how), id) && StepDiscard(s, id, how).st.locations == s.st.locations
  {
    RemoveSameBut(s.st, s.moves[id].target, s.moves[id].f.objectId, Removes);
  }

  /** Only COMMIT adds a row. */
  lemma StepIsLocal(s: Sys, sha: Sha, conditional: bool, e: Event)
    requires e.id in s.moves
    ensures OnlyItsOwn(s, Step(s, sha, conditional, e), e.id)
    ensures Step(s, sha, conditional, e).st.locations
         == if e.Commit? && s.moves[e.id].phase.Verified?
            then s.st.locations + [RowFor(s.moves[e.id].f, s.moves[e.id].target)] else s.st.locations
  {
    match e
    case Open(_, _, _) | Write(_, _) | PutFails(_, _) | PutDone(_, _) => PutIsLocal(s, e);
    case Upload(_, _) => UploadIsLocal(s, conditional, e);
    case DiscardCopy(id, how) => DiscardIsLocal(s, id, how);
    case _ =>
  }

  lemma OtherFileIsUntouched(s: Sys, sha: Sha, conditional: bool, e: Event, g: FileRow)
    requires Fits(s, g) && EventFits(e, g) && !OfFile(s, e, g)
    ensures Untouched(s, Step(s, sha, conditional, e), g)
  {
    var t := Step(s, sha, conditional, e);
    if e.id in s.moves {
      StepIsLocal(s, sha, conditional, e);
      PromisesKept(s, t, e.id, g);
      OtherObject(s.st, t.st, s.moves[e.id], g);
    } else {
      PromisesKept(s, t, e.id, g);
    }
  }

  lemma OtherObject(st: State, st': State, m: Move, g: FileRow)
    requires SameFile(m.f, g) && m.f != g && SameBut(st, st', m.target, m.f.objectId)
    requires st'.locations == st.locations || st'.locations == st.locations + [RowFor(m.f, m.target)]
    ensures forall b: Backend :: Side(st'.stores.On(b), g.objectId) == Side(st.stores.On(b), g.objectId)
    ensures CurrentBackend(st'.locations, g.fileId) == CurrentBackend(st.locations, g.fileId)
  {
    OtherSide(st.stores.On(m.target), st'.stores.On(m.target), m.f.objectId, g.objectId);
    CurrentBackendSnoc(st.locations, RowFor(m.f, m.target), g.fileId);
    forall b: Backend ensures Side(st'.stores.On(b), g.objectId) == Side(st.stores.On(b), g.objectId) {
      assert b == m.target || b == Other(m.target);
    }
  }

  lemma OtherSide(before: Objects, after: Objects, id: ObjectId, other: ObjectId)
    requires after - {id} == before - {id} && other != id
    ensures Side(after, other) == Side(before, other)
  {
    assert other in before <==> other in before - {id};
    assert other in after <==> other in after - {id};
    if other in before {
      assert (before - {id})[other] == (after - {id})[other];
    }
  }

  /** Only this move's phase differs, and neither before nor after does it promise anything. */
  ghost predicate SamePromises(s: Sys, t: Sys, id: nat) {
    && id in s.moves && id in t.moves && !s.moves[id].phase.Verified? && !t.moves[id].phase.Verified?
    && t.moves.Keys == s.moves.Keys && t.st.locations == s.st.locations
    && forall k | k in s.moves && k != id :: t.moves[k] == s.moves[k]
  }

  lemma ReliedSame(s: Sys, t: Sys, id: nat, b: Backend, g: FileRow)
    requires SamePromises(s, t, id)
    ensures Relied(t, b, g) <==> Relied(s, b, g)
  {
    if k :| k in s.moves && s.moves[k].phase.Verified? && s.moves[k].target == b && s.moves[k].f == g {
      assert t.moves[k] == s.moves[k];
    }
    if k :| k in t.moves && t.moves[k].phase.Verified? && t.moves[k].target == b && t.moves[k].f == g {
      assert t.moves[k] == s.moves[k];
    }
  }

  /** The object of g on b is changed or removed: safe exactly when b was not relied on, or the new bytes are right. */
  lemma ChangedIff(s: Sys, t: Sys, sha: Sha, id: nat, b: Backend, g: FileRow)
    requires Safe(s, sha, g) && SamePromises(s, t, id) && SameBut(s.st, t.st, b, g.objectId)
    ensures Safe(t, sha, g) <==> !Relied(s, b, g) || HoldsRight(t.st, sha, b, g)
  {
    ReliedSame(s, t, id, b, g);
    ReliedSame(s, t, id, Other(b), g);
    assert HoldsRight(t.st, sha, Other(b), g) <==> HoldsRight(s.st, sha, Other(b), g);
    assert Safe(t, sha, g) <==> (Relied(t, b, g) ==> HoldsRight(t.st, sha, b, g)) by {
      if Relied(t, b, g) ==> HoldsRight(t.st, sha, b, g) {
        forall c | Relied(t, c, g) ensures HoldsRight(t.st, sha, c, g) {
          assert c == b || c == Other(b);
        }
      }
    }
  }

  /** Only the phase of one move of g changes; a promise is made of a copy that is right. */
  lemma PhaseIsSafe(s: Sys, sha: Sha, id: nat, p: Phase, g: FileRow)
    requires Safe(s, sha, g) && id in s.moves && s.moves[id].f == g
    requires p.Verified? ==> HoldsRight(s.st, sha, s.moves[id].target, g)
    ensures Safe(At(s, id, p), sha, g)
  {
    var t := At(s, id, p);
    forall b | Relied(t, b, g) ensures HoldsRight(t.st, sha, b, g) {
      if CurrentBackend(s.st.locations, g.fileId) != b {
        var k :| k in t.moves && t.moves[k].phase.Verified? && t.moves[k].target == b && t.moves[k].f == g;
        if k != id { assert Promised(s, b, g); }
      }
    }
  }

  lemma CommitIsSafe(s: Sys, sha: Sha, conditional: bool, id: nat, g: FileRow)
    requires Safe(s, sha, g) && id in s.moves && s.moves[id].f == g
    ensures Safe(Step(s, sha, conditional, Commit(id)), sha, g)
  {
    var m := s.moves[id];
    if m.phase.Verified? {
      var u := Step(s, sha, conditional, Commit(id));
      assert Promised(s, m.target, g);
      CurrentBackendSnoc(s.st.locations, RowFor(g, m.target), g.fileId);
      forall b | Relied(u, b, g) ensures HoldsRight(u.st, sha, b, g) {
        if b != m.target {
          var k :| k in u.moves && u.moves[k].phase.Verified? && u.moves[k].target == b && u.moves[k].f == g;
          assert k != id && Promised(s, b, g);
        }
        assert HoldsRight(s.st, sha, b, g);
      }
    }
  }

  lemma PutIff(s: Sys, sha: Sha, conditional: bool, e: Event, g: FileRow)
    requires Safe(s, sha, g) && OfFile(s, e, g) && (e.Open? || e.Write? || e.PutFails? || e.PutDone?)
    ensures Safe(StepPut(s, e), sha, g) <==> !Undoes(s, sha, conditional, e, g)
  {
    var t := StepPut(s, e);
    PutIsLocal(s, e);
    if t != s {
      ChangedIff(s, t, sha, e.id, Local, g);
    }
  }

  lemma UploadIff(s: Sys, sha: Sha, conditional: bool, e: Event, g: FileRow)
    requires Safe(s, sha, g) && OfFile(s, e, g) && e.Upload?
    ensures Safe(StepUpload(s, conditional, e), sha, g) <==> !Undoes(s, sha, conditional, e, g)
  {
    var t := StepUpload(s, conditional, e);
    PutSameBut(s.st, S3, g.objectId, e.data);
    if t != s {
      ChangedIff(s, t, sha, e.id, S3, g);
    }
  }

  lemma DiscardIff(s: Sys, sha: Sha, conditional: bool, e: Event, g: FileRow)
    requires Safe(s, sha, g) && OfFile(s, e, g) && e.DiscardCopy?
    ensures Safe(Step(s, sha, conditional, e), sha, g) <==> !Undoes(s, sha, conditional, e, g)
  {
    var t := Step(s, sha, conditional, e);
    RemoveSameBut(s.st, s.moves[e.id].target, g.objectId, Removes);
    if t != s {
      ChangedIff(s, t, sha, e.id, s.moves[e.id].target, g);
    }
  }

  lemma StepFits(s: Sys, sha: Sha, conditional: bool, e: Event, g: FileRow)
    requires Fits(s, g) && EventFits(e, g)
    ensures Fits(Step(s, sha, conditional, e), g)
  {
    if e.id in s.moves { StepIsLocal(s, sha, conditional, e); }
  }

  lemma OwnStepIff(s: Sys, sha: Sha, conditional: bool, e: Event, g: FileRow)
    requires OfFile(s, e, g) && Safe(s, sha, g)
    ensures Safe(Step(s, sha, conditional, e), sha, g) <==> !Undoes(s, sha, conditional, e, g)
  {
    match e
    case Open(_, _, _) | Write(_, _) | PutFails(_, _) | PutDone(_, _) => PutIff(s, sha, conditional, e, g);
    case Upload(_, _) => UploadIff(s, sha, conditional, e, g);
    case DiscardCopy(_, _) => DiscardIff(s, sha, conditional, e, g);
    case Commit(id) => CommitIsSafe(s, sha, conditional, id, g);
    case _ => PhaseIsSafe(s, sha, e.id, NextPhase(s, sha, e), g);
  }

  /** From a safe state, one call leaves a safe state if and only if it is none of those that undo a copy. */
  lemma StepIff(s: Sys, sha: Sha, conditional: bool, e: Event, g: FileRow)
    requires Fits(s, g) && EventFits(e, g) && Safe(s, sha, g)
    ensures Safe(Step(s, sha, conditional, e), sha, g) <==> !Undoes(s, sha, conditional, e, g)
  {
    if OfFile(s, e, g) {
      OwnStepIff(s, sha, conditional, e, g);
    } else {
      OtherFileIsUntouched(s, sha, conditional, e, g);
      UntouchedIsSafe(s, Step(s, sha, conditional, e), sha, g);
    }
  }

  // ---------------------------------------------------------------------------
  // Whole runs
  // ---------------------------------------------------------------------------

  ghost predicate EventsFit(es: seq<Event>, g: FileRow) {
    forall i | 0 <= i < |es| :: EventFits(es[i], g)
  }

  ghost predicate SafeAt(s: Sys, sha: Sha, conditional: bool, es: seq<Event>, i: nat, g: FileRow)
    requires i <= |es|
  {
    Safe(After(s, sha, conditional, es[..i]), sha, g)
  }

  ghost predicate UndoneAt(s: Sys, sha: Sha, conditional: bool, es: seq<Event>, i: nat, g: FileRow)
    requires i < |es|
  {
    Undoes(After(s, sha, conditional, es[..i]), sha, conditional, es[i], g)
  }

  lemma AfterNext(s: Sys, sha: Sha, conditional: bool, es: seq<Event>, i: nat)
    requires i < |es|
    ensures After(s, sha, conditional, es[..i + 1]) == Step(After(s, sha, conditional, es[..i]), sha, conditional, es[i])
  {
    assert es[..i + 1][..i] == es[..i];
  }

  lemma {:induction false} RunFits(s: Sys, sha: Sha, conditional: bool, es: seq<Event>, i: nat, g: FileRow)
    requires Fits(s, g) && EventsFit(es, g) && i <= |es|
    ensures Fits(After(s, sha, conditional, es[..i]), g)
  {
    if i > 0 {
      RunFits(s, sha, conditional, es, i - 1, g);
      AfterNext(s, sha, conditional, es, i - 1);
      assert EventFits(es[i - 1], g);
      StepFits(After(s, sha, conditional, es[..i - 1]), sha, conditional, es[i - 1], g);
    }
  }

  lemma NextSafeIff(s: Sys, sha: Sha, conditional: bool, es: seq<Event>, i: nat, g: FileRow)
    requires Fits(s, g) && EventsFit(es, g) && i < |es| && SafeAt(s, sha, conditional, es, i, g)
    ensures SafeAt(s, sha, conditional, es, i + 1, g) <==> !UndoneAt(s, sha, conditional, es, i, g)
  {
    RunFits(s, sha, conditional, es, i, g);
    AfterNext(s, sha, conditional, es, i);
    assert EventFits(es[i], g);
    StepIff(After(s, sha, conditional, es[..i]), sha, conditional, es[i], g);
  }

  lemma {:induction false} SafeUpTo(s: Sys, sha: Sha, conditional: bool, es: seq<Event>, i: nat, g: FileRow)
    requires Fits(s, g) && EventsFit(es, g) && Safe(s, sha, g) && i <= |es|
    requires forall k: nat | k < i :: !UndoneAt(s, sha, conditional, es, k, g)
    ensures SafeAt(s, sha, conditional, es, i, g)
  {
    if i > 0 {
      SafeUpTo(s, sha, conditional, es, i - 1, g);
      NextSafeIff(s, sha, conditional, es, i - 1, g);
    }
  }

  /** Over any run, every relied-on copy is right at every moment if and only if no call undoes one. */
  lemma RunIsSafeIff(s: Sys, sha: Sha, conditional: bool, es: seq<Event>, g: FileRow)
    requires Fits(s, g) && EventsFit(es, g) && Safe(s, sha, g)
    ensures (forall i: nat | i <= |es| :: SafeAt(s, sha, conditional, es, i, g))
       <==> (forall i: nat | i < |es| :: !UndoneAt(s, sha, conditional, es, i, g))
  {
    if forall i: nat | i < |es| :: !UndoneAt(s, sha, conditional, es, i, g) {
      forall i: nat | i <= |es| ensures SafeAt(s, sha, conditional, es, i, g) {
        SafeUpTo(s, sha, conditional, es, i, g);
      }
    }
    if forall i: nat | i <= |es| :: SafeAt(s, sha, conditional, es, i, g) {
      forall i: nat | i < |es| ensures !UndoneAt(s, sha, conditional, es, i, g) {
        assert SafeAt(s, sha, conditional, es, i, g) && SafeAt(s, sha, conditional, es, i + 1, g);
        NextSafeIff(s, sha, conditional, es, i, g);
      }
    }
  }

  ghost predicate AllCommits(cs: seq<Event>) {
    forall i | 0 <= i < |cs| :: cs[i].Commit?
  }

  lemma {:induction false} CommitsAreSafe(s: Sys, sha: Sha, conditional: bool, cs: seq<Event>, g: FileRow)
    requires Fits(s, g) && Safe(s, sha, g) && AllCommits(cs)
    ensures Safe(After(s, sha, conditional, cs), sha, g)
  {
    forall k: nat | k < |cs| ensures !UndoneAt(s, sha, conditional, cs, k, g) {
      assert cs[k].Commit?;
    }
    SafeUpTo(s, sha, conditional, cs, |cs|, g);
    assert cs[..|cs|] == cs;
  }

  /** What safety is for: the file is well stored, whichever of the moves in flight commit next. */
  lemma SafeIff(s: Sys, sha: Sha, conditional: bool, g: FileRow)
    requires Fits(s, g)
    ensures Safe(s, sha, g) <==> forall cs | AllCommits(cs) :: WellStored(After(s, sha, conditional, cs).st, sha, g)
  {
    if Safe(s, sha, g) {
      forall cs | AllCommits(cs) ensures WellStored(After(s, sha, conditional, cs).st, sha, g) {
        CommitsAreSafe(s, sha, conditional, cs, g);
      }
    } else {
      var b :| Relied(s, b, g) && !HoldsRight(s.st, sha, b, g);
      if CurrentBackend(s.st.locations, g.fileId) == b {
        assert AllCommits([]) && After(s, sha, conditional, []) == s;
      } else {
        var id :| id in s.moves && s.moves[id].phase.Verified? && s.moves[id].target == b && s.moves[id].f == g;
        var cs := [Commit(id)];
        assert AllCommits(cs) && cs[..0] == [];
        CurrentBackendSnoc(s.st.locations, RowFor(g, b), g.fileId);
        assert After(s, sha, conditional, cs) == StepCommit(s, id);
      }
    }
  }

  lemma IdleIsSafeIff(s: Sys, sha: Sha, g: FileRow)
    requires s.moves == map[]
    ensures Fits(s, g) && (Safe(s, sha, g) <==> WellStored(s.st, sha, g))
  {
  }

  /**
   Any number of migrations at once, whatever fails: from a start with nothing in flight, a well-stored
   file is well stored at every moment, whichever moves commit next, if and only if no call undoes
   a copy that is recorded or that a move has found right.
   */
  lemma FileStaysReadableIff(st: State, sha: Sha, conditional: bool, es: seq<Event>, g: FileRow)
    requires EventsFit(es, g) && WellStored(st, sha, g)
    ensures var s := Sys(st, map[], map[]);
            (forall i: nat, cs | i <= |es| && AllCommits(cs) ::
               WellStored(After(After(s, sha, conditional, es[..i]), sha, conditional, cs).st, sha, g))
            <==> forall i: nat | i < |es| :: !UndoneAt(s, sha, conditional, es, i, g)
  {
    var s := Sys(st, map[], map[]);
    IdleIsSafeIff(s, sha, g);
    RunIsSafeIff(s, sha, conditional, es, g);
    forall i: nat | i <= |es|
      ensures SafeAt(s, sha, conditional, es, i, g)
         <==> forall cs | AllCommits(cs) ::
                WellStored(After(After(s, sha, conditional, es[..i]), sha, conditional, cs).st, sha, g)
    {
      RunFits(s, sha, conditional, es, i, g);
      SafeIff(After(s, sha, conditional, es[..i]), sha, conditional, g);
    }
  }

  // ---------------------------------------------------------------------------
  // One move of a file at a time
  // ---------------------------------------------------------------------------

  ghost predicate AllEnded(s: Sys, g: FileRow, except: nat) {
    forall id | id in s.moves && id != except && s.moves[id].f == g :: s.moves[id].phase.Ended?
  }

  predicate HasCopied(p: Phase) {
    p.Writing? || p.Copied? || p == Verified(true) || p.Discarding?
  }

  /** A move that has the file to itself: what it found absent still is, and its copy is on a new place. */
  ghost predicate HasToItself(s: Sys, id: nat, g: FileRow)
    requires id in s.moves
  {
    var m := s.moves[id];
    && AllEnded(s, g, id)
    && (m.phase.Absent? ==> !There(s, m))
    && (HasCopied(m.phase) ==> CurrentBackend(s.st.locations, g.fileId) != m.target)
  }

  ghost predicate Alone(s: Sys, g: FileRow) {
    forall id | id in s.moves && s.moves[id].f == g && !s.moves[id].phase.Ended? :: HasToItself(s, id, g)
  }

  /** Before it makes a promise, its target is not relied on. */
  lemma AloneIsNotRelied(s: Sys, sha: Sha, id: nat, g: FileRow)
    requires Safe(s, sha, g) && id in s.moves && s.moves[id].f == g && HasToItself(s, id, g)
    requires var p := s.moves[id].phase; p.Absent? || (HasCopied(p) && !p.Verified?)
    ensures !Relied(s, s.moves[id].target, g)
  {
    assert s.moves[id].phase.Absent? ==> !HoldsRight(s.st, sha, s.moves[id].target, g);
  }

  lemma AloneUndoesNothing(s: Sys, sha: Sha, conditional: bool, e: Event, g: FileRow)
    requires Safe(s, sha, g) && Alone(s, g)
    ensures !Undoes(s, sha, conditional, e, g)
  {
    if OfFile(s, e, g) {
      var p := s.moves[e.id].phase;
      if p.Absent? || (HasCopied(p) && !p.Verified?) {
        AloneIsNotRelied(s, sha, e.id, g);
      }
    }
  }

  /** What a call makes of a move that has not ended. */
  lemma NewPhase(s: Sys, sha: Sha, conditional: bool, e: Event)
    requires e.id in s.moves
    ensures var m, t := s.moves[e.id], Step(s, sha, conditional, e);
            && e.id in t.moves
            && var p := t.moves[e.id].phase;
            && (p.Absent? ==> (m.phase.Absent? || m.phase.SourceRight?) && t.st == s.st && (m.phase.SourceRight? ==> !There(s, m)))
            && (HasCopied(p) ==> (m.phase.Absent? || HasCopied(m.phase)) && t.st.locations == s.st.locations)
            && (m.phase.Ended? ==> p.Ended?)
  {
  }

  lemma OwnStepKeepsAlone(s: Sys, sha: Sha, conditional: bool, e: Event, g: FileRow)
    requires Safe(s, sha, g) && Alone(s, g) && OfFile(s, e, g)
    ensures Alone(Step(s, sha, conditional, e), g)
  {
    var t, m := Step(s, sha, conditional, e), s.moves[e.id];
    StepIsLocal(s, sha, conditional, e);
    NewPhase(s, sha, conditional, e);
    if !m.phase.Ended? {
      assert HasToItself(s, e.id, g);
      if m.phase.Absent? { AloneIsNotRelied(s, sha, e.id, g); }
      assert HasToItself(t, e.id, g);
    }
    forall id | id in t.moves && id != e.id && t.moves[id].f == g && !t.moves[id].phase.Ended? ensures HasToItself(t, id, g) {
      assert t.moves[id] == s.moves[id] && HasToItself(s, id, g);
    }
  }

  lemma OtherStepKeepsAlone(s: Sys, sha: Sha, conditional: bool, e: Event, g: FileRow)
    requires Fits(s, g) && EventFits(e, g) && Alone(s, g) && !OfFile(s, e, g)
    requires e.Start? && e.id !in s.moves && e.f == g ==> AllEnded(s, g, e.id)
    ensures Alone(Step(s, sha, conditional, e), g)
  {
    var t := Step(s, sha, conditional, e);
    OtherFileIsUntouched(s, sha, conditional, e, g);
    if e.id in s.moves { StepIsLocal(s, sha, conditional, e); }
    forall id | id in t.moves && t.moves[id].f == g && !t.moves[id].phase.Ended? ensures HasToItself(t, id, g) {
      if id in s.moves && id != e.id {
        assert HasToItself(s, id, g) && t.moves[id] == s.moves[id];
      }
    }
  }

  /** A move of g starts only when no other is under way. */
  ghost predicate StartsAlone(s: Sys, sha: Sha, conditional: bool, es: seq<Event>, i: nat, g: FileRow)
    requires i < |es|
  {
    var now := After(s, sha, conditional, es[..i]);
    es[i].Start? && es[i].id !in now.moves && es[i].f == g ==> AllEnded(now, g, es[i].id)
  }

  lemma {:induction false} AloneUpTo(s: Sys, sha: Sha, conditional: bool, es: seq<Event>, i: nat, g: FileRow)
    requires Fits(s, g) && EventsFit(es, g) && Safe(s, sha, g) && Alone(s, g) && i <= |es|
    requires forall k: nat | k < |es| :: StartsAlone(s, sha, conditional, es, k, g)
    ensures SafeAt(s, sha, conditional, es, i, g) && Alone(After(s, sha, conditional, es[..i]), g)
  {
    if i > 0 {
      var before, e := After(s, sha, conditional, es[..i - 1]), es[i - 1];
      AloneUpTo(s, sha, conditional, es, i - 1, g);
      RunFits(s, sha, conditional, es, i - 1, g);
      AfterNext(s, sha, conditional, es, i - 1);
      AloneUndoesNothing(before, sha, conditional, e, g);
      NextSafeIff(s, sha, conditional, es, i - 1, g);
      assert StartsAlone(s, sha, conditional, es, i - 1, g) && EventFits(e, g);
      if OfFile(before, e, g) {
        OwnStepKeepsAlone(before, sha, conditional, e, g);
      } else {
        OtherStepKeepsAlone(before, sha, conditional, e, g);
      }
    }
  }

  /**
   Migrations may overlap as long as no two of them handle the same file at once: then nothing any call
   does, fails to do or leaves behind makes a well-stored file unreadable.
   */
  lemma OneAtATimeIsSafe(st: State, sha: Sha, conditional: bool, es: seq<Event>, i: nat, g: FileRow)
    requires EventsFit(es, g) && WellStored(st, sha, g) && i <= |es|
    requires forall k: nat | k < |es| :: StartsAlone(Sys(st, map[], map[]), sha, conditional, es, k, g)
    ensures WellStored(After(Sys(st, map[], map[]), sha, conditional, es[..i]).st, sha, g)
  {
    var s := Sys(st, map[], map[]);
    IdleIsSafeIff(s, sha, g);
    AloneUpTo(s, sha, conditional, es, i, g);
    var now := After(s, sha, conditional, es[..i]);
    assert Relied(now, CurrentBackend(now.st.locations, g.fileId), g);
  }

  // ---------------------------------------------------------------------------
  // Two moves of one file that lose it
  // ---------------------------------------------------------------------------

  lemma AfterSnoc(s: Sys, sha: Sha, conditional: bool, es: seq<Event>, e: Event)
    ensures After(s, sha, conditional, es + [e]) == Step(After(s, sha, conditional, es), sha, conditional, e)
  {
    assert (es + [e])[..|es|] == es;
  }

  lemma {:induction false} AfterConcat(s: Sys, sha: Sha, conditional: bool, es: seq<Event>, fs: seq<Event>)
    ensures After(s, sha, conditional, es + fs) == After(After(s, sha, conditional, es), sha, conditional, fs)
  {
    if fs == [] {
      assert es + fs == es;
    } else {
      var n := |fs| - 1;
      AfterConcat(s, sha, conditional, es, fs[..n]);
      AfterSnoc(s, sha, conditional, es + fs[..n], fs[n]);
      assert es + fs == (es + fs[..n]) + [fs[n]];
    }
  }

  lemma AfterThree(s: Sys, sha: Sha, conditional: bool, a: Event, b: Event, c: Event)
    ensures After(s, sha, conditional, [a, b, c])
         == Step(Step(Step(s, sha, conditional, a), sha, conditional, b), sha, conditional, c)
  {
    assert [] + [a] == [a] && [a] + [b] == [a, b] && [a, b] + [c] == [a, b, c];
    AfterSnoc(s, sha, conditional, [], a);
    AfterSnoc(s, sha, conditional, [a], b);
    AfterSnoc(s, sha, conditional, [a, b], c);
  }

  /** A move that starts, reads its source and finds nothing on the target. */
  function Finding(id: nat, f: FileRow, target: Backend): seq<Event> {
    [Start(id, f, target), HashSource(id, Fine, false), Probe(id)]
  }

  lemma AfterFinding(s: Sys, sha: Sha, conditional: bool, id: nat, f: FileRow, target: Backend)
    requires id !in s.moves && HoldsRight(s.st, sha, Other(target), f)
    ensures After(s, sha, conditional, Finding(id, f, target))
         == s.(moves := s.moves[id := Move(f, target, if Has(s.st, target, f.objectId) then Present else Absent)])
  {
    AfterThree(s, sha, conditional, Start(id, f, target), HashSource(id, Fine, false), Probe(id));
    var s1 := Step(s, sha, conditional, Start(id, f, target));
    var s2 := Step(s1, sha, conditional, HashSource(id, Fine, false));
    assert s2 == s.(moves := s.moves[id := Move(f, target, SourceRight)]);
  }

  function FirstCopies(data: Bytes): seq<Event> {
    [Open(0, false, true), Write(0, data), PutDone(0, false)]
  }

  function SecondPuts(): seq<Event> {
    [HashCopy(0), Open(1, false, true), Commit(0)]
  }

  lemma OpenedAndWritten(s: Sys, sha: Sha, conditional: bool, f: FileRow, data: Bytes)
    requires 0 in s.moves && s.moves[0] == Move(f, Local, Absent) && !Has(s.st, Local, f.objectId)
    ensures Step(Step(s, sha, conditional, Open(0, false, true)), sha, conditional, Write(0, data))
         == Sys(Put(s.st, Local, f.objectId, data), s.moves[0 := Move(f, Local, Writing)], s.writers[f.objectId := 0])
  {
    var path := f.objectId;
    var s1 := Sys(Put(s.st, Local, path, []), s.moves[0 := Move(f, Local, Writing)], s.writers[path := 0]);
    assert Step(s, sha, conditional, Open(0, false, true)) == s1;
    assert Object(s1.st, Local, path) + data == data;
    assert s.st.stores.local[path := []][path := data] == s.st.stores.local[path := data];
  }

  lemma CopyIsMade(s: Sys, sha: Sha, conditional: bool, f: FileRow, data: Bytes)
    requires 0 in s.moves && s.moves[0] == Move(f, Local, Absent) && !Has(s.st, Local, f.objectId)
    ensures After(s, sha, conditional, FirstCopies(data))
         == Sys(Put(s.st, Local, f.objectId, data), s.moves[0 := Move(f, Local, Copied)], s.writers - {f.objectId})
  {
    AfterThree(s, sha, conditional, Open(0, false, true), Write(0, data), PutDone(0, false));
    OpenedAndWritten(s, sha, conditional, f, data);
    assert s.moves[0 := Move(f, Local, Writing)][0 := Move(f, Local, Copied)] == s.moves[0 := Move(f, Local, Copied)];
    assert s.writers[f.objectId := 0] - {f.objectId} == s.writers - {f.objectId};
  }

  /** The second put finds the path taken and removes the copy the first has found right. */
  lemma CopyIsTaken(s: Sys, sha: Sha, conditional: bool, f: FileRow)
    requires 0 in s.moves && s.moves[0] == Move(f, Local, Copied) && 1 in s.moves && s.moves[1] == Move(f, Local, Absent)
    requires HoldsRight(s.st, sha, Local, f)
    ensures var last := After(s, sha, conditional, SecondPuts()).st;
            CurrentBackend(last.locations, f.fileId) == Local && !Has(last, Local, f.objectId)
  {
    AfterThree(s, sha, conditional, HashCopy(0), Open(1, false, true), Commit(0));
    var s1 := At(s, 0, Verified(true));
    assert Step(s, sha, conditional, HashCopy(0)) == s1;
    var s2 := At(Without(s1, s1.moves[1]), 1, Ended(Failed));
    assert Step(s1, sha, conditional, Open(1, false, true)) == s2;
    CurrentBackendSnoc(s.st.locations, RowFor(f, Local), f.fileId);
  }

  /** The second move finds the copy of the first and records it; then the first, which failed, removes it. */
  lemma CopyIsWithdrawn(s: Sys, sha: Sha, conditional: bool, f: FileRow)
    requires 0 in s.moves && s.moves[0] == Move(f, S3, Copied) && 1 in s.moves && s.moves[1] == Move(f, S3, Present)
    requires HoldsRight(s.st, sha, S3, f)
    ensures var last := After(After(s, sha, conditional, SecondFinds()), sha, conditional, FirstFails()).st;
            CurrentBackend(last.locations, f.fileId) == S3 && !Has(last, S3, f.objectId)
  {
    AfterThree(s, sha, conditional, HashCopy(0), HashExisting(1), Commit(1));
    var s1 := At(s, 0, Verified(true));
    var s2 := At(s1, 1, Verified(false));
    assert Step(s1, sha, conditional, HashExisting(1)) == s2;
    var s3 := After(s, sha, conditional, SecondFinds());
    CurrentBackendSnoc(s.st.locations, RowFor(f, S3), f.fileId);
    assert s3.moves[0] == Move(f, S3, Verified(true)) && CurrentBackend(s3.st.locations, f.fileId) == S3;
    WithdrawnAtOnce(s3, sha, conditional, f);
  }

  lemma WithdrawnAtOnce(s: Sys, sha: Sha, conditional: bool, f: FileRow)
    requires 0 in s.moves && s.moves[0] == Move(f, S3, Verified(true))
    ensures After(s, sha, conditional, FirstFails()).st == Remove(s.st, S3, f.objectId, Removes)
  {
    assert FirstFails() == [Raises(0, false)] + [DiscardCopy(0, Removes)] && [] + [Raises(0, false)] == [Raises(0, false)];
    AfterSnoc(s, sha, conditional, [], Raises(0, false));
    AfterSnoc(s, sha, conditional, [Raises(0, false)], DiscardCopy(0, Removes));
  }

  function SecondFinds(): seq<Event> {
    [HashCopy(0), HashExisting(1), Commit(1)]
  }

  /** The transaction of the first fails, and its copy is discarded. */
  function FirstFails(): seq<Event> {
    [Raises(0, false), DiscardCopy(0, Removes)]
  }

  /**
   Two migrations to local disk, in which nothing fails but the exclusive open that has to: both find
   the target empty; the first copies the file and finds the copy right; the put of the second fails
   because the path is taken, and removes it; the first records a copy that is gone.
   */
  lemma LocalCopyLost(st: State, sha: Sha, conditional: bool, f: FileRow)
    requires CurrentBackend(st.locations, f.fileId) == S3 && HoldsRight(st, sha, S3, f) && !Has(st, Local, f.objectId)
    ensures var es := Finding(0, f, Local) + Finding(1, f, Local) + FirstCopies(Object(st, S3, f.objectId)) + SecondPuts();
            !WellStored(After(Sys(st, map[], map[]), sha, conditional, es).st, sha, f)
  {
    var s0, data := Sys(st, map[], map[]), Object(st, S3, f.objectId);
    var one, two, copies := Finding(0, f, Local), Finding(1, f, Local), FirstCopies(data);
    AfterFinding(s0, sha, conditional, 0, f, Local);
    AfterConcat(s0, sha, conditional, one, two);
    AfterFinding(After(s0, sha, conditional, one), sha, conditional, 1, f, Local);
    var s2 := After(s0, sha, conditional, one + two);
    CopyIsMade(s2, sha, conditional, f, data);
    AfterConcat(s0, sha, conditional, one + two, copies);
    CopyIsTaken(After(s2, sha, conditional, copies), sha, conditional, f);
    AfterConcat(s0, sha, conditional, one + two + copies, SecondPuts());
  }

  /** Two migrations to S3, in which only the transaction of the first fails. */
  lemma FoundCopyLost(st: State, sha: Sha, conditional: bool, f: FileRow)
    requires CurrentBackend(st.locations, f.fileId) == Local && HoldsRight(st, sha, Local, f) && !Has(st, S3, f.objectId)
    ensures var es := Finding(0, f, S3) + [Upload(0, Object(st, Local, f.objectId))] + Finding(1, f, S3)
                      + SecondFinds() + FirstFails();
            !WellStored(After(Sys(st, map[], map[]), sha, conditional, es).st, sha, f)
  {
    var s0, data := Sys(st, map[], map[]), Object(st, Local, f.objectId);
    var one, two := Finding(0, f, S3) + [Upload(0, data)], Finding(1, f, S3);
    AfterFinding(s0, sha, conditional, 0, f, S3);
    AfterSnoc(s0, sha, conditional, Finding(0, f, S3), Upload(0, data));
    var s1 := After(s0, sha, conditional, one);
    assert s1 == Sys(Put(st, S3, f.objectId, data), map[0 := Move(f, S3, Copied)], map[]);
    AfterFinding(s1, sha, conditional, 1, f, S3);
    AfterConcat(s0, sha, conditional, one, two);
    CopyIsWithdrawn(After(s1, sha, conditional, two), sha, conditional, f);
    AfterConcat(s0, sha, conditional, one + two, SecondFinds());
    AfterConcat(s0, sha, conditional, one + two + SecondFinds(), FirstFails());
  }

  /** The file is made, found by another, removed, and made again. */
  function MadeAgain(s: Sys, sha: Sha, conditional: bool, a: nat, b: nat, c: nat): Sys {
    Step(Step(Step(s, sha, conditional, Open(a, false, true)), sha, conditional, Open(b, false, true)),
         sha, conditional, Open(c, false, true))
  }

  predicate MayOpen(s: Sys, id: nat, f: FileRow) {
    id in s.moves && s.moves[id] == Move(f, Local, Absent)
  }

  lemma Opens(s: Sys, sha: Sha, conditional: bool, id: nat, f: FileRow)
    requires MayOpen(s, id, f)
    ensures var t := Step(s, sha, conditional, Open(id, false, true));
            if Has(s.st, Local, f.objectId) then
              t == At(Without(s, Move(f, Local, Absent)), id, Ended(Failed)) && !Has(t.st, Local, f.objectId)
            else
              && t == At(s, id, Writing).(st := Put(s.st, Local, f.objectId, []), writers := s.writers[f.objectId := id])
              && Has(t.st, Local, f.objectId)
    ensures var t := Step(s, sha, conditional, Open(id, false, true));
            forall k | k in s.moves && k != id :: k in t.moves && t.moves[k] == s.moves[k]
  {
  }

  /** Only the move that made the file writes to it. */
  lemma WritesItsOwn(t: Sys, sha: Sha, conditional: bool, f: FileRow, a: nat, c: nat, chunk: Bytes, chmod: bool)
    requires a != c && a in t.moves && t.moves[a] == Move(f, Local, Writing) && c in t.moves && t.moves[c] == t.moves[a]
    requires f.objectId in t.writers && t.writers[f.objectId] == c
    requires Has(t.st, Local, f.objectId) && Object(t.st, Local, f.objectId) == []
    ensures Step(t, sha, conditional, Write(a, chunk)) == t
    ensures var done := Step(t, sha, conditional, PutDone(a, chmod));
            && done.st == t.st
            && Step(done, sha, conditional, Write(c, chunk)).st == Put(t.st, Local, f.objectId, chunk)
  {
    assert Object(t.st, Local, f.objectId) + chunk == chunk;
  }

  /**
   A move whose file another removed, and a third made anew, writes to no object: its writes reach the
   removed file alone, and when it is done with it the third still writes its own.
   */
  lemma RemovedFileIsNotWritten(
    s: Sys, sha: Sha, conditional: bool, f: FileRow, a: nat, b: nat, c: nat, chunk: Bytes, chmod: bool)
    requires a != b && b != c && a != c && MayOpen(s, a, f) && MayOpen(s, b, f) && MayOpen(s, c, f)
    requires !Has(s.st, Local, f.objectId)
    ensures var t := MadeAgain(s, sha, conditional, a, b, c);
            && In(t, Write(a, chunk), Writing) && In(t, Write(c, chunk), Writing)
            && Step(t, sha, conditional, Write(a, chunk)) == t
            && Step(t, sha, conditional, PutDone(a, chmod)).st == t.st
            && Step(Step(t, sha, conditional, PutDone(a, chmod)), sha, conditional, Write(c, chunk)).st
               == Put(t.st, Local, f.objectId, chunk)
  {
    Opens(s, sha, conditional, a, f);
    var s1 := Step(s, sha, conditional, Open(a, false, true));
    Opens(s1, sha, conditional, b, f);
    var s2 := Step(s1, sha, conditional, Open(b, false, true));
    Opens(s2, sha, conditional, c, f);
    WritesItsOwn(Step(s2, sha, conditional, Open(c, false, true)), sha, conditional, f, a, c, chunk, chmod);
  }

  // ---------------------------------------------------------------------------
  // A move with nothing beside it
  // ---------------------------------------------------------------------------

  /** One move, and nothing else in flight. */
  function Only(st: State, f: FileRow, target: Backend, p: Phase): Sys {
    Sys(st, map[0 := Move(f, target, p)], map[])
  }

  lemma OnlyAt(st: State, f: FileRow, target: Backend, p: Phase, q: Phase)
    ensures At(Only(st, f, target, p), 0, q) == Only(st, f, target, q)
  {
  }

  function RecordingCalls(copied: bool, x: Faults): seq<Event> {
    if !x.transaction then [Commit(0)]
    else [Raises(0, false)] + if copied then [DiscardCopy(0, x.secondDiscard)] else []
  }

  function WrongCopyCalls(x: Faults): seq<Event> {
    if x.firstDiscard.LeavesAndRaises? then [DiscardCopy(0, x.firstDiscard), DiscardCopy(0, x.secondDiscard)]
    else [DiscardCopy(0, x.firstDiscard)]
  }

  function HashingCalls(f: FileRow, sha: Sha, copy: Bytes, x: Faults): seq<Event> {
    if x.hashCopy.RaisesStorageError? then [Raises(0, true)]
    else if x.hashCopy.RaisesOther? then [Raises(0, false), DiscardCopy(0, x.secondDiscard)]
    else [HashCopy(0)]
         + if sha(copy) == f.sha256 then RecordingCalls(true, x) else WrongCopyCalls(x)
  }

  /** open_read and put_as; a put that leaves something behind is one to local disk whose removal fails. */
  function PutCalls(target: Backend, data: Bytes, maxBytes: nat, x: Faults): seq<Event> {
    var fits := 0 < |data| <= maxBytes;
    if !x.openSource.Fine? then [Raises(0, x.openSource.RaisesStorageError?)]
    else if x.put.PutRaises? && x.put.left.Some? then [Open(0, false, true), Write(0, x.put.left.value), PutFails(0, false)]
    else if x.put.PutRaises? then [Raises(0, x.put.storageError)]
    else if !fits && target.S3? then [Raises(0, true)]
    else if !fits then [Open(0, false, true), PutFails(0, true)]
    else if target.Local? then FirstCopies(Migrate.Copied(x, data))
    else [Upload(0, Migrate.Copied(x, data))]
  }

  predicate PutSucceeds(data: Bytes, maxBytes: nat, x: Faults) {
    x.openSource.Fine? && !x.put.PutRaises? && 0 < |data| <= maxBytes
  }

  function CopyCalls(f: FileRow, sha: Sha, target: Backend, data: Bytes, maxBytes: nat, x: Faults): seq<Event> {
    PutCalls(target, data, maxBytes, x)
    + if PutSucceeds(data, maxBytes, x) then HashingCalls(f, sha, Migrate.Copied(x, data), x) else []
  }

  function ExistingCalls(right: bool, x: Faults): seq<Event> {
    if !x.hashExisting.Fine? then [Raises(0, x.hashExisting.RaisesStorageError?)]
    else [HashExisting(0)] + if right then RecordingCalls(false, x) else []
  }

  /** The `try` block, from the look for a copy on the target. */
  function TryCalls(st: State, sha: Sha, f: FileRow, target: Backend, maxBytes: nat, x: Faults): seq<Event>
    requires Has(st, Other(target), f.objectId)
  {
    if !x.probe.Fine? then [Raises(0, x.probe.RaisesStorageError?)]
    else [Probe(0)]
         + if Has(st, target, f.objectId) then ExistingCalls(HoldsRight(st, sha, target, f), x)
           else CopyCalls(f, sha, target, Object(st, Other(target), f.objectId), maxBytes, x)
  }

  /** The calls that one pass of the loop makes, when `x` is what goes wrong. */
  function Calls(st: State, sha: Sha, f: FileRow, target: Backend, maxBytes: nat, x: Faults): seq<Event> {
    [Start(0, f, target), HashSource(0, x.hashSource, x.audit)]
    + if !x.hashSource.Fine? || !HoldsRight(st, sha, Other(target), f) then []
      else TryCalls(st, sha, f, target, maxBytes, x)
  }

  predicate Ends(t: Sys, r: (State, Outcome)) {
    0 in t.moves && (t.st, t.moves[0].phase) == (r.0, Ended(r.1))
  }

  lemma AfterOne(s: Sys, sha: Sha, conditional: bool, e: Event)
    ensures After(s, sha, conditional, [e]) == Step(s, sha, conditional, e)
  {
    assert [] + [e] == [e];
    AfterSnoc(s, sha, conditional, [], e);
  }

  lemma AfterTwo(s: Sys, sha: Sha, conditional: bool, a: Event, b: Event)
    ensures After(s, sha, conditional, [a, b]) == Step(Step(s, sha, conditional, a), sha, conditional, b)
  {
    assert [a] + [b] == [a, b];
    AfterOne(s, sha, conditional, a);
    AfterSnoc(s, sha, conditional, [a], b);
  }

  lemma AfterCons(s: Sys, sha: Sha, conditional: bool, e: Event, es: seq<Event>)
    ensures After(s, sha, conditional, [e] + es) == After(Step(s, sha, conditional, e), sha, conditional, es)
  {
    AfterConcat(s, sha, conditional, [e], es);
    AfterOne(s, sha, conditional, e);
  }

  function Row(st: State, f: FileRow, target: Backend): State {
    st.(locations := st.locations + [RowFor(f, target)])
  }

  /** How MoveOne goes on from its `try` block. */
  function Finish(t: Tried, f: FileRow, target: Backend, x: Faults): (State, Outcome) {
    if !t.raised.Fine? then Handle(t, target, f.objectId, t.raised, x)
    else if x.transaction then Handle(t, target, f.objectId, RaisesOther, x)
    else (Row(t.st, f, target), if t.copied then Moved else AlreadyThere)
  }

  lemma RecordingEnds(st: State, sha: Sha, conditional: bool, f: FileRow, target: Backend, copied: bool, x: Faults)
    ensures Ends(After(Only(st, f, target, Verified(copied)), sha, conditional, RecordingCalls(copied, x)),
                 Finish(Tried(st, copied, Fine), f, target, x))
  {
    var s := Only(st, f, target, Verified(copied));
    if !x.transaction {
      AfterOne(s, sha, conditional, Commit(0));
    } else if copied {
      AfterTwo(s, sha, conditional, Raises(0, false), DiscardCopy(0, x.secondDiscard));
      OnlyAt(st, f, target, Verified(copied), Discarding(false));
    } else {
      AfterOne(s, sha, conditional, Raises(0, false));
      assert [Raises(0, false)] + [] == [Raises(0, false)];
    }
  }

  lemma ExistingEnds(st: State, sha: Sha, conditional: bool, f: FileRow, target: Backend, maxBytes: nat, x: Faults)
    requires Has(st, Other(target), f.objectId) && Has(st, target, f.objectId) && x.probe.Fine?
    ensures Ends(After(Only(st, f, target, Present), sha, conditional, ExistingCalls(HoldsRight(st, sha, target, f), x)),
                 Finish(Try(st, sha, f, Other(target), target, maxBytes, x), f, target, x))
  {
    var s := Only(st, f, target, Present);
    if !x.hashExisting.Fine? {
      AfterOne(s, sha, conditional, Raises(0, x.hashExisting.RaisesStorageError?));
    } else {
      var right := HoldsRight(st, sha, target, f);
      AfterCons(s, sha, conditional, HashExisting(0), if right then RecordingCalls(false, x) else []);
      if right {
        OnlyAt(st, f, target, Present, Verified(false));
        RecordingEnds(st, sha, conditional, f, target, false, x);
      }
    }
  }

  /** The end of TryCopy, from the hash of the copy. */
  function HashTried(after: State, sha: Sha, f: FileRow, target: Backend, copy: Bytes, x: Faults): Tried {
    if !x.hashCopy.Fine? then Tried(after, true, x.hashCopy)
    else if sha(copy) != f.sha256 then
      Tried(Remove(after, target, f.objectId, x.firstDiscard), true,
            if x.firstDiscard.LeavesAndRaises? then RaisesOther else RaisesStorageError)
    else Tried(after, true, Fine)
  }

  lemma WrongCopyEnds(st: State, sha: Sha, conditional: bool, f: FileRow, target: Backend, x: Faults)
    ensures Ends(After(Only(st, f, target, Discarding(true)), sha, conditional, WrongCopyCalls(x)),
                 Finish(Tried(Remove(st, target, f.objectId, x.firstDiscard), true,
                              if x.firstDiscard.LeavesAndRaises? then RaisesOther else RaisesStorageError), f, target, x))
  {
    var s := Only(st, f, target, Discarding(true));
    if x.firstDiscard.LeavesAndRaises? {
      AfterTwo(s, sha, conditional, DiscardCopy(0, x.firstDiscard), DiscardCopy(0, x.secondDiscard));
      OnlyAt(st, f, target, Discarding(true), Discarding(false));
    } else {
      AfterOne(s, sha, conditional, DiscardCopy(0, x.firstDiscard));
    }
  }

  lemma HashRaises(st: State, sha: Sha, conditional: bool, f: FileRow, target: Backend, copy: Bytes, x: Faults)
    requires !x.hashCopy.Fine?
    ensures Ends(After(Only(st, f, target, Copied), sha, conditional, HashingCalls(f, sha, copy, x)),
                 Finish(Tried(st, true, x.hashCopy), f, target, x))
  {
    var s := Only(st, f, target, Copied);
    if x.hashCopy.RaisesStorageError? {
      AfterOne(s, sha, conditional, Raises(0, true));
    } else {
      AfterTwo(s, sha, conditional, Raises(0, false), DiscardCopy(0, x.secondDiscard));
      OnlyAt(st, f, target, Copied, Discarding(false));
    }
  }

  lemma HashingEnds(st: State, sha: Sha, conditional: bool, f: FileRow, target: Backend, copy: Bytes, x: Faults)
    requires Has(st, target, f.objectId) && Object(st, target, f.objectId) == copy
    ensures Ends(After(Only(st, f, target, Copied), sha, conditional, HashingCalls(f, sha, copy, x)),
                 Finish(HashTried(st, sha, f, target, copy, x), f, target, x))
  {
    var s := Only(st, f, target, Copied);
    if !x.hashCopy.Fine? {
      HashRaises(st, sha, conditional, f, target, copy, x);
    } else if sha(copy) == f.sha256 {
      AfterCons(s, sha, conditional, HashCopy(0), RecordingCalls(true, x));
      OnlyAt(st, f, target, Copied, Verified(true));
      RecordingEnds(st, sha, conditional, f, target, true, x);
    } else {
      AfterCons(s, sha, conditional, HashCopy(0), WrongCopyCalls(x));
      OnlyAt(st, f, target, Copied, Discarding(true));
      WrongCopyEnds(st, sha, conditional, f, target, x);
    }
  }

  /** What a put that fails leaves. */
  function Left(st: State, f: FileRow, target: Backend, x: Faults): State {
    if x.openSource.Fine? && x.put.PutRaises? && x.put.left.Some? then Put(st, target, f.objectId, x.put.left.value) else st
  }

  lemma PutMakesCopy(st: State, sha: Sha, conditional: bool, f: FileRow, target: Backend, data: Bytes, maxBytes: nat, x: Faults)
    requires !Has(st, target, f.objectId) && PutSucceeds(data, maxBytes, x)
    ensures After(Only(st, f, target, Absent), sha, conditional, PutCalls(target, data, maxBytes, x))
         == Only(Put(st, target, f.objectId, Migrate.Copied(x, data)), f, target, Copied)
  {
    var s := Only(st, f, target, Absent);
    if target.Local? {
      CopyIsMade(s, sha, conditional, f, Migrate.Copied(x, data));
    } else {
      AfterOne(s, sha, conditional, Upload(0, Migrate.Copied(x, data)));
    }
  }

  lemma PutLeaves(st: State, sha: Sha, conditional: bool, f: FileRow, data: Bytes)
    requires !Has(st, Local, f.objectId)
    ensures Ends(After(Only(st, f, Local, Absent), sha, conditional, [Open(0, false, true), Write(0, data), PutFails(0, false)]),
                 (Put(st, Local, f.objectId, data), Failed))
  {
    var s := Only(st, f, Local, Absent);
    AfterThree(s, sha, conditional, Open(0, false, true), Write(0, data), PutFails(0, false));
    OpenedAndWritten(s, sha, conditional, f, data);
  }

  lemma PutFailsAlone(st: State, sha: Sha, conditional: bool, f: FileRow, target: Backend, data: Bytes, maxBytes: nat, x: Faults)
    requires !Has(st, target, f.objectId) && !PutSucceeds(data, maxBytes, x)
    requires x.put.PutRaises? && x.put.left.Some? ==> target.Local?
    ensures Ends(After(Only(st, f, target, Absent), sha, conditional, PutCalls(target, data, maxBytes, x)),
                 (Left(st, f, target, x), Failed))
  {
    var s, id := Only(st, f, target, Absent), f.objectId;
    if !x.openSource.Fine? {
      AfterOne(s, sha, conditional, Raises(0, x.openSource.RaisesStorageError?));
    } else if x.put.PutRaises? && x.put.left.Some? {
      PutLeaves(st, sha, conditional, f, x.put.left.value);
    } else if x.put.PutRaises? {
      AfterOne(s, sha, conditional, Raises(0, x.put.storageError));
    } else if target.S3? {
      AfterOne(s, sha, conditional, Raises(0, true));
    } else {
      AfterTwo(s, sha, conditional, Open(0, false, true), PutFails(0, true));
      assert With(st.stores.local, id, []) - {id} == st.stores.local;
    }
  }

  lemma CopyEnds(st: State, sha: Sha, conditional: bool, f: FileRow, target: Backend, maxBytes: nat, x: Faults)
    requires Has(st, Other(target), f.objectId) && !Has(st, target, f.objectId) && x.probe.Fine?
    requires x.put.PutRaises? && x.put.left.Some? ==> target.Local?
    ensures var data := Object(st, Other(target), f.objectId);
            Ends(After(Only(st, f, target, Absent), sha, conditional, CopyCalls(f, sha, target, data, maxBytes, x)),
                 Finish(Try(st, sha, f, Other(target), target, maxBytes, x), f, target, x))
  {
    var s, data := Only(st, f, target, Absent), Object(st, Other(target), f.objectId);
    var puts, copy := PutCalls(target, data, maxBytes, x), Migrate.Copied(x, data);
    if PutSucceeds(data, maxBytes, x) {
      var after := Put(st, target, f.objectId, copy);
      PutMakesCopy(st, sha, conditional, f, target, data, maxBytes, x);
      HashingEnds(after, sha, conditional, f, target, copy, x);
      AfterConcat(s, sha, conditional, puts, HashingCalls(f, sha, copy, x));
      assert Try(st, sha, f, Other(target), target, maxBytes, x) == HashTried(after, sha, f, target, copy, x);
    } else {
      PutFailsAlone(st, sha, conditional, f, target, data, maxBytes, x);
      assert puts + [] == puts;
    }
  }

  lemma TryEnds(st: State, sha: Sha, conditional: bool, f: FileRow, target: Backend, maxBytes: nat, x: Faults)
    requires Has(st, Other(target), f.objectId)
    requires x.put.PutRaises? && x.put.left.Some? ==> target.Local?
    ensures Ends(After(Only(st, f, target, SourceRight), sha, conditional, TryCalls(st, sha, f, target, maxBytes, x)),
                 Finish(Try(st, sha, f, Other(target), target, maxBytes, x), f, target, x))
  {
    var s := Only(st, f, target, SourceRight);
    if !x.probe.Fine? {
      AfterOne(s, sha, conditional, Raises(0, x.probe.RaisesStorageError?));
    } else if Has(st, target, f.objectId) {
      AfterCons(s, sha, conditional, Probe(0), ExistingCalls(HoldsRight(st, sha, target, f), x));
      OnlyAt(st, f, target, SourceRight, Present);
      ExistingEnds(st, sha, conditional, f, target, maxBytes, x);
    } else {
      AfterCons(s, sha, conditional, Probe(0), CopyCalls(f, sha, target, Object(st, Other(target), f.objectId), maxBytes, x));
      OnlyAt(st, f, target, SourceRight, Absent);
      CopyEnds(st, sha, conditional, f, target, maxBytes, x);
    }
  }

  /**
   With nothing beside them the calls of a move come to what `Migrate.MoveOne` says, for every fault:
   the same objects, the same rows, the same outcome.
   */
  lemma MoveAloneIsMoveOne(st: State, sha: Sha, conditional: bool, f: FileRow, target: Backend, maxBytes: nat, x: Faults)
    requires CurrentBackend(st.locations, f.fileId) == Other(target)
    requires x.put.PutRaises? && x.put.left.Some? ==> target.Local?
    ensures Ends(After(Sys(st, map[], map[]), sha, conditional, Calls(st, sha, f, target, maxBytes, x)),
                 MoveOne(st, sha, f, target, maxBytes, false, x))
  {
    var s0, start, hash := Sys(st, map[], map[]), Start(0, f, target), HashSource(0, x.hashSource, x.audit);
    AfterTwo(s0, sha, conditional, start, hash);
    assert Step(s0, sha, conditional, start) == Only(st, f, target, Listed);
    if !x.hashSource.Fine? || !HoldsRight(st, sha, Other(target), f) {
      assert [start, hash] + [] == [start, hash];
    } else {
      OnlyAt(st, f, target, Listed, SourceRight);
      AfterConcat(s0, sha, conditional, [start, hash], TryCalls(st, sha, f, target, maxBytes, x));
      TryEnds(st, sha, conditional, f, target, maxBytes, x);
    }
  }
}
