# FORGE-X: what the evidence core keeps, proved

FORGE-X is a case-management system for a forensic laboratory: a Flask application on MySQL, with
evidence files on local disk or in an S3 bucket. This project models the parts of it that carry
state and promises, in Dafny, and proves those promises for all inputs, all runs and all
interleavings. `dafny verify dfyconfig.toml` checks everything.

## How it is organised

| file | what it models |
|---|---|
| `RowLock.dfy` | transactions that lock one parent row, read with a plain SELECT, write and commit; any number of them interleaved, each may fail at any step. Serializability, and two principles that carry a property of single operations to every run |
| `HashChain.dfy`, `Integrity.dfy` | the append-only reference hashes, checks and file of an evidence item, as an instance of `RowLock`; and the service, call by call |
| `Storage.dfy`, `Migrate.dfy`, `EvidenceFiles.dfy` | the two storage backends, the verified move of files between them by one migration, and registering or attaching a file, with a fault injected at every step |
| `ConcurrentMigrations.dfy` | several migrations at once: the calls of any number of moves, in both directions, interleaved, each call with its faults |
| `Custody.dfy`, `Examinations.dfy` | the chain of custody and the examination workflow, also instances of `RowLock`; and their services |
| `Administrators.dfy`, `Sessions.dfy` | "at least one active administrator" under concurrent transactions; session cookies and their revocation with overlapping requests |
| `Graph.dfy`, `Relationships.dfy`, `CaseGraph.dfy`, `Expansion.dfy`, `GraphText.dfy`, `GraphService.dfy` | the capped graph builder, the queries of the relationship graph and their non-interference, what a case's graph and an expansion contain and say, and the loops that build them |
| `Limiter.dfy`, `LoginThrottle.dfy` | the sliding-window request limiter and the login throttle |
| `LikePattern.dfy`, `Pagination.dfy` | the LIKE escape under the matcher of ISO/IEC 9075:1992 section 8.5, and the pager |

SHA-256 is an arbitrary function of bytes. The clock, the outcome of a password check, the failure of
any call to the operating system, the object store or the database, and what other services decided
about a user are parameters. A number drawn by AUTO_INCREMENT is never drawn again and grows; it is lost
when its transaction rolls back. The clock goes forward along the ids of one evidence item, which its
lock puts in order, and not along those of different items.

MySQL runs at REPEATABLE READ (`docs/VIVA_GUIDE.md:90-92`): a transaction's first plain read fixes what
its later plain reads see. So a plain read sees everything committed before the lock, as
`app/integrity/services.py:25-33` says, when the first one is made after the lock; and a locking read
sees the row as it is. Every transaction modelled here reads in one of these two ways, except
`sp_record_custody_correction`, whose first statement is a plain read before the lock
(`database/procedures.sql:514-522`). It is modelled with that older read view.

The Python code relies on stored procedures, triggers and constraints of `database/`; where it does,
the model takes their steps too.

## Where the code and its documentation disagree

The model follows the code. Each point has a lemma with the failing input, and one with the exact
condition under which the promise holds.

* `LocalStorage.put_as` "never overwrites: fails if the object already exists"
  (`app/storage/__init__.py:61-62`). It fails, but its handler then removes the existing object, because
  the file is opened inside the `try`. On a healthy disk the promise holds if and only if the id is
  absent (`Storage.LocalPutOnceIffAbsent`, `Storage.LocalPutRemovesExisting`; for any fault,
  `Storage.LocalPutOnceIff`). Registering and attaching use fresh ids. A migration looks for the object
  before it puts one, but not in the same step: two migrations of the same file to local disk can both
  find nothing there.
* "The source copy is NEVER deleted, so ... nothing is lost" (`app/storage/migrate.py:13-14`). With one
  migration of a file at a time its readability is never lost (`Migrate.MigrationKeepsFilesReadable`,
  `ConcurrentMigrations.OneAtATimeIsSafe`). With two at once the put of one can remove the copy the other
  is about to record (`ConcurrentMigrations.LocalCopyLost`), and the compensation of one the copy the
  other has recorded (`ConcurrentMigrations.FoundCopyLost`); the source still exists, but the file is read
  from where the last row says. In any interleaving the file stays readable if and only if no put and no
  compensation takes away, or makes wrong, a copy that is its current location or that another move has
  found right and not yet recorded (`ConcurrentMigrations.FileStaysReadableIff`).
* "Storage never holds a file the database doesn't know about" (`app/evidence/files.py:3-6`). A failure
  of the look-up between the two transactions of `register_with_file`, or an exception other than a
  DatabaseError in the second, leaves the object (`EvidenceFiles.CleanRegisterLeavesIff`,
  `EvidenceFiles.FailedLookupLeavesTheObject`, `EvidenceFiles.EvidenceStore.RegisterWithFile`).
* The counts of `migrate` fall short of the files handled exactly in a dry run with a well-stored,
  readable file to move, which is announced and not counted (`Migrate.CountsSumToFiles`). A migration
  repeated with the same `limit` goes on to further files exactly when it moved one
  (`Migrate.LimitedRepeatStaysIff`): as long as none of the first `limit` files can be moved, it never
  gets past them.
* The current custodian and location are those of the latest custody entry
  (`tests/test_data_consistency_db.py:16-24`). The service compares the time of a handover with the
  latest entry before the evidence row is locked, so an export or another entry in between leaves the
  latest entry behind (`Custody.RaceLeavesLatestBehind`, `Custody.TransferKeepsLatestIff`).
* The evidence row follows its custody log (`database/schema.sql:276`). A correction that waits for the
  lock looks for the latest entry in the read view it opened before, and undoes a handover committed in
  between on the evidence row, but not in the log (`Custody.StaleCorrectionUndoesAHandover`,
  `Custody.CorrectionKeepsGoodIff`, `Custody.CorrectionKeepsLatestIff`). The promises hold in every
  interleaving whose transfers and corrections are timely in the sense of these conditions
  (`Custody.CustodyInEveryRun`, `Custody.LatestInEveryTimelyRun`), and would in every one with both
  reads under the lock (`Custody.LatestInEveryCheckedRun`).
* A correction moves the item "if the corrected entry is the item's most recent one"
  (`database/procedures.sql:485-486`). It does so if and only if no entry it sees is later in time, which
  an older entry of the same minute also meets (`Custody.CorrectionMovesIff`,
  `Custody.CorrectingAnOlderEntryMovesTheItem`).
* After a password reset the temporary password must be changed (`app/users/services.py:251-252`). A
  password change already past its checks undoes the reset and keeps its session
  (`Sessions.ChangeInFlightUndoesReset`, `Sessions.ResetUndone`). In every continuation of a run the
  first change that commits was checked against the temporary password if and only if none of that
  user was past its checks at the reset (`Sessions.ResetHoldsIff`).
* Expanding an evidence item, rule, examination, report or artifact whose id is written with leading
  zeros finds the record and loses the edges of the node (`Expansion.PaddedNodeHasNoEdges`). The node
  asked for is in the graph, and joined to its case or examination, if and only if its id has none
  (`Expansion.ExpandedNodeIsThereIff`), and within the cap every edge asked for is drawn if and only if
  it has none or no edge is asked for (`Expansion.ExpansionIsCompleteIff`). A user appears under the id
  as written, and a case as usual (`Expansion.PaddedCaseOrUser`).
* The limiter's window is half-open. With both its ends it can hold more than the limit, exactly when a
  request lies on its right end and the one `limit` places before it on its left end
  (`Limiter.ClosedWindowHoldsMoreIff`, `Limiter.ClosedWindowMayHoldMore`, `Limiter.NoWindowHoldsMore`).

## Model

| member | source | states |
|---|---|---|
| `RowLock.RunInv` | app/integrity/services.py:25-48 | every reachable state: a row's lock is held by exactly one transaction, and what a transaction read after locking is still what is committed |
| `RowLock.Serializable` | README.md:841 | design decision D8: locking only the parent row makes every interleaving equal to the committed operations run one after the other in commit order, and ids drawn on a row are committed in order |
| `RowLock.GoodInEveryRun` | README.md:841 | a property of one row that each operation keeps when alone holds of every committed row in every interleaving |
| `RowLock.GoodWhenTurnsOk` | README.md:841 | the same for runs whose operations on the row met a condition when their turns came, and a property kept by such operations |
| `RowLock.RelatedInEveryRun` | README.md:841 | a relation that each operation alone establishes between before and after holds between any two moments of every interleaving |
| `HashChain.OneTip` | app/integrity/services.py:25-39 | on a chain of corrections the query for the unsuperseded hash has one answer only, the last hash row |
| `HashChain.CurrentIsLast` | app/integrity/services.py:25-39 | `_current_hash` returns the last hash row, or nothing exactly when there is none |
| `HashChain.TriggerAgrees` | database/triggers.sql:99-116 | the trigger accepts a check of the current hash and decides Verified exactly when the computed hash equals it |
| `HashChain.PlanKeepsGood` | app/integrity/services.py:51-109 | recording, correcting, verifying and attaching each keep the chain, the order of ids, the checks and the file row right; so does recording a registered file whose hash is still recorded |
| `HashChain.OwnFileIsRecorded` | app/evidence/files.py:115-126 | whatever commits between the two transactions of register_with_file, the hash of its file is still a recorded one when the second commits |
| `HashChain.ChainInEveryRun` | app/integrity/services.py:25-109 | in every interleaving of record, correct, verify, attach and register transactions, register_with_file's two among them, an item's hashes are one line of corrections with adjacent values different, each check was made against the reference of its moment, and its one file at most has a recorded hash |
| `HashChain.UniqueKeysNeverFire` | database/schema.sql:346-370 | no hash row is superseded twice and no item has two originals, so the unique keys are never violated |
| `HashChain.RowsOnlyAppended` | database/triggers.sql:43-61 | between two moments of any run an item only gains rows |
| `HashChain.FileStaysRecorded` | tests/test_data_consistency_db.py:54-58 | the SHA-256 of a stored file stays one of its item's recorded hashes whatever is corrected later |
| `HashChain.StatusIsIncremental` | database/views.sql:38-60 | the integrity status the view derives from the whole log equals the simple one: Not Verified, Pending on record or correction, then the outcome of each check |
| `Integrity.IntegrityService.RecordOriginalHash` | app/integrity/services.py:51-67 | refused exactly with its reason and nothing changed; otherwise one original hash row and status Pending; the serial reading of the operation in either case |
| `Integrity.IntegrityService.Verify` | app/integrity/services.py:70-87 | possible exactly when a hash is recorded; returns and records Verified exactly when the computed hash equals the current reference |
| `Integrity.IntegrityService.CorrectHash` | app/integrity/services.py:90-109 | refused without a hash or for the same value; otherwise the chain grows by one row that supersedes the tip, and the status is Pending again |
| `Integrity.IntegrityService.Register` | database/procedures.sql:280-356 | a new item starts Not Verified, or Pending with its original hash |
| `Storage.LocalStorage.PutAs` | app/storage/__init__.py:60-85 | what the chunk loop and its handler leave on disk and return, for every fault, chunking and limit |
| `Storage.LocalStorage.Sha256` | app/storage/__init__.py:93-103 | re-hashing a stored object returns the hash and length of exactly its bytes |
| `Storage.LocalPutOnce` | app/storage/__init__.py:60-85 | with a fresh id and working clean-up: either exactly the bytes of the stream are stored, 1 to max_bytes of them, and their length and hash returned, or nothing changed |
| `Storage.LocalPutOnceIffAbsent` | app/storage/__init__.py:60-85 | the write-once promise holds on a healthy disk if and only if the id is absent |
| `Storage.LocalPutOnceIff` | app/storage/__init__.py:60-85 | exactly under which faults the promise holds, for an id that is absent or not |
| `Storage.LocalPutRemovesExisting` | app/storage/__init__.py:66-83 | a put with an existing id that destroys the stored object |
| `Storage.S3Storage.PutAs` | app/storage/s3.py:96-124 | the upload happens only for a complete stream within the limit, and every failure leaves the bucket as it was |
| `Storage.S3PutOnceIff` | app/storage/s3.py:96-124 | S3 keeps the same promise for every id with conditional writes, and without them exactly when the id is absent or the call fails |
| `Storage.S3Storage.DiscardUnrecorded` | app/storage/s3.py:179-182 | removes the object or, when the call fails, silently leaves everything as it was |
| `Storage.ChunkingIsIrrelevant` | app/storage/__init__.py:60-85 | both backends store, count and hash the same bytes alike, however the stream is cut |
| `Migrate.Migration.Move` | app/storage/migrate.py:47-96 | one turn of the loop, with its flag and compensation, under any fault, is the specified move |
| `Migrate.Migration.MoveAll` | app/storage/migrate.py:47-97 | the loop handles the files in order, stops only where an exception escapes, and counts each outcome once |
| `Migrate.Migration.MigrateTo` | app/storage/migrate.py:36-97 | handles, in file order, the first files that are not on the target: `limit` of them or all when there are no more; one outcome for each and their counts, unless an exception escapes |
| `Migrate.CurrentBackendIs` | app/storage/migrate.py:22-28 | a file is where its last location row says, and on local disk without one |
| `Migrate.MovePreserves` | app/storage/migrate.py:13-14 | whatever fails, no stored object changes or goes, and only the file's own object can appear, only on the target |
| `Migrate.MoveRecords` | app/storage/migrate.py:81-88 | a location row is written exactly when the file is counted as moved or already there, with before, after and recorded hash equal, and then the target holds the right bytes |
| `Migrate.OutcomeIff` | app/storage/migrate.py:50-96 | exactly which files are skipped, announced, found in place or moved, for every fault |
| `Migrate.MoveKeepsWellStored` | app/storage/migrate.py:47-96 | a file whose current location holds the recorded bytes still has such a location after any move |
| `Migrate.UnrecordedCopyIff` | app/storage/migrate.py:67-94 | exactly which faults leave a copy on the target that no row records |
| `Migrate.UnrecordedCopyWithWorkingRemovals` | app/storage/migrate.py:89-94 | when removals work, only a StorageError from re-hashing the copy leaves one |
| `Migrate.LeftoverAdoptedOrReported` | app/storage/migrate.py:69-72 | the next run adopts such a leftover exactly when its hash is right, and otherwise reports it untouched |
| `Migrate.MigrationPreserves` | app/storage/migrate.py:36-97 | the same over a whole run with any faults: nothing stored before changes, the location log only grows, by verified rows |
| `Migrate.MigrationKeepsFilesReadable` | app/storage/migrate.py:13-14 | over a whole run with any faults, and no other migration beside it, every well-stored file stays well stored |
| `Migrate.EveryFileHasAnOutcome` | app/storage/migrate.py:42-97 | unless an exception escapes, each file is counted or announced once, and a dry run moves none |
| `Migrate.DryRunAnnounces` | app/storage/migrate.py:64-66 | a dry run changes nothing and announces exactly the well-stored files it can read |
| `Migrate.CountsSumToFiles` | app/storage/migrate.py:37-43 | the four counts fall short of the files handled exactly when the run is a dry run and some file of its list is well stored and can be read |
| `Migrate.RunIsPointwise` | app/storage/migrate.py:47-97 | without faults the files do not affect each other: each ends as if moved alone |
| `Migrate.ThereAndBack` | app/storage/migrate.py:10-14 | two fault-free runs of migrate, one there and one back: every file copied by the first is in the list of the second, is found in place, and is on its first backend again with the same bytes |
| `Migrate.RepeatedMigrationChangesNothing` | app/storage/migrate.py:43-97 | after a fault-free migration without a limit, another to the same backend, limited or not, changes nothing |
| `Migrate.WellStoredIsMoved` | app/storage/migrate.py:46 | a fault-free migration moves every non-empty well-stored file of its list that is as long as recorded and new to the target, whatever the configured limit is now |
| `Migrate.LimitedRepeatGoesOn` | app/storage/migrate.py:43 | a limited migration leaves to do the files it could not move, then those it did not reach |
| `Migrate.LimitedRepeatStaysIff` | app/storage/migrate.py:43 | repeated with the same limit it takes the same files exactly when it moved none |
| `ConcurrentMigrations.StepIff` | app/storage/migrate.py:67-94 | from a state in which each copy of a file that a row names, or that a move has found right, is right, one call of any move keeps that so if and only if it is none of those that undo a copy |
| `ConcurrentMigrations.RunIsSafeIff` | app/storage/migrate.py:47-96 | the same over every interleaving of any number of moves of any files in both directions |
| `ConcurrentMigrations.SafeIff` | app/storage/migrate.py:81-88 | that state is one in which the file is well stored whichever of the moves in flight commit next, and no other |
| `ConcurrentMigrations.FileStaysReadableIff` | app/storage/migrate.py:13-14 | starting from a well-stored file and nothing in flight, the file is well stored at every moment, whichever moves commit next, if and only if no call undoes a copy |
| `ConcurrentMigrations.OneAtATimeIsSafe` | app/storage/migrate.py:13-14 | when no two moves of the file are under way at once, whatever else is and whatever fails, it stays well stored |
| `ConcurrentMigrations.LocalCopyLost` | app/storage/__init__.py:66-83 | two migrations to local disk after which the file's recorded location has no object, though nothing failed but the exclusive open that has to |
| `ConcurrentMigrations.FoundCopyLost` | app/storage/migrate.py:89-92 | two migrations to S3 after which the same is so, though only one transaction failed |
| `ConcurrentMigrations.RemovedFileIsNotWritten` | app/storage/__init__.py:66-83 | a put whose file another put removed and a third made anew writes to no object, and the third goes on writing its own |
| `ConcurrentMigrations.MoveAloneIsMoveOne` | app/storage/migrate.py:47-96 | with nothing beside them the calls of a move come to `Migrate.MoveOne`: same objects, rows and outcome, for every fault |
| `EvidenceFiles.EvidenceStore.RegisterWithFile` | app/evidence/files.py:102-133 | on every path, with any commits of others between its two transactions, what is stored and recorded, and exactly when an object without a row is left |
| `EvidenceFiles.CleanRegisterLeavesIff` | app/evidence/files.py:102-133 | with working clean-up an object is left exactly when the look-up between the transactions fails, or the second fails with another exception |
| `EvidenceFiles.FailedLookupLeavesTheObject` | app/evidence/files.py:122 | a store after the one failing query: it holds an object that no row names, and the item without its file |
| `EvidenceFiles.EvidenceStore.Attach` | app/evidence/files.py:139-169 | a file is attached exactly when, under the lock, there is none and it matches the reference hash; it becomes the reference when there is none; an item with a file, a file the store refuses and a wrong one are refused, anything else is raised; either removes the object, unless the removal itself fails |
| `EvidenceFiles.PlannedAttach` | app/evidence/files.py:139-169 | the attaching transactions in the interleavings of hash rows are these: allowed with no file and a fitting reference, adding the file and, without a reference, its hash as the original |
| `EvidenceFiles.EvidenceStore.VerifyStored` | app/evidence/files.py:175-196 | the stored bytes, whatever they are, are hashed, and the check recorded with that hash is Verified exactly when it equals the reference under the lock; for unharmed files, exactly while the reference is the file's own hash; nothing is recorded exactly when the file is missing or unreadable or the transaction fails |
| `EvidenceFiles.EvidenceStore.InsertFileRow` | app/evidence/files.py:88-96 | the file row is added only to an item without one and with the file's hash recorded, and names the stored object |
| `EvidenceFiles.EvidenceStore.Discard` | app/evidence/files.py:81-85 | removes an unrecorded object, or leaves everything as it was |
| `EvidenceFiles.FileHasReference` | app/evidence/files.py:175-196 | an item with a file always has a current reference hash, the last of its chain |
| `Custody.OfferedIsAccepted` | app/custody/services.py:25-56 | the Python table and the SQL CASE agree: the form offers exactly what the procedure accepts for that status and user |
| `Custody.LatestIsLatest` | database/procedures.sql:538-542 | the latest entry is after every other by time, then by id |
| `Custody.PlanKeepsGood` | database/procedures.sql:361-556 | each transfer, each export and each correction with a recent enough read view keeps custodian, location and status equal to the replay of the entries, and each handover given by the then custodian |
| `Custody.LogInEveryRun` | app/custody/services.py:25-40 | in every interleaving the status is the replay of the entries, every action was allowed at its moment, every correction repeats an earlier entry, no entry is later than its recording |
| `Custody.StatusInEveryRun` | app/custody/services.py:25-40 | in every interleaving an item is In Transit exactly until its first deciding action, and then where the last one put it: Received, Stored and Returned in storage, Checked Out, Examined, Released and Archived each in its own status |
| `Custody.CustodyInEveryRun` | app/custody/services.py:240-274 | in every interleaving whose corrections of the item had recent enough read views, custodian and location too are the replay, and every handover was given by the then custodian |
| `Custody.CorrectionKeepsGoodIff` | database/procedures.sql:514-549 | a correction keeps the evidence row in step with the log exactly when no entry its read view missed is later than the one corrected while none it saw is, or it changes neither custodian nor location |
| `Custody.CorrectionKeepsLatestIff` | database/procedures.sql:514-549 | and the latest entry in step with the item, under the same condition |
| `Custody.StaleCorrectionUndoesAHandover` | database/procedures.sql:514-549 | a correction whose read view is older than a handover, after which the evidence row and the log disagree |
| `Custody.LifeInEveryRun` | app/custody/services.py:25-40 | over every run entries are never edited or removed, In Transit is never re-entered, only Archived follows Released, and after Archived come only exports and corrections |
| `Custody.TransferKeepsLatestIff` | app/custody/services.py:249-258 | a transfer keeps the latest entry in step with the item exactly when it is not dated before the last entry or changes neither custodian nor location |
| `Custody.UndatedTransferKeepsLatest` | database/procedures.sql:465 | a transfer without a time of its own is never early |
| `Custody.ExportKeepsLatest` | app/evidence/files.py:199-234 | an export changes neither custodian, location nor status, and becomes the latest entry in step with them |
| `Custody.CorrectionMovesIff` | database/procedures.sql:528-549 | a correction moves the item exactly when no entry it sees is later in time than the one it corrects, and never changes the status |
| `Custody.CorrectingAnOlderEntryMovesTheItem` | database/procedures.sql:485-549 | correcting the older of two entries of the same minute undoes the later handover |
| `Custody.RaceLeavesLatestBehind` | app/custody/services.py:249-258 | a checked transfer, overtaken by an export, that leaves the latest entry naming the old custodian |
| `Custody.LatestInEveryTimelyRun` | tests/test_data_consistency_db.py:16-24 | in every interleaving whose transfers and corrections of the item were timely the latest entry says where it is |
| `Custody.LatestInEveryCheckedRun` | tests/test_data_consistency_db.py:16-24 | were the time of a handover and the latest entry of a correction both read under the lock, it would in every interleaving |
| `Custody.CustodyService.Register` | database/procedures.sql:280-356 | a new item is In Transit with its collector, by one Collected entry and nothing else |
| `Custody.CustodyService.Transfer` | app/custody/services.py:240-259 | serially: accepted exactly under the rules of form and procedure; then one entry more, given by the expected custodian, the latest, and the item is where it says in the status each action leads to |
| `Custody.CustodyService.Export` | app/evidence/files.py:214-230 | one entry more, from and to the custodian; nothing else about the item changes |
| `Custody.CustodyService.OpenForDownload` | app/evidence/files.py:199-235 | a copy leaves exactly when the file opens and its export is recorded; otherwise nothing is recorded |
| `Custody.CustodyService.CorrectEntry` | app/custody/services.py:262-274 | accepted exactly for an entry of the log that is no export, by staff, with a place; one entry more that repeats the corrected one, and the item follows it exactly when no entry is later |
| `Custody.CorrectionsAreThose` | app/evidence/services.py:264-270 | an entry's corrections are exactly the entries that correct it |
| `Custody.Timeline` | app/evidence/services.py:244-272 | the dictionary loop lists for every entry exactly its corrections, in order |
| `Examinations.PlanKeepsGood` | app/examinations/services.py:159-365 | every action keeps the workflow rules of a case |
| `Examinations.WorkflowInEveryRun` | app/examinations/services.py:159-365 | in every interleaving of examination actions, evidence registrations, lead changes and closures the rules hold, also when creation races with closure |
| `Examinations.CompletedMeans` | app/examinations/services.py:280-289 | a completed examination was approved by someone other than its examiner, has tools and findings, and its record, links and artifacts are those last submitted |
| `Examinations.ClosedMeans` | database/procedures.sql:677-726 | every examination of a closed case is completed or cancelled |
| `Examinations.LifeInEveryRun` | database/triggers.sql:253-261 | completed and cancelled examinations never change, nothing in a closed case changes, artifacts and links are never removed, Pending is never re-entered |
| `Examinations.OneTurn` | app/examinations/services.py:247-309 | start, submit, approve, return and cancel each turn one status into another, and nothing else changes a status |
| `Examinations.EndedInEveryRun` | app/examinations/services.py:280-309 | in every interleaving an examination is Completed exactly when an approval of it has been committed, and Cancelled exactly when a cancellation has |
| `Examinations.CaseActions` | app/access.py:81-86 | registering evidence, naming a lead and changing the status happen exactly in an open case by whoever may, the status never to Closed, and do just that |
| `Examinations.InsertLinks` | app/examinations/services.py:180-183 | the inserts succeed together exactly when the items are distinct, new and of the same case |
| `Examinations.ExaminationService.CreateExamination` | app/examinations/services.py:159-188 | possible exactly in an open case, with an eligible examiner and distinct items of the case; one fresh, empty, Pending examination with those links and nothing else |
| `Examinations.ExaminationService.UpdateTheRecord` | app/examinations/services.py:232-244 | possible exactly for examiner, case lead or administrator while it is Pending or In Progress in an open case; then the record holds the texts, empty ones as none, and nothing else changes |
| `Examinations.ExaminationService.StartExamination` | app/examinations/services.py:247-254 | turns exactly a Pending examination the user may work on into a started one In Progress, and nothing else |
| `Examinations.ExaminationService.SubmitForReview` | app/examinations/services.py:257-268 | turns an examination In Progress with tools and findings to Under Review, its content noted as submitted, and nothing else |
| `Examinations.ExaminationService.ApproveExamination` | app/examinations/services.py:280-289 | possible exactly for an administrator or the case lead who is not the examiner; completes exactly the content that was submitted |
| `Examinations.ExaminationService.ReturnForRevision` | app/examinations/services.py:292-299 | possible exactly for such a reviewer with a note; back to In Progress, and nothing else |
| `Examinations.ExaminationService.CancelExamination` | app/examinations/services.py:302-309 | possible exactly with a reason for a user who may work on it; Cancelled, and nothing else |
| `Examinations.ExaminationService.LinkMoreEvidence` | app/examinations/services.py:312-324 | links all items or none: exactly distinct items of the case not yet linked; nothing else changes |
| `Examinations.ExaminationService.RecordArtifact` | app/examinations/services.py:345-365 | appends one artifact, exactly while work is allowed, with text, from linked evidence and correcting only its own examination's artifacts; nothing else changes |
| `Examinations.ExaminationService.Close` | database/procedures.sql:677-726 | closes exactly an open case whose examinations are all completed or cancelled, with a summary, no evidence out, by an administrator or its lead; nothing else changes |
| `Administrators.AnAdministratorRemains` | app/users/services.py:185-247 | in every interleaving of deactivations, revocations, activations, role additions and new users, with locking reads that go row by row, an active administrator remains and every user keeps a role |
| `Administrators.SomebodyAhead` | app/users/services.py:185-201 | while one transaction takes an administrator away, a locking read that has found nobody yet still has one ahead |
| `Administrators.DeactivationKeepsInv` | app/users/services.py:230-247 | a deactivation decided under the locks leaves another active administrator, and does not disturb what other transactions read |
| `Administrators.RevocationKeepsInv` | app/users/services.py:213-227 | the same for a revocation, which also leaves its user a role |
| `Administrators.PlainReadsAreNotEnough` | app/users/services.py:185-201 | two deactivations that both pass the check on the same state leave no administrator, which is why the rows are locked |
| `Administrators.RevocationIsSafeIff` | app/users/services.py:220-225 | the two checks of a revocation refuse exactly the revocations that would leave no administrator or a user without a role |
| `Administrators.DeactivationIsSafeIff` | app/users/services.py:234-235 | the check of a deactivation refuses exactly the one that would leave no administrator |
| `Administrators.UserService.GiveRole` | app/users/services.py:204-210 | refused exactly for one's own account, an unknown user or a role already held; the users stay safe |
| `Administrators.UserService.RevokeRole` | app/users/services.py:213-227 | refused exactly for one's own account, a role not held, or an unsafe outcome |
| `Administrators.UserService.SetActive` | app/users/services.py:230-247 | refused exactly for one's own account, an unknown user, or an unsafe outcome |
| `Sessions.VersionCounts` | app/auth/services.py:123-165 | the session version counts the logouts, password changes, resets and deactivations, and nothing else moves it |
| `Sessions.AcceptedIff` | app/auth/routes.py:26-49 | a cookie is accepted later exactly when the account is active and nothing revoked its sessions since its version was read, reactivation or not |
| `Sessions.RevokedForGood` | app/auth/routes.py:36-40 | a cookie issued before a revocation is never accepted again |
| `Sessions.CookieOrigin` | app/auth/services.py:70-102 | in every run each cookie handed out comes from a login with the right password of an active account, or from a committed password change |
| `Sessions.RequestOrigin` | app/auth/routes.py:26-49 | every request that acts for a user came with a cookie of that user that was accepted |
| `Sessions.RightLoginIsLetIn` | app/auth/routes.py:65-72 | a right login that answers at once ends with an accepted cookie |
| `Sessions.InactiveIff` | app/users/services.py:230-247 | an account is inactive exactly when it has been deactivated and not activated again since |
| `Sessions.OvertakenLoginIsRefused` | app/auth/services.py:70-102 | a login overtaken by a revocation ends with a cookie that is refused at once |
| `Sessions.OwnChangeCarriesOn` | app/auth/routes.py:134-147 | the session that changes its own password carries on under the new version, and every older cookie is dead |
| `Sessions.ChangeInFlightUndoesReset` | app/auth/services.py:146-165 | a password change past its checks undoes a reset that commits before it |
| `Sessions.ResetUndone` | app/auth/services.py:146-165 | a run from the start in which this happens |
| `Sessions.ResetHoldsIff` | app/users/services.py:250-265 | in every continuation after a reset the first password change that commits was checked after it, against the temporary password, if and only if no change of that user was past its checks at the reset |
| `Sessions.MustChangeUntil` | app/users/services.py:250-265 | after a reset the password must be changed until a password change commits |
| `Sessions.AuthRoutes.StartSession` | app/auth/routes.py:52-56 | the session holds the user and version of the login and nothing from before |
| `Sessions.AuthRoutes.LoadLoggedInUser` | app/auth/routes.py:26-49 | the session is kept, and the user set, exactly while the cookie is accepted |
| `Sessions.AuthRoutes.LogOut` | app/auth/routes.py:86-92 | every cookie of the user up to the current version is dead |
| `Sessions.AuthRoutes.ChangePassword` | app/auth/services.py:146-165 | needs the current password and a different new one; only this session survives |
| `Graph.GraphIsCapped` | app/graph/services.py:29-48 | at most 250 nodes, each edge between two distinct nodes present, truncated exactly when some node asked for was left out |
| `Graph.AllEdgesDrawn` | app/graph/services.py:33-44 | when nothing is left out and no edge is asked for before its nodes, exactly the nodes and edges asked for are there |
| `Graph.Builder.Node` | app/graph/services.py:33-40 | adds, keeps or refuses a node, and says whether it is there |
| `Graph.Builder.Edge` | app/graph/services.py:42-44 | draws an edge only between two distinct nodes that are there |
| `Relationships.Narrow` | app/access.py:56-79 | a query that returns visible rows only is not affected by the others |
| `Relationships.HoldersSame` | app/graph/services.py:117-129 | the holders of a hash are the visible ones, and invisible ones do not count |
| `Relationships.CaseCmdsSame` | app/graph/services.py:169-213 | the graph of a visible case is the same without the records of invisible cases |
| `Relationships.ExpandSame` | app/graph/services.py:216-344 | so is every branch of expand, found or not |
| `Relationships.InvisibleRecordsNeverShow` | app/graph/services.py:14-16 | non-interference: two databases that agree on the public tables and on the visible cases give the same graphs, texts and truncation for every case and every node |
| `Relationships.SortedIs` | app/graph/services.py:122 | sorting a set of hashes lists exactly its members, ascending |
| `CaseGraph.HashesAre` | app/graph/services.py:117-143 | the nodes and edges of hash links: each hash that shows, its visible holders, and the edges between them |
| `CaseGraph.NodesAre` | app/graph/services.py:169-213 | the nodes a case graph asks for are exactly those of the declarative definition, a hash in shared mode if and only if two visible records hold it |
| `CaseGraph.EdgesAre` | app/graph/services.py:169-213 | likewise for the edges |
| `CaseGraph.CaseNodesFirst` | app/graph/services.py:169-213 | no edge is asked for before its two nodes, because links stay inside a case |
| `CaseGraph.CaseGraphIsExact` | app/graph/services.py:169-213 | an untruncated case graph has exactly the defined nodes and edges; a truncated one has 250 of the nodes and misses one |
| `Expansion.ExpansionIsExact` | app/graph/services.py:216-344 | expanding an item, examination, report, artifact, rule, user, case or hash shows, within the cap, exactly the neighbours the rows of the tables say, with edges in the right direction; beyond it 250 of them |
| `Expansion.ExpandFinds` | app/graph/services.py:216-344 | what is found: a record in a visible case, a rule, a user for lab-wide users or with a visible case, any hash |
| `GraphText.ExpansionTells` | app/graph/services.py:55-100 | every node of an expansion shows the record it stands for, every edge is labelled for its link, lead or not, match or not |
| `GraphText.CaseTells` | app/graph/services.py:55-100 | likewise for the graph of a case |
| `GraphService.GatherHolders` | app/graph/services.py:123-129 | the two queries and loops give each hash its own visible holders |
| `GraphService.StopEarly` | app/graph/services.py:134-135 | stopping at the first refused hash node adds no less than going on would |
| `GraphService.AddHashLinks` | app/graph/services.py:117-143 | the loops over sorted hashes and their holders, with the early return, are the specified series |
| `GraphService.AddYara` | app/graph/services.py:146-153 | the loop over matches is the specified series |
| `GraphService.BuildCaseGraph` | app/graph/services.py:169-213 | found exactly when a case has that reference and the user is lab-wide or assigned to it; then exactly the nodes and edges of that case, each saying what its record says |
| `GraphService.Expand` | app/graph/services.py:216-344 | found exactly when the record exists in a case the user may see; then exactly the nodes and edges of `Expansion.IsExact`, each saying what its record says |
| `GraphService.HashGraphIsNotEmpty` | app/graph/services.py:249-251 | expanding a hash always answers with its node, whether anything visible holds it or not |
| `GraphService.AddRows` | app/graph/services.py:177-208 | the loop over any query's rows, each adding a node and, if it is there, its edges, is the specified series |
| `Expansion.ExpandedNodeIsThereIff` | app/graph/services.py:226-344 | of the five kinds, the node asked for is in the graph, and an item, examination or report joined to its case and an artifact to its examination, exactly when the id has no leading zeros |
| `Expansion.ExpansionIsCompleteIff` | app/graph/services.py:226-344 | an expansion within the cap draws every edge it asks for exactly when the id has no leading zeros or there is no edge |
| `Expansion.ExpandedItemIsJoinedIff` | app/graph/services.py:226-234 | an expanded item is joined to its case exactly when its id was written without leading zeros |
| `Expansion.PaddedNodeHasNoEdges` | app/graph/services.py:226-344 | with leading zeros, a record of five kinds is found but the node asked for has no edges |
| `Expansion.PaddedCaseOrUser` | app/graph/services.py:221-280 | with leading zeros a case is expanded as usual, and a user appears under the id as written |
| `Limiter.PopOld` | app/api/routes.py:89-91 | the pruned deque is exactly the part of the whole history inside the window |
| `Limiter.Limiter.OverLimit` | app/api/routes.py:94-103 | admits exactly when fewer than the limit are recent; otherwise the wait overshoots by at most a second, is at most a second longer than the window (61 by default), and is enough for the next lone call |
| `Limiter.Limiter.Blocked` | app/api/routes.py:106-112 | reports the wait exactly when the limit is reached, with the same bounds, counting nothing |
| `Limiter.Limiter.Note` | app/api/routes.py:115-117 | counts without a check, and keeps the history fair when the deque was below the limit |
| `Limiter.Limiter.Authenticate` | app/api/routes.py:124-156 | an address with the limit of recent bad tokens is refused with a wait whatever its token, and nothing is counted; otherwise a bad token is counted for its address and answered 401; a request of a user is counted and admitted unless the limit is reached, which gives the wait; no other key changes |
| `Limiter.SpreadSnoc` | app/api/routes.py:99-102 | an admission below the limit keeps every limit+1 admissions at least a window apart |
| `Limiter.NoWindowHoldsMore` | app/api/routes.py:94-103 | no half-open window of that length, wherever it ends, holds more than the limit |
| `Limiter.ClosedWindowMayHoldMore` | app/api/routes.py:89-91 | a closed window can hold one more |
| `Limiter.ClosedWindowHoldsMoreIff` | app/api/routes.py:89-91 | it does exactly when an admission lies on its right end and the one limit places before it on its left end |
| `Limiter.AdmissionsAreFair` | app/api/routes.py:94-103 | over any series of calls with a clock that does not go back the admissions are spread like that, and the first ones up to the limit are all admitted |
| `Limiter.AnswersFollow` | app/api/routes.py:124-156 | over any series of requests each answer follows from those before: a wait exactly when the address got the limit of 401 answers, or the user the limit of admissions, within the window |
| `LoginThrottle.LoginService.Authenticate` | app/auth/services.py:70-102 | rate limited exactly when the locking rows of the account or the blocking rows of the address reach their limits; else refused for an unknown user or wrong password, then for an inactive account, else accepted; one row per call that says so; always at most the limit of wrong passwords since the last success |
| `LoginThrottle.FailuresAre` | app/auth/services.py:40-67 | the two queries count exactly the rows they are meant to: wrong passwords of this identifier or its user since their last success, and failures of this address, in the last 15 minutes |
| `LoginThrottle.LockCountsOwn` | app/auth/services.py:40-57 | the count that locks an account is at least its own wrong passwords in the window |
| `LoginThrottle.RowKeepsThrottled` | app/auth/services.py:40-67 | a row added under the limit keeps every account within it, now and later |
| `LoginThrottle.RateLimitedRowsDoNotExtendTheLock` | app/auth/services.py:44-67 | a rate-limited row never counts towards an account's lock, and does count towards its address |
| `LikePattern.ThreePassesAreOne` | app/cases/services.py:121-124 | the three replaces in a row are one pass that escapes each wildcard and escape character once |
| `LikePattern.OrderMatters` | app/search/services.py:43-44 | another order would escape the escapes |
| `LikePattern.EscapedIsLiteral` | app/evidence/services.py:75-76 | the matcher reads an escaped text back as exactly that text |
| `LikePattern.LikeMeansContains` | app/cases/services.py:121-131 | for every text and string the pattern matches exactly the strings that contain the text |
| `LikePattern.HashSearchIsPrefix` | app/search/services.py:73-82 | an unescaped hexadecimal query finds exactly the hashes that start with it |
| `LikePattern.LooksLikeHashIff` | app/search/services.py:23-40 | a query is searched as a hash exactly when it is 8 to 64 hexadecimal digits, in either case |
| `Pagination.ShowNumbers` | app/pagination.py:50-59 | the loop lists exactly the pages at the edges and around the current one, in order, gaps marked, at most 2*edge+2*around+3 entries, which is 9 by default |
| `Pagination.ParsePage` | app/pagination.py:10-16 | a positive number is taken as it is, and anything else gives a positive page |
| `Pagination.EndsAndNeighboursShow` | app/pagination.py:50-54 | the first and last page and every page within 2 of the current one are listed |
| `Pagination.WindowIsUnique` | app/pagination.py:50-59 | the numbers shown determine the list with its gap markers |
| `Pagination.PagesTile` | app/pagination.py:26-48 | every row is on exactly one of the pages |
| `Pagination.PagesMeet` | app/pagination.py:26-48 | the pages follow each other without gap, from row 1 to the last |

## Left out

- Flask routing, forms, templates, PDF and CSV output, charts, dashboard counts, notes and audit texts: presentation.
- Real SHA-256 and scrypt, the format of object ids, file permissions, fsync and temporary files: arbitrary functions and nondeterministic failures instead.
- An S3 reply that is lost after the request took effect: every call either has its effect or fails.
- A hash read while another process writes or removes the file: reading a whole object is one step in `ConcurrentMigrations`, and removing an open file takes its name away, as on POSIX systems.
- A COMMIT whose reply is lost: in register_with_file or attach the row would then be recorded and its object removed.
- InnoDB in detail: gap locks, lock waits that time out other than as a failure, foreign-key share locks, isolation levels other than the one the code assumes.
- The `health` check before a migration, and a negative `limit`, which Python would slice from the end.
- Usernames and e-mail addresses that change or are reused while login attempts are counted: the directory is fixed in `LoginThrottle`.
- Concurrent logins and concurrent limiter calls that read the clock in another order than they take the lock: the bounds are for serial calls.
- A request without a token or session: it never reaches the limiter.
- Rounding of floating-point seconds and of `total / per_page` beyond 2^53: times are reals, page counts exact.
- The row count an UPDATE reports when nothing changes: activating an active user is reported as done.
- Collations that compare strings otherwise than character by character, and backslash as an escape inside string literals.
- Notes of a custody entry, condition, seal and reason: they do not take part in any rule but the presence of a place.
- Case closure's check that no evidence is out of storage: a parameter, as custody does not lock the case row.
- The order of rows where a query states none: a table is a sequence, and its queries return rows in that order.
- Node ids with characters that `isdigit` accepts and `int` does not, and ids of unknown kinds: they end in an error or no answer before any query.
- Reports and their versions, case deletion, case details, account requests, YARA scans and rules, search beyond its patterns, the force layout of the graph: easier twins of what is modelled, or outside the core.
- The custody log's own search text, which strips wildcards instead of escaping them.
- Sessions.OwnChangeCarriesOn: says nothing about a browser that never receives the new cookie.
