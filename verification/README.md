# autograde: consistency of databases, files and Git under crashes and concurrency

A Dafny model of the protocols by which the autograde server keeps SQLite rows, a file tree and
Git repositories consistent while processes die, requests are retried and operations interleave,
and proofs of what these protocols keep over all runs.

Every protocol appears twice. A *value model* has a `World`, a `Step` for each atomic action (a
write transaction, a Git command, one file operation, the death of a process, a tick of a
clock), `Next` and `Run`; the theorems hold for every list of steps, hence for every
interleaving. A *class* with the source's mutable state then performs the same operations with
assignments and loops, and the `ensures` of each method equates the new state with the model's
step, so every theorem about runs also speaks of the methods. Proofs are organised as one
invariant per protocol, lemmas that each step keeps it, and main results at the end of a file.

| files | subject |
|---|---|
| `CourseDeletionFiles`, `CourseDeletionRecovery`, `CourseDeletionIdentity`, `CourseFilePlan` | erasing a course's files so that a crash anywhere is recoverable |
| `CourseRows`, `CourseErasure` | which rows an erasure takes, and the deletion transaction |
| `ContentContract`, `ContentPaths`, `ContentStore`, `ContentEdits`, `ContentPublish`, `ContentService` | acceptable file lists, Git trees, immutable publication of teaching content |
| `SnapshotStore`, `SnapshotLedger`, `SnapshotService` | snapshot refs, archives under a quota, the garbage collector |
| `FetchHold`, `NulRecords` | hold labels of fetches; the reader of NUL-terminated records |
| `ClassroomCommands`, `ClassroomRequests`, `ClassroomDeadlines`, `ClassroomService`, `Attempts` | instructor requests to a student's IDE and their deadlines; the truncated attempt query |
| `AssignmentAdmin`, `AssignmentOutcomes`, `AssignmentShown`, `AssignmentRuns`, `AssignmentService` | drafts, their validation by workers, what releases are made of, limits |
| `Gradebook` | publication of a course's gradebook |
| `Schedule`, `ScheduleStarts`, `ScheduleRunner`, `ScheduleRivals` | catch-up arithmetic, ordered firing, several processes on one schedule |

`Common` holds `Option`. `dafny verify dfyconfig.toml` checks everything.

## What the proofs found

Most of what the source promises holds in every run. Where it does not, the code is modelled as
it is; a concrete run shows the failure, and the exact condition is proved where one exists.

- **A folder without its manifest.** Recovery of a committed deletion removes the job folder last,
  child by child. If the process dies after the manifest is gone and before the folder is, every
  later recovery refuses the folder, for ever (`OrphanWindow` gives the exact cut points,
  `OrphanedForever` the consequence); files and marker are then already as they should be. The
  comment at `course_deletion_files.py:344` covers only uncommitted folders. Privacy archives
  are not affected: without a manifest their folder is looked up in the other journal, counts as
  uncommitted, and is removed (`ArchiveRecoveryCompletes`).
- **A manifest over 4 MiB** is written by staging and refused by recovery, so the files stay in
  staging: recovery finishes if and only if the manifest fits or is not there yet
  (`RecoveryIffManifestFits`, `RefusedForever`; witness `OversizedManifestStrandsFile`).
- **Late receipts.** A snapshot survives the collector exactly if no running pass has condemned
  its ref and its receipt is recorded less than the grace period after the snapshot call last
  wrote to its directory (`DurableIff`). A retry that finds ref and archive in place after a pass
  has condemned them is told of success and may lose both.
- **Deadlines of IDE requests.** The times *recorded* for deliveries and replies are before the
  deadline as long as replies name requests that exist (`KnownRepliesRespectDeadline`); a new
  request can get a late entry exactly if some reply that fits it is already under way from after
  its deadline (`LateStampIffGuessed`, witness `LateCreation`). By the *clock* there is no such
  bound: the second transaction of a reply looks at no clock, so a reply begun in time may take
  effect any time later (`AcceptedAfterDeadline`). It does so exactly as long as no expiry of the
  course dated at or past the deadline has run and the reply fits (`ReplyEffectIff`); a poll
  whose own time lags behind may deliver likewise (`DeliveryIff`).
- **Left-over workers.** No draft is ever published as a mixed release. A worker that outlives a
  restart can register one, though, that is no revision of its draft, and the command line may show
  it (`LeftOverWorkerMixesRevisions`). A worker's release is its job's revision exactly if the
  document is a template or its uploads are those of that revision, and always unless the job was
  interrupted, which can be looked up before showing it (`ReleaseIsJobRevisionIff`); whether it is
  its job's revision is settled for ever at the worker's second read
  (`ReleaseIsDecidedAtSecondRead`). It is some revision, its job's or a later one, whenever the draft
  still has the worker's document at that read (`ReleaseIsSomeRevision`).
- **Schedules.** `ALL` keeps the lag it starts with (`EmissionLag`). It leaves no gap if and only if
  every event that fires finds no turn of its runner passed over, and turns are passed over only
  while the schedule is off (`AllLeavesNoGapIff`, `PassedOnlyWhenOff`; witness
  `DisabledTurnLosesItsSlot`). Nothing keeps out a second process on the same schedule; still no
  slot is fired twice (`RivalsFireForward`), and several processes leave no gap if and only if none
  fires beyond the cursor (`RivalsLeaveNoGapIff`).
- **Replays.** A used publish key returns its release if and only if the publish lock is free, the
  course is active and the request is the same (`KeyYieldsOneRelease`): the course is asked first.
- **Hold labels** report what the last attempt to look found, which is the first tip anyone saw if
  nobody was killed between looking and pinning (`BaselineIsTheLastLook`), and otherwise exactly if
  the tracking ref still stood at it then (`LookDecides`; witness `UnpinnedTipIsForgotten`). With one
  branch to a label, none is reported exactly if nobody ever saw a tip (`NoneIffNobodySaw`).
- **Previous best.** SQL accepts an empty publication date and Python drops it; the truncated
  history gives the right previous best exactly unless SQL chose such a row and the real best is
  older than the twenty newest (`TruncationAgrees`, witness `UndatedRowHidesTheBest`). The server's
  own writes store a time or nothing, and then both always agree (`DatedHistoriesAgree`).

## Assumptions

- Git commands, `os.replace`, `os.link` and write transactions are atomic and succeed or fail; a
  failed command has had no effect. Digests and Git object ids are injective. Random identifiers
  are fresh when a row is inserted, and otherwise arbitrary numbers.
- Entries of a deletion are distinct and none lies inside another; no other process touches the
  listed places while the exclusive course guard is held. A file tree is a map from path to
  identity, permission bits, kind and content; nothing below a moved directory is looked at.
  `shutil.rmtree` of the job folder is up to three steps, in either order of its children;
  removing a staged directory is three (permission bits, content, the directory itself), one of
  which may leave it partly emptied.
- Times are integers (microseconds in schedules). The snapshot store's clock does not go
  backwards; a request's clock is read no later than its transaction.
- Content, gradebook and deletion models are of one course at a time; the others carry the course.
- Unicode case folding works character by character and leaves the slash alone.

## Model

| member | source | states |
|---|---|---|
| CourseDeletionRecovery.CrashSafety | src/autograde/course_deletion_files.py:170-231 | A crash between any two operations of staging, commit, purge and any number of recoveries: every other file is untouched, no listed file is lost before the commit, and once the folder is gone either all listed files are back with identity and mode or all are gone and the course is marked |
| CourseDeletionRecovery.OthersUntouched | src/autograde/course_deletion_files.py:97-128 | No file that is neither listed nor the parent of a listed one ever changes; a parent keeps everything but, in passing, its permission bits |
| CourseDeletionRecovery.FencedBeforeErased | src/autograde/course_deletion_files.py:359-361 | In every crashed state of a committed deletion, as long as the marker is missing all listed files are still in staging |
| CourseDeletionRecovery.RecoveryCompletes | src/autograde/course_deletion_files.py:339-401 | Unless the folder is orphaned, a recovery that is not interrupted finishes, whatever crashes came before, and leaves exactly the restored or exactly the erased tree |
| CourseDeletionRecovery.ArchiveRecoveryCompletes | src/autograde/course_deletion_files.py:416-428 | For a privacy archive a recovery that is not interrupted always finishes, manifest or not |
| CourseDeletionRecovery.OrphanWindow | src/autograde/course_deletion_files.py:342-353 | The prefixes of a purge after which recovery refuses the folder are exactly those between losing the manifest and losing the folder |
| CourseDeletionRecovery.OrphanedForever | src/autograde/course_deletion_files.py:352-353 | No number of recoveries changes anything about a committed deletion whose manifest is gone and whose folder is not |
| CourseDeletionRecovery.ManifestDurable | src/autograde/course_deletion_files.py:131-138 | Whenever staging was interrupted, a missing manifest means that no file has moved yet |
| CourseDeletionRecovery.RecoveryIffManifestFits | src/autograde/course_deletion_files.py:352-353 | The recovery after an interrupted or complete staging removes the folder if and only if no manifest was published or it is at most 4 MiB |
| CourseDeletionRecovery.OversizedManifestStrandsFile | src/autograde/course_deletion_files.py:198-207 | A manifest over the limit leaves a file in staging for ever, however often recovery is tried |
| CourseDeletionRecovery.RefusedForever | src/autograde/course_deletion_files.py:404-429 | No number of recoveries changes anything in a folder whose manifest is too large |
| CourseDeletionRecovery.StageKeeps | src/autograde/course_deletion_files.py:196-217 | Every prefix of staging keeps the journal invariant: each listed file is in exactly one of its place and its slot, with its identity; complete staging has moved all |
| CourseDeletionRecovery.FinishCompletes | src/autograde/course_deletion_files.py:339-401 | From any invariant state that is not orphaned, every prefix of the recovery keeps the invariant and the whole of it removes the folder |
| CourseDeletionRecovery.CommitKeeps | src/autograde/course_deletion.py:200-204 | Inserting the journal row when everything is staged turns the restoring plan into the erasing one without touching the disk |
| CourseDeletionRecovery.RestartKeeps | src/autograde/course_deletion_files.py:404-429 | Any list of recoveries, each dying anywhere, keeps the invariant |
| CourseDeletionRecovery.StageFromLeads | src/autograde/course_deletion_files.py:208-217 | The staging loop moves every remaining entry and meets no refusal on an undisturbed tree |
| CourseDeletionRecovery.FinishDownLeads | src/autograde/course_deletion_files.py:364-389 | The backward loop empties the staging folder from any mixture of moved and unmoved entries |
| CourseDeletionRecovery.RepairFromLeads | src/autograde/course_deletion_files.py:390-399 | The second loop brings every listed entry and every parent back to its recorded permission bits |
| CourseDeletionIdentity.StagingTakesNoStranger | src/autograde/course_deletion_files.py:208-217 | Whatever happened to the tree since the listing and wherever staging is cut, what lies in staging is the listed file of its slot |
| CourseDeletionIdentity.StagingRefusesStrangers | src/autograde/course_deletion_files.py:208-217 | A listed file that is missing or replaced makes staging refuse |
| CourseDeletionIdentity.StagedOnce | src/autograde/course_deletion_files.py:198-203 | A job whose folder exists is never staged again |
| CourseDeletionIdentity.RecoveryRefusesStrangers | src/autograde/course_deletion_files.py:364-389 | On whatever disk, the first loop finishes only if every slot holds its listed file and, to be put back, finds its place free |
| CourseDeletionIdentity.RepairRefusesStrangers | src/autograde/course_deletion_files.py:390-399 | The second loop finishes only if every folder that held a listed file is the one it was |
| CourseDeletionIdentity.FileComesBack | src/autograde/course_deletion_files.py:381-389 | A file put back stands in its place as it lay in its slot, under a folder that was there or was made for it, and its slot is empty |
| CourseFilePlan.Machine.Do | src/autograde/course_deletion_files.py:112-128 | One file operation on a machine that may be dead: it happens if the budget of survived operations allows it, and otherwise the process is dead and nothing happens any more |
| CourseFilePlan.CourseFilePlan.Stage | src/autograde/course_deletion_files.py:196-217 | Staging as it runs performs exactly the modelled list of operations up to the crash, and reports exactly whether it was refused |
| CourseFilePlan.CourseFilePlan.MoveOut | src/autograde/course_deletion_files.py:97-128 | One move out under a parent made writable: permission bits of parent and directory are put back |
| CourseFilePlan.CourseFilePlan.Close | src/autograde/course_deletion_files.py:219-231 | Rollback and purge are the recovery procedure with the outcome of the transaction |
| CourseFilePlan.MoveBack | src/autograde/course_deletion_files.py:384-388 | One move back, with the parent made if it is missing |
| CourseFilePlan.TakeOut | src/autograde/course_deletion_files.py:364-389 | The backward loop performs exactly the modelled operations and stops at the first refused entry |
| CourseFilePlan.Repair | src/autograde/course_deletion_files.py:390-399 | The permission loop performs exactly the modelled operations and stops at a strange parent |
| CourseFilePlan.Finish | src/autograde/course_deletion_files.py:339-401 | Recovery as it runs, with its three refusals, is the modelled program cut at the crash |
| CourseFilePlan.Delete | src/autograde/course_deletion.py:176-216 | A deletion stages, and then purges exactly if staging succeeded and the transaction committed |
| CourseFilePlan.DeleteRestoresOrErases | src/autograde/course_deletion.py:176-216 | A deletion that returns without a crash has erased exactly the listed files and marked the course, or restored the tree exactly |
| CourseFilePlan.ResumeConcat | src/autograde/course_deletion_files.py:205-217 | Dying within a sequence of procedures is dying within one of them, the rest not happening |
| CourseRows.Pass | src/autograde/course_deletion.py:81-88 | One pass over all tables only adds rows every closed superset of the seeds has, and adding none means the set is closed |
| CourseRows.Close | src/autograde/course_deletion.py:79-88 | The loop terminates with the least set that contains the seeds and is closed under composite, nullable foreign keys |
| CourseRows.LeastClosedIsUnique | src/autograde/course_deletion.py:69-88 | The result does not depend on the order of tables and keys |
| CourseRows.ClosureIsLeast | src/autograde/course_deletion.py:69-88 | The rows that no closed set around the seeds can avoid are themselves the least closed set around them |
| CourseRows.ClosureInTwoRounds | src/autograde/course_privacy_archive.py:74-105 | Seeds, closure, further seeds and closure again is the single least closure of all seeds |
| CourseRows.CourseTargets | src/autograde/course_deletion.py:69-109 | The erase set is the least closure of the course's rows; it is refused exactly if it holds a row of another course or one that refers to another course |
| CourseRows.Screen | src/autograde/course_deletion.py:89-108 | The two refusals, in the source's order |
| CourseRows.SoundAfterDeletion | src/autograde/course_deletion.py:192-199 | The final foreign key check passes exactly if no table outside the closure still refers to an erased row |
| CourseRows.CascadesAddNothing | src/autograde/course_deletion.py:192-195 | Following cascades of every declared key from the erased rows never leaves the erased rows |
| CourseRows.ChosenForAReason | src/autograde/course_deletion.py:81-88 | Every erased row is linked to a row of the course by a chain of references |
| CourseRows.DeletionIsIsolated | src/autograde/course_deletion.py:95-109 | A deletion that is not refused leaves no dangling reference and every row of every other course unchanged |
| CourseRows.PrivacyTargets | src/autograde/course_privacy_archive.py:62-123 | The erase set is the single least closure of both rounds of seeds over the tables that are not preserved, with the same refusals; CourseErasure.SeedIff says which rows the seeds are |
| CourseErasure.SeedIff | src/autograde/course_privacy_archive.py:66-99 | By columns, both ways: the seeds are rows tagged outside preserved tables and content, tagged collections that are or in any release were for named students, and the three kinds of activity under a tagged parent |
| CourseErasure.TargetedCollectionGoes | src/autograde/course_privacy_archive.py:69-73 | A collection of the course that is or ever was for named students is erased |
| CourseErasure.ItsReleaseGoes | src/autograde/course_privacy_archive.py:74-83 | With it every release that refers to it |
| CourseErasure.OpenCollectionIsNoSeed | src/autograde/course_privacy_archive.py:69-73 | One that never was for named students is no seed |
| CourseErasure.ActivityGoes | src/autograde/course_privacy_archive.py:84-92 | Every request, download and exam paper request under an assignment or paper of the course is erased |
| CourseErasure.TaggedRowsGo | src/autograde/course_privacy_archive.py:66-68 | Every row tagged with the course outside the preserved tables and the content is erased |
| CourseErasure.CourseRowGoes | src/autograde/course_deletion.py:69-80 | A deletion takes every row that carries the course's key |
| CourseErasure.ReferringRowGoes | src/autograde/course_deletion.py:81-88 | And every row that refers to a row it takes |
| CourseErasure.ChoiceStandsIff | src/autograde/course_deletion.py:89-108 | The choice is refused exactly if a chosen row carries another key or none where it has the column, or refers to a row of another course |
| CourseErasure.RefersByEveryColumn | src/autograde/course_deletion.py:81-88 | A reference needs every column of the key, none of them NULL |
| CourseErasure.RefersIfEveryColumn | src/autograde/course_deletion.py:81-88 | And nothing else |
| CourseRows.ArchiveCommitsIff | src/autograde/course_privacy_archive.py:303-313 | Whatever is preserved, the archive's foreign key check passes exactly if no preserved row refers to an erased one |
| CourseRows.KeptIsNeverErased | src/autograde/course_privacy_archive.py:77-84 | No row of a preserved table is ever among the rows to erase |
| CourseRows.ArchiveAlwaysCommits | src/autograde/course_privacy_archive.py:29-37 | With the server's preserved tables, which refer to preserved tables only, the archive's foreign key check always passes |
| CourseRows.CourseDatabase.Delete | src/autograde/course_deletion.py:176-208 | It succeeds exactly if the set is not refused, is what was previewed and leaves references sound; then exactly that set goes and the journal names the job; otherwise nothing changes; triggers are the same either way |
| CourseRows.CourseDatabase.LiftTriggers | src/autograde/course_deletion.py:188-191 | Exactly the triggers of the affected tables are dropped |
| CourseRows.CourseDatabase.RestoreTriggers | src/autograde/course_deletion.py:196-197 | Exactly the triggers there were before come back |
| CourseRows.CourseDatabase.EraseTables | src/autograde/course_deletion.py:193-195 | Table by table, the chosen rows go and no other |
| CourseRows.Intact | src/autograde/course_deletion.py:198-199 | The integrity check says whether every keyed child has its parent |
| ContentContract.CheckFileSet | src/autograde/content_contract.py:52-60 | Accepts exactly the lists within both limits whose paths are acceptable and clash with none before them |
| ContentContract.CheckPaths | src/autograde/content_contract.py:56-60 | The loop over paths decides exactly that |
| ContentContract.ClearOfSeen | src/autograde/content_contract.py:57-60 | One path is compared with every path seen, in both directions of containment |
| ContentContract.AcceptedAreClear | src/autograde/content_contract.py:52-60 | Any two accepted files are clear of each other, in any order |
| ContentContract.PrefixClashes | src/autograde/content_contract.py:57-60 | If one path lies below or at another, their folded forms clash, so acceptance rules it out |
| ContentContract.InsertLookup | src/autograde/content_store.py:361-369 | Setting a blob at a path comparable with none in the tree succeeds and changes the flattened tree at that path only |
| ContentContract.Grow | src/autograde/content_store.py:360-369 | The loop over files builds the tree, or stops where the source would raise |
| ContentContract.TreeIsTheFileMap | src/autograde/content_store.py:360-379 | For every accepted list in any order, building succeeds and flattening gives back exactly the map from paths to blobs, with no empty folder |
| ContentPaths.AcceptedIff | src/autograde/content_contract.py:32-49 | A path is accepted exactly if it is normalised, short, of plain characters and at most twelve parts, none empty, hidden, ending in a dot or space or reserved, with a known suffix |
| ContentStore.ReleaseIsItsRevision | src/autograde/content_store.py:449-470 | In every interleaving of edits, withdrawals and failed or crashed publishes, a release is the draft as it stood at its source revision |
| ContentStore.GenerationsHaveNoGap | src/autograde/content_store.py:456-465 | Generations of a collection are exactly 1 to n, one release each, and a current release is that of generation n |
| ContentStore.KeyYieldsOneRelease | src/autograde/content_store.py:411-437 | A key yields at most one release, which never changes and no other key yields; no later use of the key has any effect, and it returns that release exactly if the lock is free, the course is active and the request is the same |
| ContentStore.RefIsNeverMoved | src/autograde/content_store.py:388-394 | No ref ever moves and the storage conflict errors cannot be reached |
| ContentStore.CommitsFormOneLine | src/autograde/content_store.py:381-387 | A release's commit has its draft's tree and the previous generation's commit as only parent; its depth is its generation |
| ContentStore.CommitLine | src/autograde/content_store.py:381-387 | The same in any state that keeps the invariant, by induction on the generation |
| ContentStore.RevisionDeterminesDraft | src/autograde/content_store.py:36-40 | Revisions never fall, and two moments with the same revision have the same draft and generation |
| ContentStore.PreparedIsJobCommit | src/autograde/content_store.py:343-394 | Whatever happened since the snapshot, and on every retry, preparation computes the one commit the job's revision, release id and date determine |
| ContentStore.ReleaseTreesAreTheirFiles | src/autograde/content_store.py:343-379 | Every release of every run has a Git tree that flattens to its text files |
| ContentStore.LatestIsLast | src/autograde/content_store.py:382-385 | The release the parent query returns is the last of the collection's line |
| ContentStore.StepKeeps | src/autograde/content_store.py:156-488 | Every atomic step keeps the invariant, only extends history, and never ends in a storage conflict |
| ContentStore.RunKeeps | src/autograde/content_store.py:156-488 | So does every run |
| ContentStore.DoneStays | src/autograde/content_store.py:422-423 | The row of a published job never changes again |
| ContentEdits.DraftHasOneFilePerPath | src/autograde/content_store.py:281-289 | In every run no two files of a draft have one path |
| ContentEdits.UploadChangesOnePath | src/autograde/content_store.py:278-290 | In every run an accepted upload leaves the files at every other path, in order, and puts exactly the new file at its own; a refused one changes nothing |
| ContentEdits.UploadAcceptedIff | src/autograde/content_store.py:278-290 | It is accepted exactly on a course not archived, at the expected revision, if the resulting list is acceptable |
| ContentEdits.RemoveTakesOnePath | src/autograde/content_store.py:292-305 | In every run a removal takes the one file at the path and no other, in order, exactly if there is one, at the expected revision, on a course not archived |
| ContentEdits.UpdateLeavesFiles | src/autograde/content_store.py:156-169 | New fields replace all fields and no file, exactly at the expected revision on a course not archived with allowed students |
| ContentEdits.WithdrawLeavesDraft | src/autograde/content_store.py:476-488 | Withdrawal takes the current release back and leaves draft and releases, exactly at the expected revision of an active course |
| ContentEdits.RemoveUndoesUpload | src/autograde/content_store.py:278-305 | Removing what was uploaded at a fresh path brings the draft back |
| ContentEdits.CreateStartsEmpty | src/autograde/content_store.py:120-132 | A new collection starts at revision 1 without files, exactly on a course not archived with allowed students |
| ContentEdits.NoWayBackToPreparation | src/autograde/course_admin.py:266-284 | The course takes every status asked for except preparation once it has left it |
| ContentPublish.ClaimedIff | src/autograde/content_store.py:411-437 | In every run the first transaction of a publish takes effect exactly under the written conditions, and otherwise changes nothing |
| ContentPublish.ClaimHoldsTheRow | src/autograde/content_store.py:416-437 | The call then holds the row as it stands, under the release id and date of the key's first use |
| ContentPublish.PublishedIff | src/autograde/content_store.py:449-455 | In every run the second transaction publishes exactly if course, revision, students and period still allow it |
| ContentPublish.PublishedIsTheDraft | src/autograde/content_store.py:456-470 | What appears is the draft as it stands at that moment, as the next generation; everything else stays |
| ContentPublish.FailedGivesUp | src/autograde/content_store.py:471-475 | A failed call leaves its job failed unless it was published, and gives up the lock |
| ContentPublish.LeavingGivesUp | src/autograde/content_store.py:471-475 | A call that returns or dies gives up the lock and changes nothing else |
| ContentService.FilesWithout | src/autograde/content_store.py:283-286 | The draft files with the one at the path taken out and the others in order |
| ContentService.FindPath | src/autograde/content_store.py:298-299 | Whether a draft file has the path |
| ContentService.Latest | src/autograde/content_store.py:384-385 | The release of a collection with the greatest generation, none only if it has none |
| ContentService.ContentService.SetStatus | src/autograde/course_admin.py:266-284 | The course's status changes between any two transactions, never back to preparation; no draft, release, job or ref moves |
| ContentService.ContentService.Create | src/autograde/content_store.py:120-132 | A new collection of a course that is not archived starts without files at revision 1; the whole new state is the model's step and the invariant holds |
| ContentService.ContentService.Update | src/autograde/content_store.py:156-169 | Replaces the fields and keeps the files, only at the expected revision, which rises by one |
| ContentService.ContentService.Upload | src/autograde/content_store.py:250-290 | Replaces or adds one file if the resulting list is accepted, only at the expected revision |
| ContentService.ContentService.RemoveFile | src/autograde/content_store.py:292-305 | Removes one existing file, only at the expected revision |
| ContentService.ContentService.Withdraw | src/autograde/content_store.py:476-488 | Takes the current release of an active course back, only at the expected revision and if there is one |
| ContentService.ContentService.BeginPublish | src/autograde/content_store.py:402-437 | First transaction of a publish under the course's lock: closed course, replay, conflict, refusal or a claim, in the source's order |
| ContentService.ContentService.PrepareGit | src/autograde/content_store.py:343-394 | Between the transactions, tree building and ref creation cannot fail for an accepted snapshot |
| ContentService.ContentService.MakeCommit | src/autograde/content_store.py:381-394 | The commit goes on top of the latest release, and its ref is created or found equal |
| ContentService.ContentService.FinishPublish | src/autograde/content_store.py:449-470 | Second transaction: the release appears exactly if the revision has not moved and the course and period still allow it |
| ContentService.ContentService.FailPublish | src/autograde/content_store.py:471-475 | A job is marked failed unless it was published, and the lock is given up |
| SnapshotStore.RefHasArchive | src/autograde/gitops.py:921-977 | In every interleaving of snapshots, crashes, receipts and collector passes, a snapshot ref has the archive of its commit on disk |
| SnapshotLedger.QuotaHolds | src/autograde/gitops.py:1130-1158 | In every run, whichever archives are listed, the bytes that calls exported for them, as noted from the calls, stay within the quota |
| SnapshotLedger.ArchivesAreWhatWasExported | src/autograde/gitops.py:1130-1158 | In every run an archive has the bytes and digest its call exported and the time at which it appeared |
| SnapshotLedger.CollectorTakesOldArchives | src/autograde/artifact_gc.py:698-756 | In every run an archive a pass removes appeared a grace period before the pass began, was not put there in place of the condemned one, and is named by no receipt and needed by no ref |
| SnapshotLedger.FreshReceiptsProtect | src/autograde/artifact_gc.py:698-756 | Right after locking a repository or reading the receipts again, nothing a receipt names is deleted |
| SnapshotStore.RefNeverMoves | src/autograde/gitops.py:1004-1034 | No step moves a ref; it disappears only by a pass that holds its repository's lock |
| SnapshotStore.RetryIsIdempotent | src/autograde/gitops.py:937-967 | A repeated snapshot succeeds and changes only timestamps, even if Git refuses to create the ref; one at another commit changes nothing |
| SnapshotStore.DurableIff | src/autograde/artifact_gc.py:179-284 | A receipt written at instant t keeps ref and archive in every continuation if and only if no running pass has condemned the ref and t is less than the grace period after the call's last write to its directory |
| SnapshotStore.ReceiptLasts | src/autograde/artifact_gc.py:698-756 | Once a receipt is written under grace, ref and archive stand for ever |
| SnapshotStore.Loss | src/autograde/artifact_gc.py:658-719 | Otherwise some continuation removes the ref before the receipt is written |
| SnapshotStore.StepKeeps | src/autograde/artifact_gc.py:658-805 | Every step of every process keeps the invariant |
| SnapshotStore.RunKeeps | src/autograde/gitops.py:921-1158 | So does every run |
| SnapshotService.SnapshotService.ManagedBytes | src/autograde/gitops.py:1212-1263 | The scan's total is the sum of the sizes of the archives |
| SnapshotService.SnapshotService.Measure | src/autograde/gitops.py:1130-1150 | Under the quota lock: reuse of an equal archive, refusal of a different one, refusal over quota, or leave to link |
| SnapshotService.SnapshotService.Link | src/autograde/gitops.py:1152-1158 | The archive appears within the quota and the lock is free again; its size, digest and time are those of SnapshotLedger.ArchivesAreWhatWasExported |
| SnapshotService.SnapshotService.PointRef | src/autograde/gitops.py:1004-1034 | Creates the ref or finds it equal; if neither, the call goes on to take back what it made |
| SnapshotService.SnapshotService.Pin | src/autograde/gitops.py:959-967 | The ref stands afterwards, or the archive this call made is gone |
| SnapshotService.SnapshotService.TakeSnapshot | src/autograde/gitops.py:921-977 | A whole undisturbed call: the result tells whether ref and archive stand; a new archive has the exported size and digest and the present time, and grace runs from now |
| SnapshotService.SnapshotService.ScanArchives | src/autograde/artifact_gc.py:433-469 | Finds exactly the archives that no receipt names and that are old enough |
| SnapshotService.SnapshotService.ScanRefs | src/autograde/artifact_gc.py:493-590 | Finds exactly the refs that no receipt names and whose directory is old enough |
| SnapshotService.SnapshotService.DeleteRefs | src/autograde/artifact_gc.py:702-717 | Deletes exactly the condemned refs of the repository that still point where they did and that no receipt names by now |
| SnapshotService.SnapshotService.DeleteArchives | src/autograde/artifact_gc.py:719-756 | Deletes exactly the condemned archives that are the same file, that no receipt names by now and that no ref needs |
| SnapshotService.SnapshotService.ApplyRepo | src/autograde/artifact_gc.py:694-756 | One repository under both locks, refs before archives, receipts read again before each |
| SnapshotService.SnapshotService.CollectGarbage | src/autograde/artifact_gc.py:179-284 | After a whole undisturbed pass, what is left is named by a receipt, young, or an archive its ref still needs |
| FetchHold.LabelReturnsOnePair | src/autograde/gitops.py:345-387 | Any two fetches that return under one label return the same old and new commit, wherever earlier attempts died and however the remote moved |
| FetchHold.PinnedIsReturned | src/autograde/gitops.py:345-372 | Once the new ref is pinned, every later fetch under the label returns the pinned pair at once and changes nothing |
| FetchHold.BaselineIsTheFirstPinned | src/autograde/gitops.py:813-824 | The first pinned baseline is reported for ever; a label completed without one reports none for ever |
| FetchHold.BaselineIsTheLastLook | src/autograde/gitops.py:813-824 | In every run the baseline a label reports is what the last attempt to look under it found, and the first tip any attempt saw if no attempt died between looking and pinning |
| FetchHold.LookDecides | src/autograde/gitops.py:818-824 | At the moment an attempt looks, the tracking ref alone decides whether the label will ever after report the first tip |
| FetchHold.NoneIffNobodySaw | src/autograde/gitops.py:813-824 | Under a label used with one branch, no baseline is reported exactly if no attempt ever saw a tip |
| FetchHold.UnpinnedTipIsForgotten | src/autograde/gitops.py:818-824 | A run in which an attempt sees one tip, dies before pinning it, and the label pins another |
| FetchHold.StepKeeps | src/autograde/gitops.py:803-879 | Every step keeps the holds, the pinned pairs and the returned results |
| FetchHold.Cache.Fetch | src/autograde/gitops.py:328-387 | A whole fetch returns the pair its label pins, or the remote's tip against the tracking tip; a failed one moves no tracking ref and completes no hold |
| FetchHold.Cache.FetchBaseline | src/autograde/gitops.py:813-824 | The baseline is pinned before anything can move |
| FetchHold.Cache.FetchTip | src/autograde/gitops.py:825-879 | Tracking ref and hold move together to the remote's tip |
| NulRecords.ReadRecords | src/autograde/gitops.py:1419-1440 | For every splitting into chunks of at most 64 KiB, the reader yields and ends as the whole input says, independent of the boundaries |
| NulRecords.Split | src/autograde/gitops.py:1425-1426 | Splitting a chunk gives its pieces between NULs |
| NulRecords.ReadChunk | src/autograde/gitops.py:1424-1438 | One chunk turns what was pending and all that follows into records yielded, what is pending now, and all that follows |
| NulRecords.ReadMiddle | src/autograde/gitops.py:1431-1437 | The same for the pieces after the first of a chunk |
| NulRecords.ReadsWhatWasWritten | src/autograde/gitops.py:1419-1440 | Records that fit, each followed by NUL, are read back exactly |
| NulRecords.FinishesOnlyOnRecords | src/autograde/gitops.py:1419-1440 | An input on which reading finishes is the encoding of the records yielded |
| NulRecords.EndingTells | src/autograde/gitops.py:1427-1440 | It finishes exactly on empty or NUL-terminated input whose records fit; otherwise the error says which failed |
| ClassroomCommands.TrailSpellsPath | src/autograde/classroom_commands.py:107-116 | In every run a command's audit rows spell a legal path that ends in its status |
| ClassroomCommands.PathShapes | src/autograde/classroom_commands.py:232-234 | Legal paths written out: received before accepted before completed, at most four rows, nothing after the end |
| ClassroomCommands.SettledInEveryRun | src/autograde/classroom_commands.py:194-256 | Once delivered, a command's client never changes; once finished, the row and its trail never do |
| ClassroomCommands.RepeatChangesNothing | src/autograde/classroom_commands.py:230-231 | Repeating the last reply changes nothing; it is refused only if the command expired or the client may not reply |
| ClassroomCommands.SubmissionHasReceipt | src/autograde/classroom_commands.py:235-245 | A completed save-and-submit has a receipt of the same student, course and assignment, dated no earlier than its recorded acceptance |
| ClassroomCommands.CapsHold | src/autograde/classroom_commands.py:162-166 | At most five commands of a student are pending and at most thirty created in any closed hour, in every run |
| ClassroomCommands.KeyNamesOne | src/autograde/classroom_commands.py:156-161 | A request key names at most one command |
| ClassroomRequests.UsedKeyDecides | src/autograde/classroom_commands.py:156-161 | In every run a used key returns its command to the same request and refuses another without a trace; neither makes a new one |
| ClassroomRequests.NewKeyCreatesIff | src/autograde/classroom_commands.py:155-174 | In every run a new key makes a command exactly if allowed, well formed and within both caps as counted at its time; a refusal leaves no trace |
| ClassroomRequests.CreatedAsAsked | src/autograde/classroom_commands.py:167-174 | The command that appears is queued and as asked; others are as they were, but due ones of the course expired |
| ClassroomRequests.PollTakesTheFiveOldest | src/autograde/classroom_commands.py:194-211 | A poll takes exactly the commands it may show that have fewer than five older ones |
| ClassroomRequests.PollDelivers | src/autograde/classroom_commands.py:194-211 | The queued ones among them go to the client, each with its audit row, and nothing else but expiries changes |
| ClassroomRequests.ReplyWrites | src/autograde/classroom_commands.py:235-255 | What a reply that takes effect writes, and what a completion must come with |
| ClassroomRequests.RepeatedIsTheSame | src/autograde/classroom_commands.py:230-231 | A reply counts as a repetition only if it is the very one recorded last, and changes nothing |
| ClassroomRequests.OnlyOpenClientsAct | src/autograde/classroom_commands.py:183-185 | Only an open client of the very session polls or replies with effect |
| ClassroomRequests.CommandsReadWell | src/autograde/classroom_commands.py:42-85 | In every run requests are well formed and the code of a command tells how it ended |
| ClassroomCommands.StepKeeps | src/autograde/classroom_commands.py:142-256 | Every transaction keeps the invariant |
| ClassroomCommands.RunKeeps | src/autograde/classroom_commands.py:142-256 | So does every run |
| ClassroomDeadlines.StampsRespectDeadline | src/autograde/classroom_commands.py:112-125 | In every run in which no fitting reply guessed the id of a new command from past its deadline, deliveries and replies are recorded with times before the deadline and expiries with times at or after it |
| ClassroomDeadlines.KnownRepliesRespectDeadline | src/autograde/classroom_commands.py:213-234 | The same in every run in which replies name commands that exist, although expiry runs apart and calls are recorded late |
| ClassroomDeadlines.LateStampIffGuessed | src/autograde/classroom_commands.py:167-174 | The condition is exact, for replies of every kind: a new command can get a late entry just when a fitting reply is under way from past its deadline |
| ClassroomDeadlines.LateCreation | src/autograde/classroom_commands.py:142-172 | A concrete run with a late acceptance |
| ClassroomDeadlines.StillPendingIff | src/autograde/classroom_commands.py:112-116 | A pending command stays pending exactly until an expiry of its course dated at or past its deadline runs or a reply finishes it, whatever the clock |
| ClassroomDeadlines.TakesEffectIff | src/autograde/classroom_commands.py:220-256 | A reply takes effect exactly if its command is pending and it satisfies the conditions written out without the status |
| ClassroomDeadlines.ReplyEffectIff | src/autograde/classroom_commands.py:217-234 | At any clock, long past the deadline too, a reply takes effect exactly if no expiry dated at or past the deadline has run, no reply has finished the command and the reply fits |
| ClassroomDeadlines.DeliveryIff | src/autograde/classroom_commands.py:194-211 | At any clock, a poll delivers a command exactly if its own time is before the deadline, no such expiry has run and the command suits the client and is among the five taken |
| ClassroomDeadlines.AcceptedAfterDeadline | src/autograde/classroom_commands.py:217-256 | A run in which every reply knows its command and an acceptance takes effect long after the deadline |
| ClassroomService.Oldest | src/autograde/classroom_commands.py:199-203 | The oldest of a set of commands, ids breaking ties |
| ClassroomService.ClassroomService.ExpireDue | src/autograde/classroom_commands.py:112-116 | Row by row, exactly the due commands of the course expire, each with its audit row |
| ClassroomService.ClassroomService.Create | src/autograde/classroom_commands.py:142-174 | Expiry, the request key, both caps and the row; a refusal leaves the state as it was |
| ClassroomService.ClassroomService.Select | src/autograde/classroom_commands.py:199-203 | The five oldest commands this client may see |
| ClassroomService.ClassroomService.Poll | src/autograde/classroom_commands.py:194-211 | Delivers exactly the queued ones among them to this client |
| ClassroomService.ClassroomService.MarkReceived | src/autograde/classroom_commands.py:204-210 | Row by row, exactly the queued ones among the selected commands go to the client, each with its audit row |
| ClassroomService.ClassroomService.StartReply | src/autograde/classroom_commands.py:213-218 | First transaction of a reply: validation and expiry |
| ClassroomService.ClassroomService.FinishReply | src/autograde/classroom_commands.py:220-256 | Second transaction: ownership, repetition, legal transition, confirmation, in the source's order |
| ClassroomService.ClassroomService.Confirmed | src/autograde/classroom_commands.py:238-245 | Whether an authoritative receipt dated after the acceptance exists |
| Attempts.PreviousBest | src/autograde/classroom_state.py:199-200 | The first maximum among earlier published results is the highest score, newest among equals |
| Attempts.TruncationAgrees | src/autograde/classroom_state.py:256-295 | Twenty newest rows and the row SQL chose give the latest attempt of the whole history, and its previous best exactly unless SQL was misled by an empty date |
| Attempts.PreviousBestReads | src/autograde/classroom_state.py:199-200 | Read off the rows: the previous best is an earlier published, dated result in range; none scored higher, none newer the same; there is none exactly if no earlier attempt is one |
| Attempts.DatedHistoriesAgree | src/autograde/classroom_state.py:278-283 | Without an empty publication date, latest attempt and previous best always agree with the whole history |
| Attempts.UndatedRowHidesTheBest | src/autograde/classroom_state.py:199-200 | A history of 22 attempts whose real previous best never reaches Python |
| Attempts.LatestAndBest | src/autograde/classroom_state.py:195-200 | The selection on the fetched rows gives exactly that |
| AssignmentAdmin.PublishedIsWhatWasChecked | src/autograde/assignment_admin.py:783-814 | A published draft's release was built from, and passed its check on, exactly the document and uploads the draft holds, then and ever after, although workers read them apart, die, restart and linger |
| AssignmentAdmin.PublishedIsGood | src/autograde/assignment_admin.py:1108-1151 | The same in any state that keeps the invariant |
| AssignmentAdmin.LimitsHold | src/autograde/assignment_admin.py:462-469 | At most 100 live drafts a course, 500 overall and 10 queued jobs, in every run |
| AssignmentAdmin.OneShownPerKey | src/autograde/assignment_admin.py:807-811 | At most one release of an assignment key is active and ready |
| AssignmentAdmin.DeletedAreHidden | src/autograde/assignment_admin.py:96-110 | Every release on the deleted list is inactive and unready |
| AssignmentShown.ReadyOnlyAfterLatestPassed | src/autograde/platform_state.py:6136-6139 | Whatever the state and step, a release that becomes ready had passed the check with the greatest index; one whose latest check is pending or failed never becomes ready |
| AssignmentShown.ReadyReleasesPassedTheirLatestCheck | src/autograde/assignment_admin.py:799-801 | In every run the latest check of a ready release has passed |
| AssignmentOutcomes.UpdateOutcome | src/autograde/assignment_admin.py:651-661 | A new document takes effect exactly on an open draft; uploads stay exactly if language and mode stay |
| AssignmentOutcomes.UploadOutcome | src/autograde/assignment_admin.py:699-731 | An upload takes effect exactly on an open draft and replaces the file of its role alone |
| AssignmentOutcomes.ImportOutcome | src/autograde/assignment_admin.py:597-649 | A template brings document, solution and counterexample and leaves the starter, exactly on an open draft |
| AssignmentOutcomes.DeleteDraftOutcome | src/autograde/assignment_admin.py:677-697 | Deletion takes effect exactly on an open draft, which keeps its material |
| AssignmentOutcomes.CreateOutcome | src/autograde/assignment_admin.py:471-496 | A draft appears exactly if its request key is new and both limits leave room |
| AssignmentOutcomes.CopyOutcome | src/autograde/assignment_admin.py:816-847 | A copy appears exactly of a release not deleted with a source, within the limits, with the source's uploads and the key of the release |
| AssignmentOutcomes.CopyNeedsSource | src/autograde/assignment_admin.py:826-828 | Without a source draft nothing is copied |
| AssignmentOutcomes.QueueOutcome | src/autograde/assignment_admin.py:733-781 | A check is queued exactly if the draft is ready at this revision, nothing of it waits, runs or has succeeded, and the three limits leave room |
| AssignmentOutcomes.ClaimOutcome | src/autograde/assignment_admin.py:1078-1083 | A job is claimed exactly if it waits and none that waits was inserted before it |
| AssignmentOutcomes.RestartOutcome | src/autograde/assignment_admin.py:1043-1047 | A restart interrupts exactly the running jobs and fails exactly the pending checks of their releases |
| AssignmentOutcomes.BeginCheckOutcome | src/autograde/platform_state.py:6107-6118 | A check begins, pending, exactly on an unready release that is not deleted |
| AssignmentOutcomes.FinishCheckOutcome | src/autograde/platform_state.py:6120-6127 | It is settled once, with the verdict it got; only a worker whose check passed goes on |
| AssignmentOutcomes.OutsideCheckOutcome | src/autograde/platform_state.py:6107-6127 | A check from the command line adds its verdict as the latest, exactly on an unready release that is not deleted |
| AssignmentOutcomes.FailOutcome | src/autograde/assignment_admin.py:1087-1106 | A worker that fails ends a running job and leaves the release it attached |
| AssignmentOutcomes.RegisterOutcome | src/autograde/assignment_admin.py:1128-1153 | A release is registered unready, for the job's course, under the key its draft was copied from or its own |
| AssignmentOutcomes.PublishValidatedOutcome | src/autograde/platform_state.py:6129-6148 | The command line shows a release exactly if it is of the course, not deleted, active, passed its latest check and is alone under its key |
| AssignmentOutcomes.PublishOutcome | src/autograde/assignment_admin.py:783-814 | A draft is published exactly if its last job of this revision succeeded with such a release |
| AssignmentOutcomes.HideOutcome | src/autograde/assignment_admin.py:849-858 | Exactly an unused release that is not deleted is hidden |
| AssignmentOutcomes.ArchiveOutcome | src/autograde/assignment_admin.py:860-884 | Exactly a release that is not deleted is made inactive and unready |
| AssignmentOutcomes.DeleteOutcome | src/autograde/assignment_admin.py:893-915 | Exactly an inactive, unready release with no check pending is put on the deleted list |
| AssignmentOutcomes.RestoreOutcome | src/autograde/assignment_admin.py:1006-1033 | Exactly a deleted one comes back, if its draft fits the limits |
| AssignmentOutcomes.SelectableIff | src/autograde/assignment_admin.py:930-953 | What a batch asks of every release in it |
| AssignmentOutcomes.BatchRefusedUnless | src/autograde/assignment_admin.py:993-1004 | A batch changes something only if it is confirmed, of one to twenty distinct releases, all of which may be changed |
| AssignmentAdmin.BatchIsAllOrNothing | src/autograde/assignment_admin.py:993-1004 | A confirmed batch changes all selected releases and nothing else, or nothing: no selected release makes it fail half way |
| AssignmentAdmin.OneSource | src/autograde/assignment_admin.py:1017-1020 | At most one draft is published as a given release |
| AssignmentAdmin.RestoreCaps | src/autograde/assignment_admin.py:1006-1029 | Taking a release off the deleted list makes at most one draft live again and keeps the caps |
| AssignmentAdmin.ReadUploadsFlight | src/autograde/assignment_admin.py:1128-1135 | While its job is running a worker's document and uploads are those of the job's revision, though read apart |
| AssignmentAdmin.FinishJobCloses | src/autograde/assignment_admin.py:1101-1106 | A worker whose job was interrupted changes no job; one whose job still runs ends it as a success, with a release built and checked from the job's revision, or as interrupted if it is stopping |
| AssignmentAdmin.StepKeeps | src/autograde/assignment_admin.py:471-1151 | Every transaction of instructors, workers and restarts keeps the invariant |
| AssignmentAdmin.RunKeeps | src/autograde/assignment_admin.py:471-1151 | So does every run, and published drafts and worker releases never change in it |
| AssignmentRuns.ReleaseIsJobRevisionIff | src/autograde/assignment_admin.py:1128-1153 | In every run a worker's release is the document of its job's revision with the uploads of that or a later one: its job's revision exactly if it is a template or the uploads agree, and always unless the job was interrupted |
| AssignmentRuns.SecondReadIff | src/autograde/assignment_admin.py:1128-1135 | At the second read the worker holds its job's revision exactly if the document is a template or the draft's uploads are those of that revision |
| AssignmentRuns.ReleaseIsDecidedAtSecondRead | src/autograde/assignment_admin.py:1128-1153 | Whether the release a worker registers is its job's revision is settled at that read, whatever happens in between and for ever after |
| AssignmentRuns.ReleaseIsSomeRevision | src/autograde/assignment_admin.py:1128-1153 | The release is what the draft held at the second read exactly if the draft still had the document of the first read; then it is a revision of the draft for ever |
| AssignmentRuns.LeftOverWorkerMixesRevisions | src/autograde/assignment_admin.py:1043-1050 | A run in which a release mixed from two revisions is active and ready |
| AssignmentRuns.RowsAreUnique | src/autograde/assignment_admin.py:763-771 | In every run no two jobs have the same place in the queue |
| AssignmentService.AssignmentService.CapacityFull | src/autograde/assignment_admin.py:462-469 | Whether either draft limit is reached, deleted drafts and deleted releases not counting |
| AssignmentService.AssignmentService.MayEdit | src/autograde/assignment_admin.py:443-453 | Exactly an existing draft at that revision, unpublished and with no job waiting or running |
| AssignmentService.AssignmentService.CreateDraft | src/autograde/assignment_admin.py:471-495 | A used request key returns its draft or is refused; otherwise a draft within the limits |
| AssignmentService.AssignmentService.UpdateDraft | src/autograde/assignment_admin.py:651-661 | A new document at the next revision; uploads go if language or mode changed |
| AssignmentService.AssignmentService.Upload | src/autograde/assignment_admin.py:710-717 | One upload at the next revision of an editable draft |
| AssignmentService.AssignmentService.DeleteDraft | src/autograde/assignment_admin.py:677-697 | Only an unpublished draft without waiting job, which stays as a deleted row |
| AssignmentService.AssignmentService.QueueCheck | src/autograde/assignment_admin.py:733-771 | At most ten jobs wait; a job remembers the draft's revision |
| AssignmentService.AssignmentService.Claim | src/autograde/assignment_admin.py:1076-1084 | The queued job that was inserted first starts to run |
| AssignmentService.AssignmentService.ReadUploads | src/autograde/assignment_admin.py:1128-1135 | The worker reads the uploads as they are now, whatever the document it read before |
| AssignmentService.AssignmentService.Register | src/autograde/assignment_admin.py:1144-1151 | The release is registered unready, with the worker's material, under the draft's key |
| AssignmentService.AssignmentService.Attach | src/autograde/assignment_admin.py:1152-1153 | In a transaction of its own, and whatever the job's status is by then, the release is written to the job |
| AssignmentService.AssignmentService.CloseJob | src/autograde/assignment_admin.py:1101-1105 | The job's end is written only if it is still running |
| AssignmentService.AssignmentService.Publish | src/autograde/assignment_admin.py:783-814 | Exactly a draft whose newest job of this revision succeeded, with a release checked and of no key already shown |
| AssignmentService.AssignmentService.CopyRelease | src/autograde/assignment_admin.py:816-847 | A new draft with the source draft's material under the release's key, within the limits |
| AssignmentService.AssignmentService.ChangeAll | src/autograde/assignment_admin.py:1001-1002 | The loop over a batch inside its transaction: all changes or none |
| AssignmentService.AssignmentService.Restore | src/autograde/assignment_admin.py:1006-1029 | A deleted release comes back inactive and unready, if its draft fits the limits |
| AssignmentService.SourcesAreUnique | src/autograde/assignment_admin.py:1017-1020 | In every run the row the restore query fetches is the only one |
| Gradebook.PublicationsFormALine | src/autograde/course_gradebook.py:152-204 | The state points to a book exactly if that is the published one; ever-published versions are exactly 1 to n and the published one is n; of the drafts imported at one state revision at most one is ever published |
| Gradebook.PublishedIff | src/autograde/course_gradebook.py:152-183 | In every run a draft is published exactly if complete, at the expected revision and still fenced by the state it was imported at; exactly one book is superseded |
| Gradebook.HiddenAndDeletedIff | src/autograde/course_gradebook.py:185-208 | The published book is hidden, and a draft deleted, exactly at its revision, and nothing else changes |
| Gradebook.StepKeeps | src/autograde/course_gradebook.py:119-204 | Every transaction keeps the invariant |
| Gradebook.Gradebook.Publish | src/autograde/course_gradebook.py:152-183 | The published book, the superseded one, state revision and version after a publication, or nothing changed |
| Gradebook.Gradebook.Hide | src/autograde/course_gradebook.py:185-195 | Only the book the state points to is hidden, and the fence of all open drafts is spent |
| Gradebook.Gradebook.DeleteDraft | src/autograde/course_gradebook.py:197-204 | Only a draft is removed, at the expected revision |
| Schedule.BaseIsTheRightSlot | src/autograde/cli.py:507-529 | LATEST starts at the greatest slot not after now, NONE at the least slot not before now, ALL at the first missed one, all on the schedule's grid |
| ScheduleStarts.StartIsOnTheRightSlot | src/autograde/cli.py:630-657 | A start on an enabled schedule begins on its grid: at a cursor not yet due or under ALL, else at the greatest slot not after now under LATEST and the least not before it under NONE |
| ScheduleStarts.FiresNothingMissed | src/autograde/cli.py:630-712 | In every run no slot fired under NONE lies before its runner's start, and under LATEST at most the first does, by less than an interval |
| ScheduleStarts.TurnFiresIff | src/autograde/cli.py:657-709 | A turn fires its slot exactly if nothing before it failed, the schedule is on and as the runner knows it, the collection succeeds and the cursor is not past the slot |
| ScheduleStarts.TurnStopsIff | src/autograde/cli.py:657-751 | And it stops the runner exactly on a failure before it, a schedule switched off or changed, or a failed collection |
| Schedule.EmissionLag | src/autograde/cli.py:532-546 | How long after its slot each event is emitted: never under NONE, only the first under LATEST, always the starting lag under ALL |
| Schedule.FiresInOrder | src/autograde/cli.py:657-751 | Over any restarts, crashes and thread orders of an enabled, unchanged schedule: fired slots strictly increase on the original grid, leave no gap under ALL, applied events are the first k and the cursor is base + k intervals |
| Schedule.FiresForward | src/autograde/cli.py:657-751 | The schedule being switched off and on at any time, fired slots still strictly increase on the grid and the cursor is just past the last one |
| Schedule.AllLeavesNoGapIff | src/autograde/cli.py:671-709 | In every run that is not reconfigured, ALL leaves no gap exactly if every event that fires finds no turn of its runner passed over |
| Schedule.MarkFiresTheCursorIff | src/autograde/cli.py:691-709 | A mark under ALL fires the schedule's own next slot exactly if no turn was passed over since the last one fired |
| Schedule.PassedOnlyWhenOff | src/autograde/cli.py:671-674 | A turn that does not fail is passed over only while the schedule is off |
| Schedule.DisabledTurnLosesItsSlot | src/autograde/cli.py:671-674 | A run under ALL in which a slot is skipped because the schedule was off for that turn |
| Schedule.MarkKeeps | src/autograde/state.py:995-1031 | Marking moves the cursor just past the fired slot, which lies at or after it, or leaves it; it never goes back |
| Schedule.RunKeeps | src/autograde/cli.py:617-751 | Every run that is not reconfigured keeps the invariant, however often the schedule is switched off and on |
| ScheduleRunner.ScheduleRunner.Start | src/autograde/cli.py:630-657 | A runner starts exactly on an enabled schedule, where ScheduleStarts.StartIsOnTheRightSlot says |
| ScheduleRunner.ScheduleRunner.HandleDue | src/autograde/cli.py:657-751 | One turn with all its exits is the model's enter, check, collect and mark |
| ScheduleRunner.ScheduleRunner.Drain | src/autograde/cli.py:660-664 | Whatever order threads dequeued in, everything emitted is applied in sequence |
| ScheduleRunner.TurnKeeps | src/autograde/cli.py:696-709 | A turn that goes well fires exactly the next event's slot |
| ScheduleRivals.RivalsFireForward | src/autograde/state.py:1005-1021 | Any number of processes at once, however the schedule is switched: no slot is fired twice, fired slots strictly increase on the grid, and the cursor is just past the last |
| ScheduleRivals.RivalsLeaveNoGapIff | src/autograde/cli.py:674-709 | Together they leave no gap exactly if none ever fires a slot beyond the cursor; under ALL none does while the schedule is enabled whenever one checks or marks |
| ScheduleRivals.MoveKeeps | src/autograde/cli.py:657-709 | A step of any one process keeps the shared row, the history and every other process aligned |
| ScheduleRivals.AloneIsRun | src/autograde/cli.py:617-657 | With one process the shared table is the one-runner model |

## Left out

- CourseFilePlan.CourseFilePlan.Stage: does not take the locks of learning checkpoints or the course guard, and does not list the files again first; the model starts where both have succeeded.
- CourseDeletionRecovery.RecoveryCompletes: recovery of several job folders is recovery of each, one at a time; that their entries do not overlap is assumed.
- CourseRows.CourseDatabase.Delete: the idle check, reauthorisation and the file plan inside the transaction are not part of its contract; files are joined in CourseFilePlan.Delete.
- CourseFilePlan.Delete: the idle check, reauthorisation and the clean-up of remote resources are not part of this model.
- CourseRows.ArchiveCommitsIff: keys have no delete action of their own; preserved tables of the server refer to preserved tables only, so none would fire there.
- CourseRows.Close: columns compare as SQL text without type affinity or collation.
- ContentService.ContentService.Upload: the object store's temporary files and digests are left out; a file is its path, digest, size and type, and a draft keeps the order of insertion where the source sorts by path.
- ContentContract.Grow: the nested dictionary is a value, not updated in place, so aliasing between dictionaries is not modelled.
- ContentContract.CheckFileSet: case folding is per character, and normalisation, white space and encoded width are parameters.
- SnapshotStore.DurableIff: packed refs and the modification times of loose refs as evidence of age are one directory time; workspaces of submissions are not collected.
- ClassroomCommands.TrailSpellsPath: payload shapes, identifiers and access to course, session and assignment are the flag `allowed`; notices count only blanks, tabs and newlines as white space.
- ContentService.ContentService.SetStatus: reopens any archived course, where the source refuses one whose personal data were destroyed, and does not ask before archiving whether the course is idle.
- ContentStore.ReleaseIsItsRevision: the erasure of a collection, with its course or by the privacy archive because it was for named students, ends its history and is not a step.
- AssignmentAdmin.PublishedIsWhatWasChecked: zip contents, templates and the verdict of grading are opaque; dates, runner image, course status and readiness at publication are flags, and whether the course is archived is not asked elsewhere; the separate read before an imported grading template is left out.
- AssignmentService.AssignmentService.Upload: the mode of the draft, which an earlier read tests, and the 50 MiB limit are not modelled.
- AssignmentService.AssignmentService.Claim: jobs are taken in order of insertion; their creation times are taken to agree with it.
- AssignmentService.AssignmentService.ChangeAll: the snapshot and the confirmed fingerprint are conditions of the batch step in the value model, not of this method.
- ScheduleRivals.RivalsFireForward: reconfiguration, which stops the processes, is not a step here; that a slot collected by two processes is one collection run is left to the run key.
- Schedule.EmissionLag: intervals are whole microseconds; rounding of float seconds is not modelled.
- Attempts.TruncationAgrees: one student's history; scores are reals, and values that are not numbers are one case.
- Gradebook.Gradebook.Publish: workbook parsing, column choice and roster matching are one flag.
- Event telemetry of the classroom (sequence numbers, presence): single-row comparisons without an invariant across operations.
- Status bookkeeping of the privacy archive after its transaction, orphaned accounts and audit tables other than those of classroom commands.
- Compilers, containers, HTTP, rendering, spreadsheets, archive formats, deployment and exam papers: foreign processes or field validation.
- Git commands that fail after taking effect, disk corruption, symbolic links and permission attacks.
