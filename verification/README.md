# Crash recovery of the host framework, verified

This project models the parts of the host framework that must survive being
stopped at any moment, and proves what they promise.

* **The private profile store and its recovery archive.** A publication writes
  a marker, an immutable revision and the profile, each through a temporary,
  and then removes the marker. The disk is a map from names to contents with an
  identity and a change stamp; every system call is one step, a crash is a stop
  after any step, and an exception, unlike a crash, runs the clean-up. The model
  keeps torn temporaries byte by byte. `ProfileInspection` and `ArchiveState`
  say what inspection decides; `PublicationCrash` and `RestorationCrash` what
  it decides after a crash at every stage; `RecoverySteps`, `RecoveryProgress`,
  `RecoveryTheorems` and `ArchiveConservation` what a recovery does over every
  run, however often interrupted; `StoreRuns` what holds over every run of all
  operations together; `FinishedBatches` that no damage to what a finished
  recovery left goes unnoticed. `ProfileStore`, `RecoveryArchive`,
  `StoreReader` with `MarkerReader` and `BatchReader`, `SnapshotReader` and
  `ProfileBackup` are the operations, each proved against those specifications.
* **The undo-log publisher for application updates** (`Update*`). A record of
  what was there is written before N files are replaced; every state on the way,
  those inside a restoration included, can be undone exactly.
* **Release pointers and what moves them** (`ReleasePointers`, `Deployment`,
  `BasePathMigration`, `AppRepository`, `PlatformCommit`, `FleetUpdate`). Builds,
  installations, health checks, git and activations are calls that succeed or
  fail at any time; each is kept in a log with the state it was made in, and a
  command that succeeds has made exactly the calls it must.
* **The two-file web server publication** (`CaddyBundle`): two files and a job
  in any state, under commands that fail or come too late.
* **Self-contained algorithms**: release composition (`ReleaseTree`,
  `ReleaseCopying`, `ReleaseComposer`, over `FileTree`), template expansion
  (`ServiceTemplate`), script reachability (`ScriptGraph`) and batch framing
  (`BatchFraming`).

Every operation that can be refused counts what was refused or went wrong, and
its contract says both what its success means and that nothing but such a
failure, or a condition the caller could have checked, keeps it from succeeding.

What the proofs turned up, stated as lemmas or exact conditions below:

* Publishing does not check the limits reading enforces, so a publication can
  leave a store nobody can read: exactly when the new chain would pass 10,000
  revisions or 64 MiB, or the revision 8 MiB (`PublicationCrash.ExtendedChain`,
  `PublicationCrash.FullStoreRefused`).
* A marker temporary without a marker, a torn profile temporary beside a
  published revision, a torn temporary during a restoration, and the 10,000th
  revision beside its temporary are refused for good, not recovered.
* A recovery can end refused although every step succeeded, exactly when it
  works to a manifest that does not list the history it is giving up
  (`RecoveryTheorems.CommitCleanIff`, `UnlistedManifest.UnlistedRefused`). Only
  a manifest this program never writes can do that: one prepared from the disk
  always lists it, and no run of the program gets there
  (`StoreRuns.RunHealthy`).
* Two created update targets of which one is inside the other pass the checks,
  and a publication that reaches its record can then be neither finished nor
  undone (`UpdatePublisher.ClashBlocks`, `UpdatePublisher.ClashAccepted`).
* An update record over 32 MiB is written but never read back
  (`UpdatePublisher.UpdatePublisher.Recover`); the planner's limits exclude it.
* A migration that has pruned a former release nobody pointed at can only
  succeed or report a failed recovery (`BasePathMigration.Migrator.Migrate`).
* An installation can raise with other files than it found: where its only
  failure was that it could not remove its candidate, and where an error that is
  not the installer's own (a temporary that cannot be removed, command output
  that cannot be decoded) passes its handlers by, so that nothing is put back.
  The second can leave one file new and one old
  (`CaddyBundle.Installer.InstallBundle`, `CaddyBundle.HalfWritten`).
* A release source that is the output's directory or contains it passes the
  configuration check, and its copy cannot finish
  (`ReleaseComposer.EnclosingAccepted`, `ReleaseTree.NoFinishedCopy`).
* Template validation is strictly weaker than expansion
  (`ServiceTemplate.ValidationIsWeaker`).

## Model

| member | source | states |
|---|---|---|
| ProfileInspection.HeldOnce | local_web_server/host_profile_store.py:404-437 | A directory listing holds at most one history: two sequences of revisions that both account for every numbered file are the same sequence. |
| ProfileInspection.ChainOf | local_web_server/host_profile_store.py:404-437 | The chain of a listing: a sequence that accounts for every history file, is digest-linked, has distinct identities and is within all four bounds; none is returned only where no such sequence exists. |
| StoreReader.ReadChain | local_web_server/host_profile_store.py:404-437 | The reading loop, with its running total, its set of identities and its name counter, returns exactly that chain, or fails exactly where there is none. |
| StoreReader.NextPasses | local_web_server/host_profile_store.py:416-436 | No file of a valid chain is rejected on the way: the running limits the loop applies to the next file are implied by the limits on the whole. |
| StoreReader.ReadState | local_web_server/host_profile_store.py:740-784 | The procedural inspection (chain, marker, what stands beside it, in the order it is read) returns exactly the classification defined on listings. |
| MarkerReader.ReadTransaction | local_web_server/host_profile_store.py:752-784 | Reading a transaction marker against the revisions there are, check by check, comes to exactly the specified classification: which of the two sides the profile is on, or refused. |
| MarkerReader.ReadRestoration | local_web_server/host_profile_store.py:824-850 | The same for a restoration marker: the revisions in place must be a beginning of those planned, the residue a copy of what is published, and the profile absent or the whole of it. |
| MarkerReader.CheckRestoration | local_web_server/host_profile_store.py:801-823 | A restoration marker passes exactly if it numbers its revisions from one, repeats none, plans the last and agrees with its own digest. |
| BatchReader.ParseManifest | local_web_server/host_profile_recovery.py:88-126 | The reading of a manifest, record by record with a set of names seen and the order rebuilt, accepts exactly the manifests that list the temporaries in their fixed order, then no revision or every one last to first, then the marker that names the batch. |
| BatchReader.LoadBatch | local_web_server/host_profile_recovery.py:140-171 | Reading one batch back: a manifest staged before any move may be a prefix of the one the plan would write; anything not accounted for, two manifests that differ or a candidate of another digest is refused. |
| BatchReader.ReadFinished | local_web_server/host_profile_recovery.py:186-193 | A finished batch is accepted exactly when its manifest reads and every record's file is in it with that identity, digest and size. |
| BatchReader.CheckPending | local_web_server/host_profile_recovery.py:196-225 | The pending batch is accepted exactly when its manifest is about the plan, covers every temporary there is, and each record's file is in one of the two places, unchanged, those archived before those that wait. |
| FinishedBatches.OverIsWhole | local_web_server/host_profile_recovery.py:173-194 | Wherever inspection does not refuse, every batch but the pending one has its manifest and, for every record of it, the archived file with that inode, digest and size, and no other file; the marker is the last of them and names the batch. |
| FinishedBatches.DamageRefused | local_web_server/host_profile_recovery.py:186-193 | A store inspection accepts is refused once any archived file of a recovery that is over is removed, replaced by another file, or overwritten by bytes of another digest or size. |
| FinishedBatches.LostPlanRefused | local_web_server/host_profile_recovery.py:185-191 | It is refused as well once such a batch has lost its manifest. |
| StoreReader.Inventory | local_web_server/host_profile_recovery.py:173-194 | The archive scan, batch by batch and file by file, accepts exactly when there are at most 128 batches of at most 256 MiB in all, every batch but the pending one is complete and the pending one readable; the total it returns is the bytes retained. |
| StoreReader.ReadArchive | local_web_server/host_profile_recovery.py:227-241 | Reading the archive for a plan accepts exactly the archives in which every finished batch is complete and the pending one agrees with the plan. |
| StoreReader.ReadDisk | local_web_server/host_profile_store.py:734-738 | Inspection of the whole disk, state first and archive second, is exactly the specified inspection. |
| SnapshotReader.CheckSnapshot | local_web_server/host_profile_store.py:663-685 | The checks before a restoration accept exactly the snapshots with valid links, initialisation first and only first, distinct identities, a total within 64 MiB and the profile equal to the last revision. |
| ManifestOrder.PreparedReads | local_web_server/host_profile_recovery.py:243-259 | A freshly prepared manifest is always one the manifest reader accepts, and it lists revisions exactly when a restoration with history is being rolled back. |
| ManifestOrder.PreparedAgrees | local_web_server/host_profile_recovery.py:196-225 | Before anything has moved, a fresh manifest agrees with the plan it was prepared from. |
| ManifestOrder.EntriesBounded | local_web_server/host_profile_recovery.py:140-171 | A batch that loads holds no more than the 10,006 entries the directory listing allows. |
| InspectionSteps.PlanDescribes | local_web_server/host_profile_store.py:740-784 | What every pending plan says is true of the disk: its marker, current profile and history are there, a plan that goes forward has the candidate at the tip, and one that goes back has the earlier profile in place. |
| RecoveryProgress.InspectionOffers | local_web_server/host_profile_recovery.py:227-241 | Whenever inspection offers a plan there is a manifest to work to, retained or fresh, that is readable and agrees with the disk. |
| RecoveryProgress.PreparedIs | local_web_server/host_profile_recovery.py:328-337 | A plan that inspection offers can always be given a fresh manifest for its own batch. |
| RecoveryProgress.OnlyMarkerWaits | local_web_server/host_profile_recovery.py:356-374 | Whenever a recovery looks at the candidate, the profile or the commit, every other file its manifest lists has been retired, the marker is the last line of the manifest and the only one that waits, and no temporary is left. |
| RecoveryTheorems.StepSound | local_web_server/host_profile_recovery.py:356-374 | Every step short of moving the marker leaves a disk on which inspection offers the same recovery one step further on: same marker, same planned revision, same outcome, strictly less work, the archive still readable and within its bound, and nothing but the candidate under the candidate's names. |
| RecoveryTheorems.WorkShrinks | local_web_server/host_profile_recovery.py:328-382 | The work left (directories, waiting files, bytes of the manifest and of the candidate) strictly decreases with every step. |
| RecoveryTheorems.OutcomeKept | local_web_server/host_profile_recovery.py:328-382 | No step changes where the recovery will end. |
| RecoveryTheorems.CommitClean | local_web_server/host_profile_recovery.py:368-382 | Moving the marker leaves a clean store whose files are exactly the outcome. |
| RecoveryTheorems.CommitCleanIff | local_web_server/host_profile_recovery.py:368-382 | Moving the marker ends clean if and only if the manifest lists whatever history a rolled-back restoration still has; otherwise the disk is refused from then on. |
| RecoveryTheorems.FreshManifestLists | local_web_server/host_profile_recovery.py:243-259 | A manifest prepared from the disk always meets that condition. |
| UnlistedManifest.UnlistedRefused | local_web_server/host_profile_recovery.py:368-382 | A manifest that lists only the marker, retained for a restoration of any snapshot stopped with some but not all of its revisions in place, is read and agrees; the one step left succeeds and leaves a store inspection refuses. |
| RecoveryTheorems.OneManifest | local_web_server/host_profile_recovery.py:140-171 | A disk determines the plan and the manifest a recovery of it works to. |
| RecoveryTheorems.StepAvailable | local_web_server/host_profile_recovery.py:328-382 | A sound recovery is never stuck: some step is always possible. |
| RecoveryTheorems.RunResumes | local_web_server/host_profile_recovery.py:328-382 | Any run of recovery steps, interrupted after any step and resumed any number of times, is finite with a bound known at the start, stays on course at every state, and where it stops the store is clean and holds exactly what the first uninterrupted run would have left. |
| RecoveryTheorems.RunBounded | local_web_server/host_profile_recovery.py:342-355 | At every state of every such run the bytes retained in the archive are within 256 MiB: the reservation made before the first move covers everything that follows. |
| RecoveryTheorems.CleanStops | local_web_server/host_profile_recovery.py:227-241 | A clean store offers no recovery step. |
| ArchiveConservation.OverwrittenProfile | local_web_server/host_profile_recovery.py:307-326 | Whenever a profile is about to be overwritten, a revision on the disk already holds its bytes. |
| ArchiveConservation.StepPreserves | local_web_server/host_profile_recovery.py:307-382 | No step loses a private file: its bytes and identity are live under its name or in a batch, or it was the profile and a revision present holds its bytes. |
| ArchiveConservation.RunPreserves | local_web_server/host_profile_recovery.py:307-382 | The same over every run of any length. |
| RecoveryArchive.ReadManifest | local_web_server/host_profile_recovery.py:331-337 | Chooses the manifest inspection offers: the retained one, and a fresh one only where none is retained. |
| RecoveryArchive.Archive.PublishManifest | local_web_server/host_profile_recovery.py:295-305 | From whatever an earlier run left of it, the manifest is completed and sealed; every state on the way is a recovery step, and it fails only if the system refuses a call. |
| RecoveryArchive.Archive.RetireFiles | local_web_server/host_profile_recovery.py:358-365 | Moves every file but the marker in manifest order, skipping what has moved; no identity check on the way can fail, and it stops short only if the system refuses a call. |
| RecoveryArchive.Archive.StageCandidate | local_web_server/host_profile_recovery.py:261-293 | Completes the staged candidate from any prefix an earlier run left; it succeeds exactly when no call is refused and what was staged is a prefix of the candidate. |
| RecoveryArchive.Archive.PublishCandidateProfile | local_web_server/host_profile_recovery.py:307-326 | Publishes the candidate as the profile, cloned or renamed over, from any point an earlier run reached; it succeeds exactly when no call is refused and what was under the candidate's names is the candidate or a beginning of it, and afterwards only the marker waits. |
| RecoveryArchive.Archive.Commit | local_web_server/host_profile_recovery.py:368-382 | Moves the marker last; the store is then clean with exactly the outcome, and it succeeds exactly when nothing is refused and the manifest lists the history to be given up. |
| RecoveryArchive.Archive.Apply | local_web_server/host_profile_recovery.py:328-382 | A whole recovery: it succeeds if and only if the system refuses nothing, the reservation fits, the manifest lists the history to be given up and nothing but the candidate is under the candidate's names; success is a clean store holding the outcome; every state on the way is one more step of one run; where the reservation does not fit nothing but empty directories has been made. |
| PublicationCrash.ExtendedChain | local_web_server/host_profile_store.py:404-437 | One more revision gives a chain that reads back if and only if the count, its own size and the total stay within the limits of reading, none of which publishing checks. |
| PublicationCrash.FullStoreRefused | local_web_server/host_profile_store.py:714-732 | Publishing one more revision over 10,000 goes through and turns a clean store into one inspection refuses. |
| PublicationCrash.StageChain | local_web_server/host_profile_store.py:714-732 | What the chain reader returns at each stage of a publication, including that the 10,000th entry and a temporary together are refused. |
| PublicationCrash.CrashClassified | local_web_server/host_profile_store.py:714-784 | Inspection after a crash at any stage of a publication, byte of a temporary included: clean at both ends, refused exactly for a marker temporary without a marker, a torn profile temporary, a published revision beyond capacity or a revision temporary beside 10,000 revisions, and otherwise the one plan belonging to the stage. |
| PublicationCrash.CrashRecovers | local_web_server/host_profile_store.py:740-784 | Recovery of a publication leads to the store before it while the revision is unpublished and to the store after it once it is published. |
| PublicationCrash.ProfileNeverTorn | local_web_server/host_profile_store.py:714-732 | At every stage the profile is byte for byte the old one or the new one. |
| CrashRecovery.StageInspected | local_web_server/host_profile_store.py:734-784 | The same classification on the whole disk, archive included. |
| CrashRecovery.PublicationRecovered | local_web_server/host_profile_recovery.py:328-382 | A publication stopped at any stage that is not refused, recovered by any run however often interrupted, ends clean with the former store or the committed one according to whether the revision was published. |
| ProfileStore.Store.Write | local_web_server/host_profile_store.py:332-345 | Writes a temporary in any number of chunks; every state on the way is a prefix of the content, and it succeeds exactly when nothing is refused. |
| ProfileStore.Store.Atomic | local_web_server/host_profile_store.py:347-363 | Replaces a file through a temporary: every state on the way is one of the stages of that replacement, content over 64 MiB touches nothing, and it succeeds exactly when nothing is refused, the size is allowed and the temporary was absent. |
| ProfileStore.Store.Immutable | local_web_server/host_profile_store.py:365-391 | Clones a file to a new name through a temporary, with the moment both names exist visible; it succeeds exactly when nothing is refused, the size is allowed and both names were absent. |
| ProfileStore.Store.PlaceFiles | local_web_server/host_profile_store.py:724-728 | Marker, revision, profile, in that order, every state on the way a stage of the publication, each read back once it is written; it succeeds exactly when nothing is refused and the sizes are allowed. |
| ProfileStore.Store.Publish | local_web_server/host_profile_store.py:714-732 | Publishing one revision: every state the disk passes through is a stage of this publication, and it finishes if and only if nothing is refused and the marker and the revision are within the size that is written; the directories are checked before anything is written and again before the marker goes, and each file is read back. |
| ProfileStore.Store.Initialise | local_web_server/host_profile_store.py:600-611 | Where the system refuses nothing, publication of the first revision starts exactly when the store is clean and empty and the registry and timestamp are valid, and the revision is the initial one of that registry; otherwise the disk is untouched. |
| ProfileStore.Store.Change | local_web_server/host_profile_store.py:613-632 | Where the system refuses nothing, a change is left alone exactly when it asks for what is there, and its publication starts exactly when the clean store holds what the caller previewed, the operation is one that such a store may be changed by, and the revision is new; the revision is of that operation, application and time, over the former profile. A rejected change leaves the disk untouched, and the directories are checked at every point they should be. |
| ProfileStore.EnvelopeParses | local_web_server/host_profile_store.py:145-168 | A revision parses if and only if its digest is that of its registry and its timestamp parses, and it is either the initial one, of no application and without a predecessor, or has one and is a restored backup of no application or a registration, a migration or the restoration of one of an application whose name is a lower-case letter and then letters, digits and hyphens. |
| RestorationCrash.RestoreClassified | local_web_server/host_profile_store.py:801-850 | Inspection after a crash at any stage of restoring a snapshot of any length: refused exactly for a marker temporary alone, a torn revision or profile temporary, or the 10,000th revision beside its temporary; otherwise the plan belonging to the stage. |
| RestorationCrash.RestoreChain | local_web_server/host_profile_store.py:801-850 | At every stage the history is exactly a prefix of the snapshot. |
| RestorationCrash.MarkerFits | local_web_server/host_profile_store.py:58-66 | No snapshot a restoration accepts has a marker longer than the limit under which markers are read. |
| RestorationCrash.RestoreAllOrNothing | local_web_server/host_profile_store.py:655-712 | A restoration with fewer than all revisions in place is undone to nothing at all; with all of them it is finished to exactly the snapshot. |
| CrashRecovery.RestoreStageInspected | local_web_server/host_profile_store.py:801-850 | The same classification on the whole disk, archive included. |
| CrashRecovery.RestorationRecovered | local_web_server/host_profile_recovery.py:243-259 | A restoration stopped at any stage that is not refused, recovered by any run however often interrupted, ends clean and empty or with exactly the snapshot. |
| ProfileStore.Store.PlaceRevisions | local_web_server/host_profile_store.py:699-702 | Clones the revisions in order, the directories checked before each and each read back; every state on the way is a stage of the restoration. |
| ProfileStore.Store.PlaceSnapshot | local_web_server/host_profile_store.py:692-705 | Marker, revisions, profile; it gets there exactly when nothing is refused and every file is within its size limit. |
| ProfileStore.Store.RestoreSnapshot | local_web_server/host_profile_store.py:655-712 | Starts exactly on a clean empty store with an acceptable snapshot; every state until the profile is placed is a stage of the restoration and every later one a recovery step; success is a clean store holding exactly the snapshot, the directories having been checked and each file read back at every point they should be, and, once started and with nothing refused, it succeeds if and only if the archive has room. |
| ProfileStore.Store.Recover | local_web_server/host_profile_store.py:868-877 | Does nothing unless the disk still calls for exactly the plan that was previewed; otherwise it succeeds exactly as the archive does, leaving a clean store with the outcome of that plan. |
| StoreRuns.CleanMeans | local_web_server/host_profile_store.py:740-749 | A clean store is numbered 1..n, linked, unique, initialised exactly first, with the tip as its profile and no marker or temporary. |
| StoreRuns.CommittedHistory | local_web_server/host_profile_store.py:714-732 | A committed publication within capacity is clean and its history extends the former one. |
| StoreRuns.StepHealthy | local_web_server/host_profile_store.py:600-712 | From a healthy store (clean, or recoverable to a clean store with the history) any publication, restoration, recovery step or directory made for a recovery that has no room, stopped anywhere, leads to a healthy store, or to one of the refused stops the crash classifications name. |
| StoreRuns.RunHealthy | local_web_server/host_profile_store.py:600-877 | Over every run of initialisations, changes, restorations and recoveries, those that stop for lack of room included, each stopped anywhere, every state but possibly the last is healthy, and the last is healthy or refused. |
| StoreRuns.HistoryOnlyGrows | local_web_server/host_profile_store.py:600-877 | Between any two clean states of a run the earlier history is a prefix of the later one. |
| ProfileBackup.ParseBackup | local_web_server/host_profile_backup.py:122-157 | The parsing loop returns exactly the specified reading of a document. |
| ProfileBackup.ReadSnapshot | local_web_server/host_profile_store.py:508-539 | Under the limits every caller passes, a snapshot is read exactly when the store is clean, not empty and within those limits, and it is then the store's chain and profile. |
| ProfileBackup.BuildBackup | local_web_server/host_profile_backup.py:228-251 | A backup is built exactly when its records and document fit 64 MiB and it parses again. |
| ProfileBackup.ValidatorsAgree | local_web_server/host_profile_backup.py:122-157 | The three chain validators (store, restoration, backup) accept the same chains up to their count, size and emptiness limits. |
| ProfileBackup.BackupReadsBack | local_web_server/host_profile_backup.py:228-251 | A document built from a snapshot that parses at all parses to that snapshot. |
| ProfileBackup.BackupRoundTrip | local_web_server/host_profile_backup.py:228-251 | From a clean store through a backup into a restored store: the document parses, the restorer accepts it, and the restored store gives out the same profile and the same revisions. |
| ProfileBackup.RestoreBackup | local_web_server/host_commands.py:374-378 | Reading a backup and restoring it: the store that comes of it gives out exactly the snapshot in the document; with nothing refused it succeeds if and only if the document reads, the snapshot is acceptable, the store is clean and empty and the archive has room, and a document or store that will not do changes nothing. |
| UpdateFiles.Repository.StageTemporary | local_web_server/app_update_transaction.py:127-145 | Creates and writes one temporary; every state on the way differs from the former tree in that temporary only, and one that fails is unlinked unless that is refused as well. |
| UpdateTree.DeepestEmpty | local_web_server/app_update_transaction.py:218-229 | Removing the deepest created directory first, each is empty when its turn comes. |
| UpdateTree.TargetsBackCleanable | local_web_server/app_update_transaction.py:433-461 | Once every target is as it was, only the directories and temporaries the record names are left to remove. |
| UpdateRestore.Restorer.RemoveTemporaries | local_web_server/app_update_transaction.py:424-429 | Removes the named temporaries, tolerating those already gone; every state on the way can still be undone. |
| UpdateRestore.Restorer.RemoveDirectories | local_web_server/app_update_transaction.py:218-229 | Removes the created directories deepest first, tolerating those already gone, and afterwards the tree is what it was. |
| UpdateRestore.Restorer.RestorePresent | local_web_server/app_update_transaction.py:445-460 | Puts one target back, bytes and mode, through a temporary; every state on the way can still be undone, and one that fails leaves no temporary unless removing it is refused as well. |
| UpdateRestore.Restorer.RestoreFile | local_web_server/app_update_transaction.py:437-460 | Puts one target back to its bytes and mode or to its absence. |
| UpdateRestore.Restorer.Restore | local_web_server/app_update_transaction.py:433-461 | From any state of an interrupted publication or restoration, undoes everything and clears the record last, or leaves the record and a state that can still be undone. |
| UpdatePreparation.Preparer.MakeParents | local_web_server/app_update_transaction.py:361-372 | Creates the missing parents of a target from the first missing one down, failing only if a call is refused or a parent is not a directory. |
| UpdatePreparation.Preparer.CleanUp | local_web_server/app_update_transaction.py:422-430 | Removes what preparation made; nothing that was there before is ever touched. |
| UpdatePreparation.Preparer.Prepare | local_web_server/app_update_transaction.py:354-420 | Prepares every change beside its target without changing anything that was there; it succeeds unless a call is refused or something other than a directory is in a target's way. |
| UpdatePublisher.UpdatePublisher.Apply | local_web_server/app_update_transaction.py:293-301 | Makes the changes one by one; at every state the record still undoes all of them, and at the end every target is as planned. |
| UpdatePublisher.UpdatePublisher.Publish | local_web_server/app_update_transaction.py:268-318 | With no target inside another, a crash at any state of a publication leaves what recovery needs: a record that undoes it or, without one, the targets all before or all after; it is done exactly when nothing blocks the parents, no call is refused and the caller's check passes, and that check was made once, of the finished tree with the record still there; a failure rolls back exactly or leaves an undoable record, the latter only after a refusal. With a target inside another it is never done, and every state has everything untouched or a record that is blocked. |
| UpdatePublisher.UpdatePublisher.Recover | local_web_server/app_update_transaction.py:251-266 | From an interrupted publication, or an interrupted recovery of one, restores every target's bytes, mode or absence and the directories; a record over 32 MiB is never recovered and a blocked one never recovers, at any state on the way. |
| UpdatePublisher.ClashBlocks | local_web_server/app_update_transaction.py:354-420 | With one created target inside another, preparing makes a directory where the outer one is to be, so the record can neither be applied nor undone. |
| UpdatePublisher.ClashAccepted | local_web_server/app_update_transaction.py:321-352 | Two created files, `a` and `a/b`, pass the checks on changes and clash. |
| UpdateRecord.PlannedRecordFits | local_web_server/app_update.py:808-813 | A record of the six targets, each read under the planner's limits whatever was in it, always encodes to no more than the 32 MiB that recovery decodes. |
| UpdatePublisher.PlannedRecovers | local_web_server/app_update_transaction.py:268-318 | Whatever the planner asks for, no target is inside another, and a crash at any state of its publication leaves a record that undoes it and can be read back, or no record and the targets all before or all after; of the system it is only taken that no temporary is given a name over 255 characters. |
| ReleasePointers.Host.SelectPointer | local_web_server/runtime.py:328-369 | Points a pointer at a release that exists, or removes it; fails only if a call fails or the release is missing, changing nothing. |
| ReleasePointers.Host.ReadPointer | local_web_server/runtime.py:301-325 | A pointer that can be read is the one that is there. |
| ReleasePointers.Host.Prune | local_web_server/runtime.py:456-495 | Removes exactly the releases that are neither protected nor pointed at, one by one; stopped anywhere, those are the only ones that can be gone, and a missing protected release removes nothing. |
| Deployment.Deployer.AwaitService | local_web_server/deploy.py:465-487 | Polls until one look finds everything well, each look ending at the first bad answer and all answers those that were given; every earlier look found something wrong, and it gives up only after fifteen seconds and one more look. |
| Deployment.Deployer.RestorePointers | local_web_server/deploy.py:521-557 | Puts both pointers back, each attempt on its own and neither where something else is selected than this command selected; each pointer is the former one unless moving that very pointer failed, and restored is claimed only where both read back as the former pair. |
| Deployment.Deployer.RecoverPostSwitch | local_web_server/deploy.py:505-617 | Each pointer is back unless moving that pointer, or the look at an expected selection before it, failed, whatever becomes of the service and of pruning; the service is touched and releases are removed only with the former pair in place; neither former release is ever lost, and with no failure only those two remain. |
| Deployment.Deployer.RunSelected | local_web_server/deploy.py:315-332 | Brings the selected release up: installed where that was put off, started where it is a service, and found well by a look, in that order and with that release selected, before the one before it is recorded. |
| Deployment.Deployer.Switch | local_web_server/deploy.py:314-362 | Selecting a release: completed exactly when nothing fails. A failure with the pointers moved never moves the previous pointer, and restores the exact former pair unless moving the current pointer back (or the look at an expected selection) itself failed, whatever else fails; only then is the service restarted or a release removed. |
| Deployment.Deployer.KeepRunning | local_web_server/deploy.py:237-249 | A deployment of what is already current changes nothing and fails exactly when something fails or the current release is not the expected one. |
| Deployment.Deployer.Deploy | local_web_server/deploy.py:149-369 | A plain deployment raises exactly when something failed or an expectation was not met; it skips, keeps or completes exactly by hook, commit and configuration. Completed is (commit, former current) with only those releases, after exactly the checks, installation, start and good look that are called for, each in the state it must be made in; a bad look at the new release raises with the pointers moved. After such a failure the exact former pair is back unless moving the current pointer back (or the look at an expected selection) itself failed, and if it is not back no release is gone. |
| Deployment.DeployLogLooks | local_web_server/deploy.py:314-340 | What a completed deployment did ends with a good look at the new release, selected and, where it is a service, started, and where that was put off till then installed just before. |
| Deployment.Deployer.Rollback | local_web_server/deploy.py:371-409 | Exchanges the pointers exactly when both exist and nothing fails, after a restart where it is a service and a good look at the former release, selected; a bad look raises with the pointers moved. After such a failure the exact former pair is back unless moving the current pointer back itself failed; neither pointed-at release is ever lost. |
| Deployment.RollbackTwice | local_web_server/deploy.py:371-409 | Two rollbacks leave both pointers as they were. |
| BasePathMigration.Migrator.ValidateLocked | local_web_server/public_base_path_migration.py:271-287 | Under the lock: candidate registry, former pointers and exactly the expected releases, once before the build and once after. |
| BasePathMigration.Migrator.Restore | local_web_server/public_base_path_migration.py:308-324 | Puts the registry back from either side and installs from it, and never moves a pointer or a release; other pointers or another registry than those of the migration are left as they are. It fails only then or after a failure. |
| BasePathMigration.Migrator.RemoveAttemptRelease | local_web_server/public_base_path_migration.py:478-507 | Removes exactly the release this migration built; with that release still selected, or any release nobody accounts for, it removes nothing and fails. |
| BasePathMigration.Migrator.VerifyRestored | local_web_server/public_base_path_migration.py:328-348 | Says the former state is restored only when registry, pointers and releases are exactly the former ones. |
| BasePathMigration.Migrator.ValidateFinal | local_web_server/public_base_path_migration.py:350-367 | Accepts exactly the candidate registry, the final pointers and a target release that was validated twice, unless something fails. |
| BasePathMigration.Migrator.RecoverTransition | local_web_server/deploy.py:521-604 | Recovers a transition completely or reports that it did not; completely is registry, pointers and releases exactly as before. |
| BasePathMigration.Migrator.DeployTransition | local_web_server/deploy.py:264-369 | The deployment with a transition: succeeded is the candidate registry with the final pair after every step of it; broken is restored, not yet touched, or a pointer that could not be moved; a broken recovery needs a second failure, a registry revision cut short or a pruned former release; and it is said to be a verification exactly where one failed. |
| BasePathMigration.Migrator.RunTransition | local_web_server/deploy.py:315-345 | With the new release selected: installed from the candidate registry, started, found well and verified, in that order and all before the former release is recorded; then pruning and a last look, without moving the current pointer. |
| BasePathMigration.Migrator.VerifyCandidate | local_web_server/public_base_path_migration.py:296-306 | The verification of the new release: good exactly with the candidate registry before and after, the source unmoved and the verification itself good; its end is recorded either way. |
| BasePathMigration.Migrator.RestoreBefore | local_web_server/public_base_path_migration.py:448-465 | After a failed registry publication, with the former pointers in place, puts the registry back if it had changed and requires everything else untouched; anything but the two known registries is left alone. |
| BasePathMigration.Migrator.Migrate | local_web_server/public_base_path_migration.py:175-418 | Every run ends migrated, exactly as before, or with the explicit recovery failure; migrated exactly when there is something to do, the host allows it and nothing fails, and then after exactly the steps of a migration, each in its state; a verification failure is reported exactly where a verification failed and recovery did not, and then the former release was served and verified again; the recovery failure needs two failures, a registry revision cut short, a deployment that had succeeded or a pruned former release, and after such a pruning it is the only way to fail. |
| BasePathMigration.MigrationBringsUp | local_web_server/public_base_path_migration.py:289-306 | What a migration did includes an installation, a start, a good look and a good verification, each with the new release selected, the former one not yet recorded and the candidate registry in place. |
| PlatformCommit.ListingsMean | local_web_server/app_platform_commit.py:462-498 | The listings of tracked changes and untracked files match the plan if and only if the working tree is the head with exactly the planned changes made. |
| PlatformCommit.TouchedMean | local_web_server/app_platform_commit.py:533-582 | The paths a commit touched are the targets and hold the planned bytes if and only if it is its parent with exactly the planned changes made. |
| PlatformCommit.RestoredIsOriginal | local_web_server/app_platform_commit.py:129-137 | An update followed by its reversal is the original tree, file for file. |
| PlatformCommit.RequireExpectedWorktree | local_web_server/app_platform_commit.py:462-498 | Accepts exactly an untouched index and a working tree that is the head with the planned changes, unless a command fails. |
| PlatformCommit.VerifyCommit | local_web_server/app_platform_commit.py:533-584 | Accepts exactly a clean head whose parent is the expected commit and whose files are the parent's with the planned changes made, unless a command fails. |
| PlatformCommit.Commit | local_web_server/app_platform_commit.py:139-195 | Commits exactly the planned files on exactly the expected head, or their reversal, if and only if the plan changes something, each file really and no file twice, the repository calls for it and no command fails; new files are added to the index first, without which they are not committed; no commit that existed changes. |
| FleetUpdate.PreviewApp | local_web_server/fleet_update.py:481-643 | Where nothing fails: ready exactly if the repository is clean with its head live, the contract reads, a refresh with changes is planned and the activation is routine; current exactly if instead there is nothing new; skipped exactly if somebody has to adopt something first; blocked otherwise, and wherever anything fails. |
| FleetUpdate.RecoverUncommitted | local_web_server/fleet_update.py:245-272 | Recovered means the inverse was published and the head, the files and the live release are exactly the former ones; if the failure left only the planned edits, recovery succeeds unless something else fails. |
| FleetUpdate.RecoverApp | local_web_server/fleet_update.py:274-338 | Recovered means a live commit whose files are all the original ones, after a reversal, a check, a planned activation, the activation and its comparison; where something else than the former or the new release is live nothing is touched; from a clean update commit it succeeds exactly otherwise, unless something else fails. |
| FleetUpdate.ActivateUpdate | local_web_server/fleet_update.py:169-236 | True only with the commit clean, checked out and live, and checked, planned, activated and compared in that order; always true if nothing fails. |
| FleetUpdate.ApplyApp | local_web_server/fleet_update.py:93-243 | Each status means what it says, and what was done for it: updated is the update as a commit on the former head, live, after all six steps, the check on the new commit; blocked is untouched, with at most a refused update; recovered is the original files, committed and live. An application as it was planned is updated unless something fails. |
| FleetUpdate.Apply | local_web_server/fleet_update.py:76-91 | Results match the plan in length, order and identity; after the first failed recovery no application is touched. Of each application before that: updated if there was an update to make and nothing failed there, and otherwise reported current, skipped or blocked by exactly what it was; every result means what its status says. |
| CaddyBundle.Installer.WaitStopped | local_web_server/install.py:1081-1097 | Stopped exactly if the last looks missed the job and, where it had a process, missed that process or found another in its place, and no look before did; gives up only at the deadline. |
| CaddyBundle.Installer.WaitLoaded | local_web_server/install.py:1128-1135 | Loaded exactly if the last look found the job, every look before having missed it; gives up only at the deadline. |
| CaddyBundle.Installer.Bootstrap | local_web_server/install.py:1099-1126 | Tries again only where the system was busy and the job not there; succeeds only after an attempt that worked and the job then seen; gives up only at any other result, at a job that was there without one that worked, or after two seconds. |
| CaddyBundle.Installer.ReplaceLoadedJob | local_web_server/install.py:944-998 | Replaced means its process was looked up, it was told to go, it and that very process were gone, and it was bootstrapped; a failure is reported at exactly the stage the order had reached, with the process that may still be there. |
| CaddyBundle.Installer.RestoreLoadedJob | local_web_server/install.py:1000-1029 | Succeeds only with the very process kept that was to be kept, or the job taken down where it was there, the interrupted process waited for where it was not, and then bootstrapped and seen with a process; it fails only after a failure or two seconds. |
| CaddyBundle.Installer.RestoreFiles | local_web_server/install.py:832-836 | Both files back exactly, or a restore write was lost; each file is old or new at every moment. |
| CaddyBundle.Installer.WriteFiles | local_web_server/install.py:727-734 | Writes only what differs, the second file only after the first; each file is old or new at every moment, it succeeds exactly when no write fails, and what it leaves is decided by how the two writes ended. |
| CaddyBundle.Installer.UndoActivation | local_web_server/install.py:746-794 | Files first, then the job in the way the failure calls for: with no restore write lost both files are exactly the prior ones; running state is called restored only after that very course, and called lost only after another failure, two seconds, or a look that missed the job. |
| CaddyBundle.Installer.Activate | local_web_server/install.py:739-795 | Activated means reloaded, or told to go, missed and bootstrapped, with the new files. After an error of the installer's own the prior files are back unless a restore write was lost, and the job is brought back as the stage of the failure calls for; an error of another kind, which no handler catches, leaves the new files in place. |
| CaddyBundle.Installer.Preflight | local_web_server/install.py:672-721 | Goes on only with a validated candidate and, of a job said to be loaded, a look that found it; a job that had gone is revived and reported exactly so; a reload is chosen exactly where the job ran as it was said to and neither its description nor the listening addresses change. |
| CaddyBundle.Installer.PublishCandidate | local_web_server/install.py:671-797 | Between creating the candidate and removing it: with no restore write lost, a run that raises leaves other files than before exactly where an error of another kind than the installer's own came up after a file was written and before any was put back; what the writes left then stays. Otherwise as for the whole installation. |
| CaddyBundle.Installer.InstallBundle | local_web_server/install.py:656-797 | A run that returns had read the files and validated the candidate, and with restore writes succeeding leaves both files as desired; one that raises leaves both as they were, except exactly where the publication had returned with something to change and its candidate could not be removed, or where an error of another kind than the installer's own came up after a file was written and before any was put back; no candidate stays unless it could not be removed; an error claims restored running state only if the job was seen running on the prior files after the last write and the last order to go, and denies it only after a further failure, two seconds or a look that missed the job; it raises only if something failed, the job's state clashed or two seconds passed; no activation, reload or replacement is reported exactly where it was right. |
| CaddyBundle.HalfWritten | local_web_server/install.py:158-181 | A second write whose temporary can be neither moved nor removed leaves one file new and one old, which is neither what was there nor what was wanted. |
| ReleaseTree.AcceptEntries | local_web_server/config.py:230-252 | The nested loop accepts exactly non-empty lists with pairwise non-overlapping targets and no source inside the output. |
| ReleaseTree.ComposedUnder | local_web_server/release_composer.py:81-92 | With non-overlapping targets, everything under a target is its source, copied, whatever the other entries are. |
| ReleaseTree.ComposedElsewhere | local_web_server/release_composer.py:81-92 | Outside every target the release holds nothing but the directories above the targets. |
| ReleaseTree.ExecutableBits | local_web_server/release_composer.py:74-78 | A copy is executable exactly if any of the three execution bits of its source is set. |
| ReleaseTree.OrderIrrelevant | local_web_server/release_composer.py:121-123 | The order of the entries does not matter. |
| ReleaseTree.NoFinishedCopy | local_web_server/release_composer.py:81-92 | No finite tree contains a finished copy of itself inside itself, so copying a source that contains its own destination cannot finish. |
| ReleaseComposer.EnclosingAccepted | local_web_server/config.py:230-252 | A source that holds the output's own directory passes the check on entries, and no tree makes such a release composable. |
| ReleaseComposer.Composer.MakeDirs | local_web_server/release_composer.py:112-116 | Makes exactly the missing directories, and fails exactly when a call is refused or a file is in the way. |
| ReleaseComposer.Composer.CopyFile | local_web_server/release_composer.py:74-78 | Copies bytes and reduces the mode to executable or not; nothing outside the stage changes. |
| ReleaseComposer.Composer.CopySource | local_web_server/release_composer.py:81-92 | Copies a directory child by child; it terminates, changes nothing outside the stage, and fails only if a call is refused. |
| ReleaseComposer.Composer.ValidateSources | local_web_server/release_composer.py:35-71 | Accepts exactly the sources that exist with nothing protected in them. |
| ReleaseComposer.Composer.CopyEntries | local_web_server/release_composer.py:120-123 | Stages exactly the composition; it succeeds if and only if no call is refused and no source contains the stage. |
| ReleaseComposer.Composer.SetAside | local_web_server/release_composer.py:128-132 | Moves the old output aside whole, under a new hidden name. |
| ReleaseComposer.Composer.Swap | local_web_server/release_composer.py:125-150 | The stage becomes the output whole, and what was there is gone unless removing it is refused; a failed second rename puts the old output back, or it is still whole aside. |
| ReleaseComposer.Composer.TidyUp | local_web_server/release_composer.py:156-162 | The stage goes and an output left aside is put back; the output is lost to another name only after two failed renames. |
| ReleaseComposer.Composer.Compose | local_web_server/release_composer.py:98-162 | The output is exactly the composed release, or exactly what it was unless both renames that put it back failed, and then it is whole under another name; nothing else with an ordinary name changes and, unless a call is refused, nothing with a temporary name is left; it composes if and only if sources and output allow it, unless a call is refused. |
| ServiceTemplate.SequentialIsSimultaneous | local_web_server/service_command.py:38-46 | On well-formed arguments and brace-free values, three replacements one after the other are one simultaneous substitution, and no brace is left. |
| ServiceTemplate.BraceFreeIsWellFormed | local_web_server/service_command.py:38-46 | If no brace is left after expansion, the argument was literal text and whole placeholders. |
| ServiceTemplate.Validate | local_web_server/service_command.py:13-25 | Accepts exactly the templates in which removing the placeholders leaves no brace and some argument has a port. |
| ServiceTemplate.Expand | local_web_server/service_command.py:28-46 | Succeeds if and only if some argument has a port and every argument is literal text and whole placeholders, and then returns the simultaneous substitution. |
| ServiceTemplate.ValidationIsWeaker | local_web_server/service_command.py:13-25 | `{re{port}lease}` passes validation and is no template. |
| ScriptGraph.ReachableScripts | local_web_server/app_doctor.py:567-593 | The worklist terminates on every script map, cycles included, and returns exactly the reachable names, which is the least closed set containing the roots' triples. |
| ScriptGraph.ReachedIsClosed | local_web_server/app_doctor.py:567-593 | Every path of invocations stays inside every closed set. |
| ScriptGraph.ReachableExact | local_web_server/app_doctor.py:567-593 | A closed set of reachable names is all of them, and the least closed set. |
| ScriptGraph.InspectScripts | local_web_server/app_doctor.py:545-557 | The recursion and the coupling diagnostics hold exactly when some invocation path from `check` or `test:e2e` reaches a command that runs `check` or calls the platform's tool. |
| BatchFraming.HeaderExact | local_web_server/public_release.py:806-819 | A line splits into the expected name, type and size exactly when it is the header that is printed. |
| BatchFraming.FrameFound | local_web_server/public_release.py:802-825 | Wherever a frame is printed, the first newline after its start ends its header, whatever the content looks like. |
| BatchFraming.BatchContents | local_web_server/public_release.py:776-828 | For distinct names, succeeds exactly on the concatenation of header, content and newline for contents of the known sizes, and returns exactly those contents; no names, no output is looked at. |

## Left out

- Operating-system detail: descriptors, symbolic links, permission bits of directories, access control lists, extended attributes, locks and flushing to disk. What is kept is atomic replacement, creation that does not overwrite, removal, and one writer at a time.
- JSON, base64 and SHA-256: documents are values of one datatype, digests an uninterpreted function of them, and encoded lengths uninterpreted where no bound is claimed.
- Registry and timestamp validity in the store: one predicate each on bytes and on text.
- File identity: inode and change stamp only. The identities and archive state that a recovery plan also carries, and is compared by, are not part of the modelled plan.
- Digest collisions: a file planted under one of the candidate's names, of another content but with the candidate's digest, passes inspection; what recovery then does is that it stops there (`RecoverySteps.HonestCandidate` is the exact condition), and no step of this program leaves such a file.
- A torn temporary is a proper prefix of what was being written; other corruption is not modelled.
- Interrupts delivered as exceptions that are not errors (a keyboard interrupt between two calls): such a stop is treated as a crash.
- Removing a directory tree is all or nothing, so a half-removed release or backup directory is not modelled.
- Names of temporaries made by the system are new parts that no path ever contained, and `UpdatePublisher.PlannedRecovers` takes them to be of at most 255 characters.
- The git checks of a store, command supervision, HTTP and process inspection: questions that are answered or fail.
- The status snapshot, and writing a backup to a directory chosen by the caller.
- `service_command_migration.py`, `app_initialization.py` and `theme.py`: smaller machines of the same shape. Command line, templates, hooks and publication policy: no state worth a proof.
- ProfileBackup.ReadSnapshot: the limits are the constants all four callers pass; a caller's own smaller limits are not modelled.
- ProfileBackup.BackupRoundTrip: starts from a restoration that succeeded; which ones do is exact in `ProfileBackup.RestoreBackup`.
- StoreRuns.RunHealthy: a run may end in a refused stop, after which no operation does anything; which stops are refused is exact in the crash classifications.
- UpdatePublisher.UpdatePublisher.Recover: exact only for records that a publication wrote; for any other record only that a blocked one or one over 32 MiB changes nothing for the better. A temporary that a crash left while a target was being restored is in no record and stays beside the target.
- Deployment.Deployer.Deploy: an outside writer between two calls is not modelled.
- BasePathMigration.Migrator.DeployTransition: the deployment with a transition is modelled here, beside the plain one, because its recovery is the migration's; the case of a target that is already current cannot arise in a migration.
- BasePathMigration.Migrator.Migrate: assumes no outside writer to the registry, the pointers or the releases.
- FleetUpdate.ApplyApp: what a failing command did to the repository is arbitrary, so a failed recovery is not bounded by a number of failures.
- What reading a contract, planning an update and planning an activation come to are given to the fleet commands, not computed.
- CaddyBundle.Installer.InstallBundle: a long pause can make any wait fail, so success without failures is stated for runs shorter than two seconds. Which operations can fail with an error of another kind than the installer's own is taken from the code: writes (removing or closing a temporary) and commands (undecodable output).
- CaddyBundle.Installer.WaitStopped: whether the process asked about is the one that was running is the answer of the process listing.
- ReleaseComposer.Composer.CopyEntries: copying a source that contains the stage is modelled as giving up; the source would go on until the file system refuses.
- ReleaseComposer.Composer.CopySource: modes of directories are not modelled.
- ServiceTemplate.Expand: values are brace-free and contain a character that is no lower-case letter, as a decimal port and an absolute path do.
- BatchFraming.BatchContents: the cap on the size of the output, and a failing git command, are not modelled.
- ScriptGraph.ReachableScripts: which scripts a command runs, and whether it calls the platform's tool, are uninterpreted functions of its text.
