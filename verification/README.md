# EasyOps verification model

EasyOps is an operations platform: an API process accepts requests, Celery workers carry them out over
SSH, Docker and MySQL, and both share database tables and files. This project models the five parts in
which those pieces have to stay consistent with each other, and proves what they keep.

| part | files | what is modelled |
|---|---|---|
| batch execution | `ExecProtocol`, `ExecInvariant`, `ExecSafety`, `ExecTheorems`, `ExecWitnesses`, `ExecLaws`, `ExecService` | records, one row per host, undelivered tasks, workers and the re-aggregation of records, one step per database commit, in any interleaving with any number of records, retries and deleted assets |
| backups | `BackupNames`, `Retention`, `BackupStore`, `BackupJobs`, `BackupInvariant`, `BackupFiles`, `BackupSafety`, `BackupTheorems`, `BackupWitnesses`, `BackupSteps`, `BackupLaws`, `BackupService` | the three files of a backup, pruning by sorted file name, and any number of backup and restore jobs at once, one step per effect on the shared directory, the databases or the records |
| deployment | `DeployPlans`, `DeployProtocol`, `DeploySafety`, `DeployTheorems`, `DeployActive`, `DeploySteps`, `DeployLaws`, `DeployService` | plans, the Compose document, the fail-fast step executor, release records, workers advancing one remote command at a time, and the Compose files on the hosts |
| inspection | `InspectionRules`, `InspectionDrivers`, `InspectionTheorems`, `InspectionLaws`, `InspectionSteps`, `InspectionService` | the rule engine and its two drivers: one worker per host, or a loop in the API process |
| redaction | `Redaction` | the registry of secrets and the replacement of every secret in a text |

`Text` holds string order, occurrence and decimal numerals; `Options` and `Lists` hold shared vocabulary.

A protocol is a datatype `State`, an `Action` per commit-delimited block or per effect on a shared file, host or
database, `Enabled` and `Step`. Runs are sequences of actions, so a theorem about `After(s, acts)` is about every
interleaving of those actions; what one action comprises is listed below where it is more than one command. What SSH, MySQL, gzip
or Docker answer is part of the action, or an arbitrary function held in the configuration. The `…Service`
files hold classes whose methods update tables in place and are proved to perform exactly those steps. The `…Steps` and
`…Laws` files say what every step does, in any state, in terms of requests, rows, files, readings and answers alone.

## What the system relies on

- Each dispatched task is delivered at most once. `_recompute_record`, the idempotency check together with its
  insert, retry's select together with its update, and the look-up of a rollback point together with its insert
  are atomic.
- No two backups get the same timestamp from the clock. Nothing else is assumed of its order: a job may write its
  files long after it took its timestamp.
- A backup job advances in six steps: dump; both dump files written; compressed file read back and checked; digest
  written; old backups listed and deleted; consistency check and final commit. A restore job advances in three: backup
  file read; target dropped, created and filled; final commit. Steps of different jobs interleave freely, as the
  worker pool runs them without a lock; within one step they do not. Records are created with status `running`, so the
  first commit of both jobs changes nothing.
- Deploy projects are never edited, which is so: there is no call that edits one. A target host keeps its
  identity, and the deploy and backup modes are `real`.

## Where code and documentation disagree

- The status `timed_out` is documented and counted, but nothing writes it: `RowsMatchTasks` proves no row has it.
- A batch that names an asset twice, or whose asset is deleted before its task arrives, never finishes;
  `QuietRecordIsExact` proves that these are the only two ways, `DuplicateNeverFinishes` and `StrandedNeverFinishes`
  that neither ever ends, and `DeletedAssetStrands` gives a run of the second kind. In a batch that names an asset
  twice a host that succeeded is executed again: `SuccessStaysIff`, `AlwaysMatchesIff`. An inspection with a repeated
  asset never finishes either (`DriversAgreeIff`).
- The rule engine's documentation says missing data is always `unknown`. In the code `unknown` ranks below
  `healthy`, and a host without a recorded unavailable reason is never `unknown` once a rule is enabled:
  `MissingDataIsNotUnknown`, `UnknownIff`. A connection that fails with an empty message records no reason, so that
  host is judged by its rules as well.
- `/collect` and `/collect/sync` are meant to differ only in where they run. They end alike exactly when no rule
  evaluation raises (`DriversAgreeIff`), and always exactly when no enabled rule is hazardous, which can be seen when a
  rule is stored (`AlwaysAgreeIff`): it asks membership of a number, or it can fire and its severity is none of the
  four statuses. The create call checks the severity but not that the operator fits the metric; the update call
  checks neither. `HazardSplitsDrivers` gives the hosts for each such rule: the workers
  leave their rows `running` and never finish, the loop reports them `unknown`.
- Redaction is meant to hide every registered secret. A secret that can line up with part of `[REDACTED]` can be
  pasted together by the replacement of another one; `NeverLeaksIff` gives the exact condition and
  `TouchingSecretLeaks` the registry and text for each such secret.
- The restore gate looks at the record only. A backup that passed its checks can be pruned afterwards, and its
  restore then fails: `RestoresIffAmongNewest`, with a run for every pair of dumps in `PrunedBackupIsRefused`.
- Backup jobs are not protected from each other. A job's pair can be pruned by a newer job before its own digest is
  written: the job then fails although dump and check succeeded, and the digest file stays for ever
  (`LateDigestIsOrphan`). `BackupOutcome` says exactly when a job succeeds, `DirectoryAtRest` that these digests are
  the only leftovers, and `OverlapLosesBackup` gives the run.
- Restores share one target database. A restore that succeeded has its own dump in the target at its commit exactly if
  no import dropped the target since its own, or the last one that did filled it with the same bytes
  (`SucceededRestoreHolds`); `RestoresMixUp` gives a run in which it has not.
- The health check asks for the container of the project, not of the release. When a deploy or a rollback makes its
  final commit, its stack runs what it brought up exactly if nothing brought the stack up since, or what did so last
  had the same image, version and port (`DeployRunsOwnIff`, `RollbackRunsTargetIff`); `DeployOvertaken` gives a run
  in which a deploy says succeeded while another one's document is active.
- A rollback's own plan says port 8080. What is deployed is the target's document with the target's port
  (`RollbackRestoresTarget`, `RollbackPlanIsNotTheDocument`).

## Model

| member | source | states |
|---|---|---|
| ExecSafety.InvStep | easyops_api/tasks/exec_tasks.py:32-127 | every API call, delivery, outcome, re-aggregation, retry and asset change keeps the invariant that ties rows, tasks, workers, keys and cached counts together |
| ExecSafety.RunKeepsInv | easyops_api/tasks/exec_tasks.py:32-127 | the invariant holds after any interleaving of any length |
| ExecSafety.LinkedStep | easyops_api/api/v1/exec_task.py:149-181 | every outstanding task has a row of a filed record, and each record's rows are its requested assets in order |
| ExecSafety.KeysStep | easyops_api/api/v1/exec_task.py:128-135 | no two records ever share a user and a non-empty idempotency key |
| ExecSafety.RecomputedBatch | easyops_api/tasks/exec_tasks.py:107-127 | re-aggregating twice is re-aggregating once, and a record finishes only if all its rows have |
| ExecInvariant.FirstRowsIffNoDup | easyops_api/tasks/exec_tasks.py:40-44 | `.first()` finds every row of a record exactly when the record names no asset twice |
| ExecInvariant.CountsAddUp | easyops_api/tasks/exec_tasks.py:114-119 | succeeded, failed, timed out and running partition the rows of a record |
| ExecInvariant.FailedTasksAt | easyops_api/api/v1/exec_task.py:219-234 | a retry dispatches a host's task once if its row failed or timed out, and otherwise not |
| ExecTheorems.RowsMatchTasks | easyops_api/tasks/exec_tasks.py:40-99 | in every reachable state, for records of distinct assets, a row is queued iff one undelivered task stands for it (or its asset was deleted), running iff one worker executes it, finished iff neither; no row of any record is timed out |
| ExecTheorems.QuietRecordIsExact | easyops_api/tasks/exec_tasks.py:107-127 | with nothing outstanding the cached counts are the true ones and sum to the hosts; finished iff assets are distinct and none was deleted; partial iff both a success and a failure |
| ExecTheorems.DuplicateNeverFinishes | easyops_api/tasks/exec_tasks.py:40-53 | a batch naming one asset twice is accepted and is never finished, in every run |
| ExecWitnesses.AlwaysMatchesIff | easyops_api/tasks/exec_tasks.py:40-99 | for every accepted request: rows and tasks match in all runs iff no asset is named twice |
| ExecWitnesses.SuccessStaysIff | easyops_api/tasks/exec_tasks.py:40-53 | for every accepted request: a host that succeeded stays so in all runs iff no asset is named twice |
| ExecWitnesses.RunsTwice | easyops_api/tasks/exec_tasks.py:40-53 | the run in which a host named twice succeeds and is set running again |
| ExecWitnesses.StrandedNeverFinishes | easyops_api/tasks/exec_tasks.py:36-38 | once a task arrived after its asset was deleted, its batch is never finished, in every run |
| ExecWitnesses.DeletedAssetStrands | easyops_api/tasks/exec_tasks.py:36-38 | the run in which the asset of an accepted request is deleted between dispatch and delivery |
| ExecTheorems.InternalStepsAreBounded | easyops_api/tasks/exec_tasks.py:51-104 | the worker steps of any run are bounded by the work its submissions and retries handed out |
| ExecTheorems.WorkCanProceed | easyops_api/tasks/exec_tasks.py:51-104 | while work is owed some step is possible: there is no deadlock |
| ExecTheorems.NoWorkMeansQuiet | easyops_api/tasks/exec_tasks.py:100-104 | when no work is owed nothing is outstanding for any record |
| ExecTheorems.WorkersComeToRest | easyops_api/tasks/exec_tasks.py:51-104 | from every reachable state the workers can run to a state where no record has anything outstanding and every record is exact |
| ExecTheorems.TaskBalance | easyops_api/api/v1/exec_task.py:225-234 | over any run, deliveries plus undelivered tasks change exactly by the rows filed and the tasks retried |
| ExecTheorems.DispatchesAreRowsPlusRetries | easyops_api/api/v1/exec_task.py:173-234 | a task is dispatched once per row filed and once per retry that found its host failed, never lost or doubled |
| ExecTheorems.SuccessIsFinal | easyops_api/api/v1/exec_task.py:215-238 | for records of distinct assets, the row of a host that succeeded never changes and its task is never delivered or executed again, under any later retries |
| ExecTheorems.FinishedRowShowsLastReport | easyops_api/tasks/exec_tasks.py:56-99 | in every reachable state a finished row says what the last worker of its task reported, whatever was retried in between |
| ExecTheorems.RepeatReturnsSameRecord | easyops_api/api/v1/exec_task.py:128-135 | once a record answers for a user's key it does so in every later state, and a repeat changes nothing |
| ExecTheorems.AcceptedSubmissionAnswers | easyops_api/api/v1/exec_task.py:149-164 | an accepted submission with a key makes the only record with that user and key |
| ExecService.ExecBackend.ValidateAssets | easyops_api/api/v1/exec_task.py:43-54 | accepted iff the list is non-empty, within the limit and every asset exists |
| ExecService.ExecBackend.SubmitBatch | easyops_api/api/v1/exec_task.py:120-164 | the existing record, a new one or a refusal, and exactly the protocol's new state |
| ExecService.ExecBackend.InsertHostRows | easyops_api/api/v1/exec_task.py:166-179 | one queued row and one task per requested asset, duplicates included |
| ExecService.ExecBackend.FindRow | easyops_api/tasks/exec_tasks.py:40-44 | the first row of record and asset, or none |
| ExecService.ExecBackend.DeliverTask | easyops_api/tasks/exec_tasks.py:32-54 | a delivered task marks its row running, or ends at once for a missing record or asset |
| ExecService.ExecBackend.ReportTask | easyops_api/tasks/exec_tasks.py:56-99 | the outcome goes to the first row of the task and a re-aggregation becomes due |
| ExecService.ExecBackend.Tally | easyops_api/tasks/exec_tasks.py:114-119 | one pass over the rows yields all five counts |
| ExecService.ExecBackend.RecomputeRecord | easyops_api/tasks/exec_tasks.py:107-127 | the record gets the true counts, and a final status only when nothing is queued or running |
| ExecService.ExecBackend.RetryFailed | easyops_api/api/v1/exec_task.py:208-238 | exactly the failed rows are queued and dispatched again; their number is returned |
| ExecLaws.SubmissionAddsIff | easyops_api/api/v1/exec_task.py:128-164 | a submission adds one record of its own assets iff no record answers for its key, it was accepted, and it names 1 to 50 assets that all exist; otherwise nothing changes |
| ExecLaws.FilingMeans | easyops_api/api/v1/exec_task.py:166-179 | one queued row per asset in request order, and as many tasks ready as rows carry them |
| ExecLaws.DeliveryMeans | easyops_api/tasks/exec_tasks.py:32-54 | the task leaves the queue; its first row, or a new one, runs, unless record or asset is missing |
| ExecLaws.ReportMeans | easyops_api/tasks/exec_tasks.py:56-104 | the outcome goes into the first row of the task |
| ExecLaws.RecomputeMeans | easyops_api/tasks/exec_tasks.py:107-127 | each count is the number of rows with that status; the status changes only when there are rows and none is unfinished, to partial iff some succeeded and some did not |
| ExecLaws.RetryMeans | easyops_api/api/v1/exec_task.py:216-234 | exactly the failed and timed-out rows of the record are queued again, with as many tasks; without one nothing changes |
| BackupNames.NameOrderIsTimeOrder | easyops_api/services/backup_service.py:150-154 | for all four-digit years, file names compare as strings exactly as their timestamps compare in time |
| BackupNames.NamesAreDistinct | easyops_api/services/backup_service.py:152-168 | different timestamps share no file name, and the three names of one backup differ |
| BackupNames.OnlyGzIsListed | easyops_api/services/backup_service.py:185-189 | of the three files only the compressed one is listed for pruning, and its stem is recovered |
| BackupNames.RankInListing | easyops_api/services/backup_service.py:185-188 | a name's position in the sorted listing is the number of names after it |
| Retention.ExpiredByPosition | easyops_api/services/backup_service.py:183-188 | a backup expires exactly when it is not among the newest R |
| Retention.DoomedByPosition | easyops_api/services/backup_service.py:188-193 | a file is deleted together with its own backup and with no other |
| Retention.NewestRemain | easyops_api/services/backup_service.py:181-193 | pruning leaves the files of the newest R backups and nothing else |
| Retention.ListedSurvivesIff | easyops_api/services/backup_service.py:181-193 | for any set of files and any clock: a listed file survives iff fewer than R listed names sort after it |
| BackupStore.LawfulArchivePasses | easyops_api/services/backup_service.py:24-40 | what gzip wrote passes the check and inflates to the dump |
| BackupStore.PruneKeepsNewest | easyops_api/services/backup_service.py:181-193 | pruning keeps the newest backups complete with their contents and leaves no orphan |
| BackupStore.PersistStep | easyops_api/services/backup_service.py:146-193 | a passing backup joins and only the oldest may go; a failing one leaves the directory as it was |
| BackupStore.DirectoryHoldsNewest | easyops_api/services/backup_service.py:146-193 | after any persists the directory is exactly the complete triples of the newest R that passed |
| BackupStore.FreshBackupSurvivesIff | easyops_api/services/backup_service.py:171-193 | for any clock: the file just written outlives its own pruning iff fewer than R names sort after it |
| Retention.RankByTime | easyops_api/services/backup_service.py:185-188 | for backups written in any order, the number of listed names after a name is the number of present backups after it in time |
| Retention.PrunedIff | easyops_api/services/backup_service.py:185-193 | pruning takes all files of a listed backup with R later listed ones, and no other file |
| Retention.SupersededAmongPresent | easyops_api/services/backup_service.py:185-188 | if only superseded backups are missing, a superseded one has R later ones among those left |
| Retention.UnsupersededCount | easyops_api/services/backup_service.py:183-188 | the backups with fewer than R later ones are min(R, n) in number |
| BackupFiles.FilesStep | easyops_api/services/backup_service.py:146-193 | every step of every job keeps the files of all backups in order: own contents, no half pair, missing only if superseded or failing, and pruned once no pruning is owed |
| BackupFiles.PrunedFiles | easyops_api/services/backup_service.py:181-193 | pruning treats the three files of a backup alike and never takes a late digest |
| BackupSafety.TableStep | easyops_api/tasks/backup_tasks.py:15-135 | every step keeps records, tasks and jobs consistent: a succeeded backup names its own file, a restore points at a restorable backup and holds its source's dump |
| BackupSafety.InvStep | easyops_api/tasks/backup_tasks.py:15-135 | every call and every step of every job keeps files, records, tasks and jobs consistent |
| BackupSafety.EveryRunIsSound | easyops_api/tasks/backup_tasks.py:15-135 | so does every interleaving of any number of jobs |
| BackupSafety.SourceIsOwnArchive | easyops_api/tasks/backup_tasks.py:95-100 | in every interleaving a restore reads its source's own archive, or finds no file |
| BackupTheorems.FileHoldsOwnDump | easyops_api/services/backup_service.py:150-159 | in every interleaving a compressed file holds the archive of the one dump taken by the job of its record |
| BackupTheorems.WrittenIsADump | easyops_api/tasks/backup_tasks.py:33-34 | every written backup is the dump its job took in the run |
| BackupTheorems.DisappearsIff | easyops_api/services/backup_service.py:163-193 | a step removes a compressed file iff it is a pruning that lists R later ones, or the file's own check and it fails |
| BackupTheorems.DirectoryAtRest | easyops_api/services/backup_service.py:146-193 | with no backup job in flight, after any interleaving: complete triples and late digests, nothing else; exactly the newest min(R, n) if every check passed |
| BackupTheorems.LateDigestIsOrphan | easyops_api/services/backup_service.py:168-171 | a digest is left alone only for a backup pruned while its job was at work; that job fails and the digest stays for ever |
| BackupTheorems.BackupSucceedsIff | easyops_api/tasks/backup_tasks.py:32-71 | each way a step can end a backup job; it succeeds iff it is the final commit, the file is still there and statistics were read |
| BackupTheorems.BackupOutcome | easyops_api/tasks/backup_tasks.py:32-71 | over any interleaved run, a job that ended was ended by one of its own steps, and succeeded iff its file was not pruned before its own final check |
| BackupTheorems.UndisturbedPersist | easyops_api/services/backup_service.py:146-179 | undisturbed, the steps of `persist` do to the directory what `persist` does as a whole |
| BackupTheorems.UndisturbedBackup | easyops_api/tasks/backup_tasks.py:32-61 | an undisturbed job is one whole persist and succeeds iff dump, check and statistics do and its own pruning keeps the file |
| BackupTheorems.FailedBackupChangesNothing | easyops_api/tasks/backup_tasks.py:62-71 | a job failing in the dump, or undisturbed in its check, leaves directory, databases and all other records unchanged |
| BackupTheorems.RunGrows | easyops_api/api/v1/backup.py:51-63 | a backup record that passed the gate is the same record in every later state |
| BackupTheorems.RestoreSourceStaysRestorable | easyops_api/api/v1/backup.py:51-63 | a restore record is created iff the backup passes the gate, and its source passes it for ever |
| BackupTheorems.FetchesIff | easyops_api/services/backup_service.py:206-209 | a restore reads the dump of its source's job iff the file has not been pruned; otherwise it fails |
| BackupTheorems.RestoresIffAmongNewest | easyops_api/services/backup_service.py:206-209 | with no backup job in flight, iff the backup is among the newest R ever written |
| BackupTheorems.RestoreImportsTheDump | easyops_api/tasks/backup_tasks.py:93-100 | end to end, in every interleaving: an import leaves in the target the bytes the source record's job got from mysqldump |
| BackupTheorems.TargetHoldsIff | easyops_api/services/backup_service.py:205-228 | after any run the target holds given bytes iff nothing dropped it and it held them before, or the last import that dropped it filled it with them |
| BackupTheorems.SucceededRestoreHolds | easyops_api/tasks/backup_tasks.py:100-124 | a restore that commits after its import says succeeded, and its own dump is then in the target iff no import dropped the target in between or the last one that did filled it with the same bytes |
| BackupTheorems.RestoreAloneHolds | easyops_api/tasks/backup_tasks.py:100-124 | in particular with no other import before its commit |
| BackupTheorems.OtherDatabasesUntouched | easyops_api/services/backup_service.py:205-222 | frame of the model: imports are given the restore target, which is never the live database, and nothing else writes a database |
| BackupWitnesses.OverlapLosesBackup | easyops_api/services/backup_service.py:168-193 | with R = 1, for any two passing dumps, a run in which the older job loses its pair, never succeeds and leaves its digest |
| BackupWitnesses.PrunedBackupIsRefused | easyops_api/api/v1/backup.py:54-65 | with R = 1, for any two dumps, a run in which a restore passes the gate and then fails |
| BackupWitnesses.RestoresMixUp | easyops_api/services/backup_service.py:205-231 | unless R = 1, for any two dumps, a run in which a restore ends succeeded while the target holds the other backup |
| BackupService.SortedListing | easyops_api/services/backup_service.py:185-187 | the listing in ascending order, same names |
| BackupService.BackupWorker.EnforceRetention | easyops_api/services/backup_service.py:181-193 | the delete loop over the sorted listing removes exactly what the rank rule says |
| BackupService.BackupWorker.TakeDump | easyops_api/tasks/backup_tasks.py:24-33 | the dump in hand, or the failed record |
| BackupService.BackupWorker.WritePair | easyops_api/services/backup_service.py:151-159 | both dump files in place under the job's timestamp |
| BackupService.BackupWorker.CheckPair | easyops_api/services/backup_service.py:160-167 | the job goes on with the checksum of what it read back, or fails: on a missing file, or removing a failing pair |
| BackupService.BackupWorker.WriteDigest | easyops_api/services/backup_service.py:168-170 | the digest line of the checked bytes |
| BackupService.BackupWorker.Persist | easyops_api/services/backup_service.py:146-179 | undisturbed: the run of its steps and the directory after writing, checking and pruning |
| BackupService.BackupWorker.ConsistencyCheck | easyops_api/services/backup_service.py:255-270 | false for a missing file or failed check, a raise if table statistics raise |
| BackupService.BackupWorker.ConcludeBackup | easyops_api/tasks/backup_tasks.py:35-59 | the final record for a consistent, an inconsistent or missing file, and a raise |
| BackupService.BackupWorker.RunBackupJob | easyops_api/tasks/backup_tasks.py:15-73 | undisturbed: the run of the job's steps and what it leaves in files and records |
| BackupService.BackupWorker.RestoreBackup | easyops_api/api/v1/backup.py:44-68 | a restore record only for a succeeded, checksum-verified backup |
| BackupService.BackupWorker.FetchSource | easyops_api/tasks/backup_tasks.py:95-99 | the source's file read, or the failed record: no source, no path, no file, unreadable |
| BackupService.BackupWorker.Restore | easyops_api/services/backup_service.py:210-231 | what each failing or succeeding import leaves in the target database and the record |
| BackupService.BackupWorker.RunRestoreJob | easyops_api/tasks/backup_tasks.py:77-135 | undisturbed: a run of the job's steps, and the database and status it leaves |
| BackupSteps.ValidationMeans | easyops_api/services/backup_service.py:24-40 | ok iff the bytes are not empty and, if they begin like a gzip file, can be unzipped; size, checksum and gzip flag |
| BackupSteps.StemMeans | easyops_api/services/backup_service.py:150-152 | a file name reads back to every field of its timestamp |
| BackupSteps.AskingMeans | easyops_api/api/v1/backup.py:48-65 | a restore is granted exactly for a succeeded, checksum-verified backup record, and points at it |
| BackupSteps.DumpingMeans | easyops_api/tasks/backup_tasks.py:24-33 | the dump is the job's, or the record is ended by an error |
| BackupSteps.WritingMeans | easyops_api/services/backup_service.py:152-159 | both files hold the dump, plain and compressed, and no other file is touched |
| BackupSteps.CheckingMeans | easyops_api/services/backup_service.py:160-167 | missing, unsound and sound files: what happens to pair, record and job |
| BackupSteps.DigestMeans | easyops_api/services/backup_service.py:168-170 | the digest file's text; it is late iff the compressed file is gone |
| BackupSteps.PruningMeans | easyops_api/services/backup_service.py:181-193 | for any directory, which files go and that the others keep their contents |
| BackupSteps.ConcludingMeans | easyops_api/tasks/backup_tasks.py:35-59 | every field of the final record: path, verdict, status and report |
| BackupSteps.FetchingMeans | easyops_api/tasks/backup_tasks.py:95-100 | the bytes read, or an error without source record, path or readable file |
| BackupSteps.ImportingMeans | easyops_api/services/backup_service.py:205-231 | what each outcome leaves in the target, and that no other database changes |
| BackupLaws.RecordsMean | easyops_api/tasks/backup_tasks.py:35-71 | in every interleaving: checksum flag iff succeeded; path and report fit how the record's job ended |
| BackupLaws.EndMeans | easyops_api/tasks/backup_tasks.py:35-71 | in every interleaving: a job ended by its final commit names its file and reports whether it was there; any other end names no file and reports an error |
| DeployPlans.ParseIff | easyops_api/services/deploy_service.py:139-154 | image, version and port can be read back from the document iff the image has no colon and the version no line end |
| DeployPlans.DocumentDeterminesPlan | easyops_api/services/deploy_service.py:60-69 | validated plans have the same document iff they deploy the same image, version and port |
| DeployPlans.UnvalidatedPlansCollide | easyops_api/services/deploy_service.py:24-25 | without validation different plans share a document |
| DeployPlans.StepsStopAtFirstFailure | easyops_api/services/deploy_service.py:97-116 | results follow the planned steps up to the first failure and no further; an invalid plan gives one validate failure |
| DeployPlans.AllOkIff | easyops_api/services/deploy_service.py:97-116 | no failure is reported iff the plan is valid and every planned step is allowed and returned |
| DeployPlans.CollectedResultsAreARun | easyops_api/services/deploy_service.py:106-116 | results collected one step at a time are those of one run of the executor |
| DeployPlans.RunDeploySteps | easyops_api/services/deploy_service.py:97-116 | the loop with its early breaks computes exactly those results |
| DeploySafety.LastValidIff | easyops_api/services/deploy_service.py:260-280 | the point is the greatest succeeded release of the project, absent iff there is none |
| DeploySafety.StepWritesOwnFile | easyops_api/services/deploy_service.py:211-247 | a remote step changes no file but its own, and only `up` changes that |
| DeploySafety.OnlyOwnFiles | easyops_api/tasks/deploy_tasks.py:58-153 | no action touches another release's record or file |
| DeploySafety.StepGrows | easyops_api/tasks/deploy_tasks.py:84-105 | releases with a final status keep record and file through every step |
| DeploySafety.DeployFinishes | easyops_api/tasks/deploy_tasks.py:74-93 | the final commit is sound, and says succeeded iff all four steps returned and the digest was obtained |
| DeploySafety.RollbackFinishes | easyops_api/tasks/deploy_tasks.py:151-155 | the final commit of a rollback keeps its target and says succeeded iff both steps returned |
| DeploySafety.InvStep | easyops_api/tasks/deploy_tasks.py:58-167 | every call, worker step and remote effect, partial failures included, keeps releases, workers and files consistent |
| DeploySafety.ReachableInv | easyops_api/tasks/deploy_tasks.py:58-167 | so does every interleaving of deploys and rollbacks |
| DeployTheorems.RunGrows | easyops_api/tasks/deploy_tasks.py:89-105 | a final release, in particular a succeeded one, stays as it is with its file in every later state |
| DeployTheorems.SucceededHasItsFile | easyops_api/services/deploy_service.py:211-223 | in every reachable state a succeeded release has its file on its host, holding the document of its own plan, and complete evidence |
| DeployTheorems.WrittenOnlyByOwnUp | easyops_api/services/deploy_service.py:180-223 | a file changes only when the deploy it is named after runs `up` |
| DeployTheorems.SucceedsIffAllStepsRan | easyops_api/tasks/deploy_tasks.py:74-92 | in every reachable state the final commit says succeeded iff pull, build, up and healthcheck returned in order and the digest was obtained |
| DeployTheorems.WorkerRunsItsPlan | easyops_api/services/deploy_service.py:106-116 | whatever ran between its steps, a worker's results are one fail-fast run of its plan |
| DeployTheorems.PlanSurvives | easyops_api/tasks/deploy_tasks.py:14-30 | the plan stored at creation is the plan loaded, run and kept in the merged result |
| DeployTheorems.RollbackTakesLatest | easyops_api/api/v1/deploy.py:112-131 | a new rollback goes to the latest succeeded release below, with its image and version; refused iff there is none |
| DeployTheorems.OnlyDeploysSucceed | easyops_api/tasks/deploy_tasks.py:153-162 | rollbacks and failed releases never become rollback points |
| DeployTheorems.RollbackFindsItsFile | easyops_api/services/deploy_service.py:240-247 | in every reachable state `test -f` succeeds and the file holds the target's document |
| DeployTheorems.RollbackRestoresTarget | easyops_api/tasks/deploy_tasks.py:126-141 | a rollback step that returns makes active the target's document, with its image, version and original port |
| DeployTheorems.RollbackPlanIsNotTheDocument | easyops_api/tasks/deploy_tasks.py:129-137 | the rollback's own plan describes the file iff the target used port 8080 |
| DeployTheorems.ActiveStays | easyops_api/services/deploy_service.py:211-247 | what a stack runs stays until another `up` or `rollback` on it |
| DeployTheorems.UninterruptedRollback | easyops_api/tasks/deploy_tasks.py:111-155 | a requested rollback whose two commands return runs through, ends rollback_succeeded and leaves the target's document active |
| DeployActive.RunShows | easyops_api/services/deploy_service.py:211-247 | after any run a stack shows what the run last brought it up with: the plan of an `up`, the target's plan of a rollback, or torn text |
| DeployActive.DeployRunsOwnIff | easyops_api/services/deploy_service.py:225-238 | at its final commit a deploy's stack runs its own document iff nothing brought the stack up since its `up`, or what did so last had the same image, version and port |
| DeployActive.RollbackRunsTargetIff | easyops_api/services/deploy_service.py:225-247 | the same for a rollback and its target's document |
| DeployActive.UninterruptedDeploy | easyops_api/tasks/deploy_tasks.py:59-95 | a requested deploy whose commands return, undisturbed, ends succeeded and leaves its own document active |
| DeployActive.DeployOvertaken | easyops_api/services/deploy_service.py:225-238 | for any two plans of a project bound to a host, the run in which the first deploy says succeeded while the second one's document is active |
| DeployService.DeployBackend.CreateRelease | easyops_api/api/v1/deploy.py:67-92 | a requested release with its plan, or no change for a missing project or refused plan |
| DeployService.DeployBackend.LastValidRelease | easyops_api/services/deploy_service.py:260-272 | the search from the newest earlier release finds the rollback point |
| DeployService.DeployBackend.RollbackRelease | easyops_api/api/v1/deploy.py:112-138 | a rollback record with its point, or no change without release or point |
| DeployService.DeployBackend.ResolveRunner | easyops_api/tasks/deploy_tasks.py:22-55 | a worker bound to host and Compose file, or the failed record with its error note |
| DeployService.DeployBackend.RunOnHost | easyops_api/services/deploy_service.py:184-247 | for each of the five steps, what changes on the host and whether the step returns |
| DeployService.DeployBackend.FinishRelease | easyops_api/tasks/deploy_tasks.py:87-93 | the final record of a deploy or a rollback, the digest failure included |
| DeployService.DeployBackend.RunRelease | easyops_api/tasks/deploy_tasks.py:58-168 | a whole job is a run of the protocol on its own release and always leaves it with a final status |
| DeployLaws.ImageNameMeans | easyops_api/services/deploy_service.py:24-24 | the image pattern, character class by character class |
| DeployLaws.VersionNameMeans | easyops_api/services/deploy_service.py:25-25 | the version pattern |
| DeployLaws.RequestIsStoredIff | easyops_api/api/v1/deploy.py:67-92 | a request adds one release with its own image, version, port and branch iff the project exists and the request is well-formed; otherwise nothing changes |
| DeployLaws.ResultIsAnswer | easyops_api/services/deploy_service.py:106-116 | the result of a step is what its command answered; build always succeeds |
| DeployLaws.DeploySucceedsIffAnswered | easyops_api/tasks/deploy_tasks.py:74-92 | over any run: a deploy says succeeded iff the digest was obtained and its own pull, up and health check were answered with success |
| DeployLaws.RollbackSucceedsIffAnswered | easyops_api/tasks/deploy_tasks.py:139-155 | over any run: a rollback says succeeded iff both its commands were |
| DeployLaws.DeployedAsAsked | easyops_api/api/v1/deploy.py:67-92 | from the request to the stack: undisturbed, what runs is the requested image, version and port |
| DeploySteps.DocumentReads | easyops_api/services/deploy_service.py:139-154 | the whole text of the document |
| DeploySteps.RollingBackMeans | easyops_api/api/v1/deploy.py:112-131 | the rollback record, field by field, iff there is a point |
| DeploySteps.ConnectingMeans | easyops_api/tasks/deploy_tasks.py:22-55 | the plan, host and Compose file a worker gets, or the error |
| DeploySteps.RunningMeans | easyops_api/services/deploy_service.py:184-247 | for every step and every behaviour of its command: result, files and stacks |
| DeploySteps.EndingMeans | easyops_api/tasks/deploy_tasks.py:87-105 | the final record, field by field |
| InspectionRules.EvaluateRules | easyops_api/services/inspection_rules.py:80-116 | the loop computes results in rule order and the worst status, or raises |
| InspectionRules.OverallIsMaximum | easyops_api/services/inspection_rules.py:92-115 | the overall status is the highest status an enabled rule gives, floored at healthy |
| InspectionRules.RaisedIff | easyops_api/services/inspection_rules.py:64-111 | evaluation raises iff no unavailable reason was recorded and an enabled rule asks membership of a non-zero number or fires with an unknown severity |
| InspectionRules.RaisesSomewhereIff | easyops_api/services/inspection_rules.py:64-111 | a rule can raise on some host iff it is hazardous: membership asked of a number, or able to fire with an unknown severity |
| InspectionRules.FittingRulesNeverRaise | easyops_api/api/v1/inspection.py:252-258 | rules with a checked severity and operators that fit their metric never raise |
| InspectionRules.UnknownIff | easyops_api/services/inspection_rules.py:83-115 | unknown iff an unavailable reason was recorded or no rule is enabled |
| InspectionRules.HealthyIff | easyops_api/services/inspection_rules.py:92-115 | healthy iff no unavailable reason was recorded, some rule is enabled, and none gives warning or critical |
| InspectionRules.MissingDataIsNotUnknown | easyops_api/services/inspection_rules.py:97-115 | contrary to the documentation, rules without data leave a host with no unavailable reason healthy, never unknown |
| InspectionRules.OrderDoesNotMatter | easyops_api/services/inspection_rules.py:93-111 | rule sets with the same members give the same overall status, and raise alike |
| InspectionRules.ComparisonsPartition | easyops_api/services/inspection_rules.py:64-77 | of lt, eq and gt exactly one holds for a number and a numeric threshold, none otherwise; ne and not_contains are the negations |
| InspectionRules.StoppedServiceIsReported | easyops_api/services/inspection_rules.py:134-135 | a watched service that is not running makes a host with no unavailable reason at least as bad as its rule says, whatever the other rules |
| InspectionRules.MaxUsedIsMaximum | easyops_api/services/inspection_rules.py:45-47 | the disk metric is a reading of some disk and bounds all of them; absent iff no disk has one |
| InspectionRules.HigherReadingsAreNoBetter | easyops_api/services/inspection_rules.py:43-72 | with `gt` rules only, higher readings never give a better status |
| InspectionLaws.EvaluationMeans | easyops_api/services/inspection_rules.py:43-116 | one result per enabled rule in order; for each of the seven metrics the result is unknown without a reading, the rule's own severity when the reading satisfies it, healthy otherwise; the overall status is the worst |
| InspectionLaws.AnswerIsUnique | easyops_api/services/inspection_rules.py:43-105 | readings and rule leave no choice of result |
| InspectionLaws.EvaluationRaisesMeans | easyops_api/services/inspection_rules.py:64-111 | evaluation raises iff some enabled rule cannot be answered, said of the readings |
| InspectionTheorems.InvStep | easyops_api/tasks/inspection_tasks.py:41-108 | every worker step keeps rows, outstanding tasks and record consistent |
| InspectionTheorems.WorkersAgree | easyops_api/tasks/inspection_tasks.py:41-109 | every interleaving that comes to rest ends with the same rows and the record they amount to |
| InspectionTheorems.FinishedRowMeans | easyops_api/tasks/inspection_tasks.py:55-86 | a finished row is unknown iff credentials, collection or rules were missing, with the reason; otherwise it holds the verdict of the rules on the facts stored beside it |
| InspectionTheorems.RunsAreShort | easyops_api/tasks/inspection_tasks.py:41-109 | no run exceeds three steps per requested host, and one that can go no further is at rest |
| InspectionTheorems.LoopWrites | easyops_api/api/v1/inspection.py:143-189 | after n turns the loop has written exactly the first rows of the first n assets |
| InspectionTheorems.RowsAgreeIff | easyops_api/api/v1/inspection.py:144-189 | workers and loop leave the same rows iff no evaluation raises |
| InspectionTheorems.RecordsAgreeIff | easyops_api/tasks/inspection_tasks.py:95-109 | their records are the same iff no evaluation raises |
| InspectionTheorems.DriversAgreeIff | easyops_api/api/v1/inspection.py:56-193 | for every interleaving: rows and record agree iff nothing raises; the workers' record is done iff in addition assets are distinct, the loop's iff assets are distinct |
| InspectionTheorems.FittingRulesAgree | easyops_api/api/v1/inspection.py:97-193 | with rules that fit their metrics both drivers always end alike |
| InspectionTheorems.AlwaysAgreeIff | easyops_api/api/v1/inspection.py:56-193 | both drivers end alike on all hosts and in all runs iff no enabled rule is hazardous |
| InspectionTheorems.HazardSplitsDrivers | easyops_api/api/v1/inspection.py:270-286 | for each hazardous rule, hosts on which rows and records differ in every run and the workers never finish |
| InspectionTheorems.RestCanBeReached | easyops_api/tasks/inspection_tasks.py:41-109 | the workers can be run to rest from every state |
| InspectionTheorems.GaugesAddUp | easyops_api/api/v1/inspection.py:195-204 | the four gauges sum to the number of assets |
| InspectionTheorems.GaugeAgreesWithRecord | easyops_api/api/v1/inspection.py:191-204 | for distinct assets the unknown gauge is the record's unknown count and the other three its succeeded count |
| InspectionService.Inspection.Collect | easyops_api/api/v1/inspection.py:70-91 | one running row and one task per asset |
| InspectionService.Inspection.MarkRunning | easyops_api/tasks/inspection_tasks.py:41-53 | the first row of the asset is set running |
| InspectionService.Inspection.InspectHost | easyops_api/tasks/inspection_tasks.py:55-88 | the row after decryption failure, evaluation, or a raise that leaves it running |
| InspectionService.Inspection.Recompute | easyops_api/tasks/inspection_tasks.py:95-109 | one pass yields the counts; done only when no row is running |
| InspectionService.Inspection.InspectInLoop | easyops_api/api/v1/inspection.py:144-189 | one turn: the row written and the status reported, a raise reported unknown |
| InspectionService.Inspection.CollectSync | easyops_api/api/v1/inspection.py:131-204 | the rows, the record and the four gauges |
| InspectionSteps.DeliveryMeans | easyops_api/tasks/inspection_tasks.py:41-53 | the first row of the asset, or a new one, is running |
| InspectionSteps.ReportMeans | easyops_api/tasks/inspection_tasks.py:55-88 | the row after decryption failure, verdict or raise |
| InspectionSteps.TurnMeans | easyops_api/api/v1/inspection.py:144-189 | the same for one turn of the loop, a raise reported unknown |
| InspectionSteps.RecordMeans | easyops_api/tasks/inspection_tasks.py:95-109 | counts are numbers of rows; done iff there are rows and none is running |
| InspectionSteps.GaugeMeans | easyops_api/api/v1/inspection.py:195-204 | each gauge is the number of assets reported with its status |
| Redaction.ReplaceIsSplitAndJoin | easyops_api/common/redact.py:38-38 | replacement keeps every piece between occurrences, in order, and no piece contains the secret |
| Redaction.LeftmostIsReplaced | easyops_api/common/redact.py:38-38 | the first occurrence becomes the mark and the rest of the text is treated the same way |
| Redaction.OccurrenceTraced | easyops_api/common/redact.py:37-38 | whatever occurs after a replacement occurred before it or touches a mark |
| Redaction.ReplaceKeepsOut | easyops_api/common/redact.py:38-38 | one replacement neither leaves nor creates a secret that cannot line up with the mark |
| Redaction.TouchingSharesCharacter | easyops_api/common/redact.py:38-38 | a secret sharing no character with the mark cannot line up with it |
| Redaction.LongestFirstIsStableSort | easyops_api/common/redact.py:37-37 | secrets are taken longest first, ties in the order of registration |
| Redaction.PatternsComeFirst | easyops_api/common/redact.py:32-39 | the result depends on what the patterns make of the text, and is that where no registered secret is left |
| Redaction.RegisteringMeans | easyops_api/common/redact.py:24-27 | the registry grows by a new secret of more than three characters, at its end, and not otherwise |
| Redaction.ClearSecretIsHidden | easyops_api/common/redact.py:30-39 | such a secret is hidden whatever other secrets are registered beside it |
| Redaction.RedactedTextHasNoSecret | easyops_api/common/redact.py:30-39 | when no registered secret can line up with the mark, none occurs in the redacted text |
| Redaction.HidingIsIdempotent | easyops_api/common/redact.py:36-39 | redacting again changes nothing |
| Redaction.SecretBecomesMark | easyops_api/common/redact.py:36-39 | a text that is a secret becomes the mark alone, whatever shorter secrets it contains |
| Redaction.TouchingSecretLeaks | easyops_api/common/redact.py:36-39 | a secret that can line up with the mark leaks from some registry and text |
| Redaction.NeverLeaksIff | easyops_api/common/redact.py:24-39 | a secret stays hidden in all texts and registries iff it cannot line up with the mark |
| Redaction.Redactor.RegisterSecret | easyops_api/common/redact.py:24-27 | the registry keeps no repeats and nothing of three characters or fewer |
| Redaction.Redactor.RedactText | easyops_api/common/redact.py:30-39 | the loop is the fold over the secrets, longest first |

## Left out

- Hard-killed workers and Celery time limits: a killed worker is one that takes no further step; nothing writes `timed_out`.
- Re-aggregation split into a read and a write, and the same for the other blocks listed as atomic above.
- Broker and ORM: redelivery of tasks, argument binding, transactions, column widths (a version of more than 50 characters passes validation but not the column).
- The regular-expression stage of `redact` is an arbitrary function before the secret stage; the log filter only applies `redact`.
- gzip, SHA-256, mysqldump, mysql, SSH and Docker are opaque: arbitrary functions or outcomes. Only gzip's round trip is assumed, and only where a restore's contents are stated.
- A remote command that goes on after its SSH session timed out: an effect on a host happens within its step.
- Exceptions a worker meets outside its steps, its runner and its digest, such as a lost database connection.
- Output text, error text, exit codes and audit rows of the records; the redaction of stored output is stated in `Redaction` only.
- Mock engines and runners, plan preview, confirmation tokens, the break-glass switch, operation catalogue, login, roles, metrics, alert and scheduled-task tables: each is settled by one branch.
- Parsing and rounding of host facts: facts are given as optional real numbers and lists; thresholds as their numeric and stripped readings. NaN and infinite thresholds are not modelled.
- Assets deleted or host facts changing while an inspection runs: both drivers see one fixed world.
- ExecTheorems.QuietRecordIsExact: is about single records at rest; counts shown while workers are busy may lag behind the rows, as in the code.
- BackupTheorems.FailedBackupChangesNothing: does not cover a job failing in the consistency check, which comes after the pruning; while other jobs run, a failing check removes its own pair only (`DisappearsIff`).
- Backup steps finer than the six and restore steps finer than the three listed above: a pruning that lists between another job's two writes, two prunings deleting at once, or two restores dropping and filling the target in turns.
- BackupTheorems.OtherDatabasesUntouched: says nothing about SQL in a dump that names another database; the model lets an import write its target only.
- DeployTheorems.RollbackTakesLatest: is about the moment the rollback is created; an earlier release may succeed later.
- DeployTheorems.UninterruptedRollback: assumes the target host's asset resolves and both commands return; other outcomes end in rollback_failed.
- InspectionRules.HigherReadingsAreNoBetter: is for `gt` rules, the kind whose status can only rise with a reading.
