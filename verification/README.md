# OperatorOS protocols, verified

A Dafny model of the parts of OperatorOS where a mistake would lose data, strand an installation,
kill the wrong process or miscount, with proofs of what those parts are for. Everything is proved
for all inputs, all fault plans and all runs; `dafny verify dfyconfig.toml` checks the whole.

| files | subject |
|---|---|
| `Deployment`, `DeploymentSafety`, `DeploymentTheorems`, `DeploymentLiveness`, `DeploymentOutcomes`, `DeploymentProgress`, `DeploymentHost`, `DeploymentExamples`, `UnitText` | the deployment transaction: every durable write is an operation; before or after each one the process may raise or die, and each check finds what the request says it will find. `Deployment` specifies each command as the operations it runs, `DeploymentSafety` proves the invariant, `DeploymentTheorems` the promises over sessions, `DeploymentLiveness` when a command completes, `DeploymentOutcomes` what it then leaves on disk, on record and running, `DeploymentProgress` what the marker of a stopped one says, `DeploymentHost` the commands as code, `DeploymentExamples` installations on which expectations fail. `UnitText` is the text of the unit file. |
| `Migration`, `MigrationRun`, `Backfill`, `IsoDates` | rebuilding nine kinds of source database into one schema, and deriving policies and numbered revisions. `Migration` specifies the installers' statements and what they carry over, `MigrationRun` is the program. |
| `Attendance`, `AttendanceSheet`, `AttendanceRows`, `Dates`, `Text`, `Sorting`, `Lists` | attendance workbooks: the incremental merge is a group-by, and what each row of its preview says; dates by overflow and re-check; durations |
| `LegacyFingerprint`, `Junit` | a uniquely readable printer, and a stack machine that is a tree recursion |
| `Restore`, `Processes`, `Funnel`, `Residual` | guarded destructive operations: the restore state machine, signal escalation, the exposure check, and the scan before a deletion |
| `Threshold`, `ValidationRows`, `Sheets` | threshold statistics and the rows they are computed from, and worksheet names in UTF-16 code units |

Files, services, process tables and SQLite are abstract values. Clocks, random names, and the
success or failure of foreign commands are parameters or nondeterministic choices: a fault plan in
the deployment model, an arbitrary result of an `Environment`, `Attempt` or `Observe` method elsewhere.

## What does not hold

The code was kept as it is where a natural expectation of it turned out false. The members named
give the witness, or the exact condition under which the expectation holds.

- Rolling back a failed deploy restarts a service only if the unit's bytes or the pointer differ
  (`scripts/operatoros_deploy.py:1817-1828`). Redeploying the image the unit already names, with the
  API's restart failing, ends "restored" with the API stopped, and redeploying the same pointer too,
  with the web server's restart failing, with that stopped: `RestoredApiRunsIff`, `RestoredWebRunsIff`,
  `RedeployExample`.
- The health check that ends a restoration looks at both services, also at one that was not restarted
  (`scripts/operatoros_deploy.py:1819-1828`). A recovery can so fail over a service that had stopped
  before; it has put the files back by then, and a second recovery completes: `RecoveryCompletesIff`,
  `SecondRecoveryCompletes`.
- A transaction records what it replaces under whatever reference the unit had, but a rollback accepts
  only immutable references (`scripts/operatoros_deploy.py:1512-1523`, `1884-1887`). A deploy or a
  selected rollback that dies behind its marker can then be neither rolled back nor repeated:
  `DeployStrandsIff`, `RollbackStrandsIff`, `StrandedForever`, `DeployedCanBeUndoneIff`, `StrandedExample`.
- Reading a unit translates line ends, and loading an image strips it, so deploy-then-rollback
  restores the bytes exactly when there was no CR and no padding: `GetPut`, `DeployThenRollback`,
  `CarriageReturnExample`.
- `Date.UTC` moves years 0 to 99 to the twentieth century, so such dates are rejected although they
  are real days: `UtcDateAcceptsIff`, `TextDateAcceptedIff`.
- The two Excel date systems differ by 1462 days except for a serial that is negative in only one of
  them: `DateSystemsDiffer`.
- `Set.add` returns the set, so `!seen.add(x)` is never true: duplicate thresholds and duplicate case
  identifiers are never refused, although the code has a message for each
  (`apps/api/src/analytics/risk-threshold-validation.ts:195`, `348`): `RepeatedThresholdIsAccepted`, `ValidateRows`.
- A swap that ends unchanged tells the operator that the database was rolled back, while the history
  records a failure (`apps/api/src/backup-cli.ts:233`, `366-371`): `Restore.Restoration.Run`.
- Clearing a directory without the scan before it can be refused after files are gone
  (`scripts/release-consumer-cleanup.py:357-370`): `RefusedClearingLosesNothingIff`.
- A migration reports success after its rename exactly when the temporary directory could be removed
  (`packages/db/src/migrate-existing.ts:240-244`); otherwise it reports a failure with the new
  database in place: `Migrate`.

## Model

| member | source | states |
|---|---|---|
| `DeploymentTheorems.EveryRunIsRecoverable` | scripts/operatoros_deploy.py:1692-1971 | over any sequence of deploys and rollbacks, each raising or dying at any write, one installation (the first, or one some command asked for) is wholly in place when no marker is active, and intact in the marker's snapshot when one is |
| `DeploymentTheorems.CommandIsAtomic` | scripts/operatoros_deploy.py:1738-1971 | one command under any fault plan either keeps the old (unit, copy, pointer) recoverable or leaves exactly the requested one with no marker |
| `DeploymentSafety.DeployKeepsRecoverable` | scripts/operatoros_deploy.py:1738-1803 | the invariant through a deploy, its handler and its archive step; a deploy that completes leaves the requested triple |
| `DeploymentSafety.RecoverKeepsRecoverable` | scripts/operatoros_deploy.py:1905-1916 | the invariant through the interrupted branch of a rollback, itself interrupted anywhere; completing restores the snapshot and archives the transaction |
| `DeploymentSafety.SelectKeepsRecoverable` | scripts/operatoros_deploy.py:1917-1971 | the invariant through a selected rollback and its reverting handler |
| `DeploymentSafety.TakeSnapshot` | scripts/operatoros_deploy.py:1692-1711 | the marker appears only after every snapshot file is written, so a marker never points at a partial snapshot |
| `DeploymentSafety.RestoreCompletes` | scripts/operatoros_deploy.py:1806-1841 | if restoring completes, unit, copy and pointer are the snapshot's the current record is the saved one, or absent if none was saved, and both services run if anything had to be put back, whatever faults there were and whatever the disk held |
| `DeploymentOutcomes.CompletedDeploy` | scripts/operatoros_deploy.py:1738-1793 | a deploy that completes, whatever faults there were, found every check passed; it runs the requested image on unit and copy and the requested web client, has them as current record and as release record, has lost or changed no other record, keeps the old files in its snapshot, and is in the history as complete with what it replaced |
| `DeploymentOutcomes.CompletedRollback` | scripts/operatoros_deploy.py:1917-1962 | a selected rollback that completes found every check passed; it runs the retained image and web client, has them on record as current under the selected ID, keeps what it replaced in its snapshot, and is in the history with the release it left |
| `DeploymentOutcomes.CompletedRecoveryRestores` | scripts/operatoros_deploy.py:1867-1916 | a rollback over an interrupted transaction that completes named its recorded release, which is then on record as current; the triple is the snapshot's, the transaction is in the history, and the services run what was restored wherever anything had to be |
| `DeploymentOutcomes.FailedRollbackIsReverted` | scripts/operatoros_deploy.py:1963-1971 | whichever step of a selected rollback raises, if reverting completes then triple and current record are what they were, the transaction is archived as rollback_reverted, and the services run what the disk names wherever the rollback would have changed it |
| `DeploymentOutcomes.UnfitReleaseChangesNothing` | scripts/operatoros_deploy.py:1744-1770 | a release that is not admitted, has no image ID, does not accept the database or does not unpack changes nothing of the running installation under any fault plan |
| `DeploymentOutcomes.UnansweredDeployKeepsSite` | scripts/operatoros_deploy.py:1771-1778 | a deploy whose API does not answer never moves the pointer, restarts the web server or writes the current record, under any fault plan |
| `DeploymentOutcomes.UnhealthyDeployIsNotRecorded` | scripts/operatoros_deploy.py:1782-1790 | a deploy that is not healthy or finds the database changed is never on record as current, under any fault plan |
| `DeploymentOutcomes.UnhealthyRollbackIsNotRecorded` | scripts/operatoros_deploy.py:1954-1960 | nor is a selected rollback |
| `DeploymentOutcomes.UnacceptedRollbackChangesNothing` | scripts/operatoros_deploy.py:1864-1904 | a rollback to a release that is no longer intact or does not accept the database changes nothing at all |
| `DeploymentProgress.MarkerTellsProgress` | scripts/operatoros_deploy.py:1752-1792 | whatever stopped a deploy, the phase that its marker shows says which checks had passed, which of unit, copy and pointer are new, what is loaded and runs, and what is on record as current |
| `DeploymentTheorems.RecoveryCompletesIff` | scripts/operatoros_deploy.py:1867-1916 | undisturbed recovery completes if and only if the recorded release is retained under an immutable image reference and still accepted, and the health check it ends with finds nothing stopped: nothing had to be restored, or what is not restarted was running |
| `DeploymentTheorems.SecondRecoveryCompletes` | scripts/operatoros_deploy.py:1905-1916 | a recovery that only its health check stopped has put the files back and left the marker as rollback_failed, so that the next undisturbed one completes |
| `DeploymentTheorems.StrandedForever` | scripts/operatoros_deploy.py:1864-1888 | otherwise no later session of commands changes anything |
| `DeploymentLiveness.DeployStrandsIff` | scripts/operatoros_deploy.py:1738-1803 | whatever goes wrong, a deploy leaves a way back if and only if it cannot start, or the record it would roll back to is, or will be, retained under an immutable reference |
| `DeploymentLiveness.RollbackStrandsIff` | scripts/operatoros_deploy.py:1864-1971 | the same for a selected rollback and the record of what is installed |
| `DeploymentTheorems.FailedDeployIsUndone` | scripts/operatoros_deploy.py:1793-1803 | whichever step raises, a completed restoration gives back triple and current record, archives the transaction as rolled_back, and leaves the services running what the disk names wherever the deploy would have changed it |
| `DeploymentTheorems.RestoredApiRunsIff` | scripts/operatoros_deploy.py:1806-1828 | the API is certain to run the restored unit after every failed and restored deploy if and only if the deploy would change the unit's bytes |
| `DeploymentTheorems.RedeployCanLeaveApiStopped` | scripts/operatoros_deploy.py:1817-1825 | a fault plan under which redeploying the same image ends restored with the API stopped |
| `DeploymentLiveness.RestoredWebRunsIff` | scripts/operatoros_deploy.py:1819-1828 | the web server is certain to run on the restored pointer after every failed and restored deploy if and only if the deploy would change the unit's bytes, when the health check vouches for it, or move the pointer |
| `DeploymentExamples.RedeployExample` | scripts/operatoros_deploy.py:1817-1828 | an installation at rest, and a deploy that would complete on it, that one fault plan ends restored with the API stopped and another with the web server stopped |
| `DeploymentExamples.StrandedExample` | scripts/operatoros_deploy.py:1512-1523 | an installation that names its image by a mutable reference, and a deploy that would complete on it but can die so that no later session of commands changes anything |
| `DeploymentExamples.CarriageReturnExample` | scripts/operatoros_deploy.py:1425-1430 | an installation on which a deploy and a rollback both complete and leave other bytes in the unit |
| `DeploymentProgress.EveryPhaseIsShown` | scripts/operatoros_deploy.py:1752-1792 | each of the nine phases is what some death of a deploy leaves in its marker |
| `DeploymentTheorems.DeployRetainsLegacy` | scripts/operatoros_deploy.py:1512-1523 | a completed deploy keeps the legacy record of what it replaced, with its image and pointer |
| `DeploymentTheorems.DeployThenRollback` | scripts/operatoros_deploy.py:1738-1971 | deploying and then rolling back to that legacy record restores pointer and image, and the unit byte for byte if and only if it held no CR and its Image value no surrounding blanks |
| `DeploymentLiveness.DeployCompletesIff` | scripts/operatoros_deploy.py:1738-1793 | undisturbed, a deploy completes if and only if no marker is active, unit and copy agree and name one image, the transaction is new, the image has an ID, the unit has one Image setting, the release is not on record as something else, and every check passes |
| `DeploymentLiveness.RollbackCompletesIff` | scripts/operatoros_deploy.py:1864-1962 | undisturbed, a selected rollback completes if and only if the release is retained under an immutable reference, unit and copy agree and name one image, its directory is new, the unit has one Image setting, and every check passes |
| `DeploymentLiveness.DeployedCanBeUndoneIff` | scripts/operatoros_deploy.py:1738-1962 | what a deploy replaced can be rolled back to, undisturbed, if and only if it was named by an immutable reference |
| `DeploymentHost.Host.SnapshotState` | scripts/operatoros_deploy.py:1692-1711 | the statements of snapshot_state under any fault plan have the specified outcome and disk |
| `DeploymentHost.Host.DeployRelease` | scripts/operatoros_deploy.py:1738-1803 | deploy_release as straight-line code equals the specification the theorems are about |
| `DeploymentHost.Host.RestoreSnapshot` | scripts/operatoros_deploy.py:1806-1841 | restore_snapshot equals its specification, branch by branch |
| `DeploymentHost.Host.ArchiveTransaction` | scripts/operatoros_deploy.py:1844-1851 | archive_transaction equals its specification: the result is recorded, then one rename |
| `DeploymentHost.Host.RollbackRelease` | scripts/operatoros_deploy.py:1864-1971 | rollback_release, both branches and both handlers, equals its specification |
| `UnitText.UniversalLine` | scripts/operatoros_deploy.py:1204-1211 | a unit is read with each of the three line ends as LF and nothing else changed |
| `UnitText.BlankIff` | scripts/operatoros_deploy.py:1211-1211 | the characters that str.strip removes, by code point |
| `UnitText.LoadIff` | scripts/operatoros_deploy.py:1204-1211 | a unit names an image if and only if exactly one line gives it the container's name and exactly one Image setting is not empty; it is that setting's value without the blanks around it |
| `UnitText.UpdateIff` | scripts/operatoros_deploy.py:1425-1430 | a unit is updated if and only if exactly one line is an Image setting, and only that line changes |
| `UnitText.ImmutableRefIff` | scripts/operatoros_deploy.py:1884-1887 | the three forms of immutable reference, a prefix and 40 or 64 lower-case hexadecimal digits |
| `UnitText.PutGet` | scripts/operatoros_deploy.py:1204-1211 | after an update the loaded image is the written reference, if the container line is there exactly once |
| `UnitText.PutPut` | scripts/operatoros_deploy.py:1425-1430 | a second update forgets the first |
| `UnitText.GetPut` | scripts/operatoros_deploy.py:1204-1211 | writing back the loaded image restores the bytes if and only if the unit held no CR and an unpadded Image value |
| `UnitText.UpdateIsIdentityIff` | scripts/operatoros_deploy.py:1425-1430 | an update changes no byte if and only if there is no CR and the value is already the reference |
| `UnitText.LoadedRef` | scripts/operatoros_deploy.py:1204-1211 | a loaded reference is one non-empty line without blanks around it: the stripped value of the file's Image line |
| `UnitText.ImmutableRefIsPlain` | scripts/operatoros_deploy.py:1884-1887 | an accepted immutable reference holds no newline, backslash or blank, so it survives the regular expression replacement |
| `MigrationRun.Target.Build` | packages/db/src/migrate-existing.ts:189-222 | for every source version and content: each schema part installed once and after what it needs, the copy runs into exactly the source's table set, and everything is carried over; a source that nothing refuses is never refused |
| `MigrationRun.Target.Install` | packages/db/src/migrate-existing.ts:190-222 | an installer does what its statements do to tables and rows, or fails |
| `MigrationRun.Target.CopyData` | packages/db/src/migrate-existing.ts:109-124 | copies exactly the source's tables, rows unchanged, into empty tables with the same columns whose rules allow them, or stops |
| `MigrationRun.Target.RunBackfill` | packages/db/src/migrate-existing.ts:126-167 | inserts what the backfill specifies for what its queries find, or stops; it runs if its preflight passes and the constraints and triggers, which see all tables, admit what it writes |
| `Migration.IdentifierIff` | packages/db/src/migrate-existing.ts:16-19 | a name reaches SQL if and only if it consists of letters, digits and underscores and does not start with a digit |
| `Migration.StagesCarryOver` | packages/db/src/migrate-existing.ts:189-222 | after installing, copying, backfilling and installing the rest, the columns are those of a fresh database, every source row is in place, padded with NULL in new columns, and only the backfill and the settings row are new |
| `Migration.SourceRowsSurvive` | packages/db/src/migrate-existing.ts:109-124 | each source row is at its place in the target, equal on the source's columns and NULL in the added ones |
| `Migration.RowsAreAccountedFor` | packages/db/src/migrate-existing.ts:126-167 | a table's rows are the source's, plus the backfill's for an S46 source (one revision for each legacy row), plus one row of settings, with 60 days of notice |
| `Migration.PoliciesAreWritten` | packages/db/src/migrate-existing.ts:140-140 | behind the source's rows of policies stands one row for each policy of the backfill, in order |
| `Migration.MonthsAreWritten` | packages/db/src/migrate-existing.ts:158-159 | behind the source's class-months stands one row for each class-month of the backfill |
| `Migration.RevisionsAreWritten` | packages/db/src/migrate-existing.ts:165-165 | behind the source's revisions stands one row for each revision of the backfill |
| `Migration.BackfillReads` | packages/db/src/migrate-existing.ts:127-153 | the queries of the backfill see the seven tables that they name, as they are, and no other |
| `Migration.ScriptGrows` | packages/db/src/s53-migration.sql:1-46 | statements that add nullable columns, rebuild tables and seed rows lose no table, row or value |
| `Migration.ScriptAdds` | packages/db/src/s48-migration.sql:1-10 | which columns and rows each installer adds to tables that are there |
| `Migration.PlanRunsFreshScripts` | packages/db/src/bootstrap.ts:71-79 | whatever the source, its installers run the statements of a fresh database in their order |
| `Migration.PlanIsComplete` | packages/db/src/migrate-existing.ts:190-222 | the installers that run for a version, in their order, are the whole current schema, once each and in dependency order |
| `Migration.BeforeIsSource` | packages/db/src/migrate-existing.ts:190-211 | what is installed before the copy is exactly the source version's parts, less the S47 and S49 triggers |
| `Migration.SourceVersionIff` | packages/db/src/migrate-existing.ts:29-103 | a source is recognised as a version if and only if it is ordinary and intact, its ledger is not empty and has only known versions, and the newest row is of that version, from S46 up, with the fingerprint of a schema approved for it, which the database has; S46 has two approved schemas |
| `MigrationRun.Volume.Migrate` | packages/db/src/migrate-existing.ts:169-246 | at every failure or crash the path holds the original, or, exactly when the rename took place, a validated target that carries everything over; after the rename success is reported if and only if the temporary directory is gone; when nothing outside fails, a source that nothing refuses is migrated |
| `Migration.MigratedIsCurrent` | packages/db/src/migrate-existing.ts:41-45 | a migrated database is recognised as current, whatever its source |
| `MigrationRun.MigrateTwice` | packages/db/src/migrate-existing.ts:178-179 | after a migration that succeeded, a second one changes nothing, and reports NOOP when nothing outside fails |
| `Backfill.BackfillPolicies` | packages/db/src/migrate-existing.ts:126-141 | succeeds exactly when every row has a label and a real day, and every label names one jenjang and one configuration with a time of day; then each label has exactly one policy, for that jenjang and time, dated at its earliest attendance, and no two labels the same jenjang |
| `Backfill.EarliestIsEarliestDay` | packages/db/src/migrate-existing.ts:127-133 | the earliest date as text is the earliest day |
| `Backfill.CutoffIff` | packages/db/src/migrate-existing.ts:137-137 | a cutoff is accepted if and only if it is a time of day in two-digit hours and minutes |
| `Backfill.ScopeIff` | packages/db/src/migrate-existing.ts:143-159 | a legacy row has a class-month if and only if it passes the preflight and exactly one class bears its name in an academic year that begins no later than some day of its month and ends no earlier than some day of it; then that is the class's id, its year's id and the row's year and month |
| `Backfill.OverlapIsSharedDay` | packages/db/src/migrate-existing.ts:153-153 | for a year that does not end before it begins, that is to have a day in the month |
| `Backfill.WriteBackfill` | packages/db/src/migrate-existing.ts:126-167 | succeeds exactly when the preflight passes, and then has written the policies and the ledger |
| `Backfill.EarliestDates` | packages/db/src/migrate-existing.ts:127-133 | the first loop's map holds each label once, with its minimum date |
| `Backfill.BackfillRevisions` | packages/db/src/migrate-existing.ts:143-166 | succeeds exactly when every legacy row has one class-month; then row i becomes revision i with the same counts in that class-month |
| `Backfill.RevisionsAreNumbered` | packages/db/src/migrate-existing.ts:163-165 | within a class-month of k rows the revision numbers are 1..k, each exactly once |
| `Backfill.RevisionsFollowUpdates` | packages/db/src/migrate-existing.ts:143-143 | within a class-month a smaller number means earlier in (updated_at, id) order |
| `Backfill.TotalsAreConserved` | packages/db/src/migrate-existing.ts:165-165 | the sums of sakit, izin and alfa are unchanged |
| `Backfill.LastDayIsMonthLength` | packages/db/src/migrate-existing.ts:152-152 | day zero of the next month is the last day of this one, leap years included |
| `IsoDates.DatesAreOrdered` | packages/db/src/migrate-existing.ts:153-153 | dates in ISO form are ordered as text exactly as their days are |
| `Backfill.DifferentJenjangs` | packages/db/src/migrate-existing.ts:135-140 | two labels never get the same jenjang |
| `Dates.UtcDateAcceptsIff` | packages/excel/src/normalization.ts:7-11 | overflow and re-check accept exactly the real Gregorian days in range whose year is not one of the two-digit years moved by Date.UTC |
| `Dates.TextDateAcceptedIff` | packages/excel/src/normalization.ts:24-25 | a text date is accepted exactly when its shape is d/m/yyyy and it is a real day with year at least 100 |
| `Dates.SerialDateIsDay` | packages/excel/src/normalization.ts:13-18 | a serial is accepted exactly when it is not negative and in range, and denotes that many days after the epoch |
| `Dates.LaterSerialIsLaterDate` | packages/excel/src/normalization.ts:13-18 | whole serials are strictly monotone in calendar order |
| `Dates.DayNumbersAreOrdered` | packages/excel/src/normalization.ts:13-18 | day numbers order real days exactly as the calendar does |
| `Dates.DayNumbersCount` | packages/excel/src/normalization.ts:7-18 | a real day is one of its month's 28 to 31 days, leap years by the Gregorian rule; the next day of the calendar has the next number, and 1 January 1970 has zero |
| `Dates.DateSystemsDiffer` | packages/excel/src/normalization.ts:15-16 | serial n of the 1904 system is serial n + 1462 of the 1900 system if and only if n is not negative or both are |
| `Dates.EpochsAreDates` | packages/excel/src/normalization.ts:15-15 | the two epochs are the day numbers of 1 January 1904 and 30 December 1899 |
| `Dates.DurationRoundTrip` | packages/excel/src/normalization.ts:84-94 | a printed duration reads back as its whole seconds, negative ones as zero |
| `Dates.StoredDurationPrintsBack` | packages/excel/src/normalization.ts:84-94 | a stored duration prints back unchanged if and only if its hours are two digits, or more without a leading zero |
| `Attendance.IncrementalIsBatch` | packages/excel/src/machine-attendance.ts:119-151 | merging the rows of a key one at a time gives the very row that one merge of all of them gives, warnings included |
| `Attendance.DerivedGrows` | packages/excel/src/machine-attendance.ts:125-132 | more evidence never withdraws a warning |
| `Attendance.RowOrderIsIrrelevant` | packages/excel/src/machine-attendance.ts:121-149 | arrival, departure, conflict flag, scan times, evidence state and warnings of a merge do not depend on the order of its rows |
| `Attendance.ArrivalIsEarliest` | packages/excel/src/machine-attendance.ts:122-134 | the arrival is the least and the departure the greatest valid scan time, and each is missing exactly when there is none |
| `AttendanceSheet.GroupSheet` | packages/excel/src/machine-attendance.ts:163-192 | the loop's maps hold, for each key in order of appearance, the merge of exactly its rows; the rest stand alone |
| `AttendanceRows.ParseRows` | packages/excel/src/machine-attendance.ts:157-204 | each row of the preview is of the person and day that each of its sheet rows denotes and says what their evidence amounts to; each data row is in exactly one of them; two data rows share one if and only if their cells denote the same identifier and date; the rows are in order, and source and duplicate counts are right |
| `Text.SpaceIff` | packages/excel/src/normalization.ts:75-77 | the characters that trimming removes, by code point |
| `AttendanceRows.IdentifierIff` | packages/excel/src/machine-attendance.ts:65-70 | a cell is accepted for an identifier if and only if it denotes it: a text cell its non-empty digits without the spaces around, a number cell the canonical numeral of an integer from 0 to 2^53 - 1 |
| `AttendanceRows.SharedRowIff` | packages/excel/src/machine-attendance.ts:167-193 | two data rows share an output row if and only if they are the same row or denote the same identifier and date |
| `AttendanceRows.OutputSays` | packages/excel/src/machine-attendance.ts:119-155 | an output row carries its sheet rows' evidence in order; its arrival is the earliest and its departure the latest valid scan, name and lateness are the first there are, the conflict flag means two different names, and scan times, warnings, state and reason follow from the evidence |
| `AttendanceRows.OutputIsOrdered` | packages/excel/src/machine-attendance.ts:193-193 | rows are in order of their days, undated ones last, then of identifiers, missing ones first, then of their first sheet row |
| `AttendanceSheet.EverySheetRowOnce` | packages/excel/src/machine-attendance.ts:167-193 | every non-blank row occurs in exactly one output row, once |
| `AttendanceSheet.NumbersOfDataRows` | packages/excel/src/machine-attendance.ts:167-171 | the numbers concerned are those of the non-blank rows, from 2 up, each once |
| `AttendanceSheet.DuplicateCount` | packages/excel/src/machine-attendance.ts:194-194 | the reported duplicates are source rows minus output rows |
| `AttendanceSheet.OutputIsSorted` | packages/excel/src/machine-attendance.ts:193-193 | the output is a permutation of merged and standalone rows, sorted by the comparison |
| `AttendanceSheet.GroupsAreDistinct` | packages/excel/src/machine-attendance.ts:117-117 | no two merged rows share identifier and date |
| `AttendanceSheet.KeysDiffer` | packages/excel/src/machine-attendance.ts:117-117 | keys agree if and only if identifier and date do, because identifiers are digits |
| `LegacyFingerprint.PassesAreOnePass` | packages/db/src/legacy-fingerprint.ts:8-13 | the chained replacements equal one escape of each character |
| `LegacyFingerprint.QuoteIff` | packages/db/src/legacy-fingerprint.ts:9-12 | a string is quoted with double quotes if and only if it has single ones and no double ones, so that its quote occurs in it only if both kinds do |
| `LegacyFingerprint.RepresentationExample` | packages/db/src/legacy-fingerprint.ts:15-22 | the printed list of one object, as Python printed it |
| `LegacyFingerprint.ReadPrinted` | packages/db/src/legacy-fingerprint.ts:8-13 | a printed string reads back as itself whatever follows it |
| `LegacyFingerprint.ReadPrintedTuple` | packages/db/src/legacy-fingerprint.ts:20-22 | a printed tuple reads back as its four fields whatever follows it |
| `LegacyFingerprint.RepresentationReadsBack` | packages/db/src/legacy-fingerprint.ts:15-22 | a printed list of objects reads back |
| `LegacyFingerprint.DistinctSchemasPrintDifferently` | packages/db/src/legacy-fingerprint.ts:15-22 | two lists have the same representation if and only if they are the same list |
| `Junit.StackMachineIsTreeRecursion` | e2e/helpers/junit-counts.ts:13-30 | for every tree the stack machine ends with an empty stack and the recursive definition's suites, or fails exactly when that does |
| `Junit.WalkInside` | e2e/helpers/junit-counts.ts:25-30 | inside a suite every case, in nested suites too, is credited to the outer suite in document order, and failed only by a direct child |
| `Junit.WalkAmong` | e2e/helpers/junit-counts.ts:22-24 | only the children of a root that is no suite start suites of their own |
| `Junit.JunitReader.OpenTag` | e2e/helpers/junit-counts.ts:13-29 | the handler is one step of the machine, or throws on a bad count |
| `Junit.JunitReader.Parse` | e2e/helpers/junit-counts.ts:13-31 | feeding all events leaves the recursive definition's suites |
| `Junit.JunitCounts` | e2e/helpers/junit-counts.ts:31-33 | the counts and failing names returned are those of the recursive definition |
| `Junit.NameIff` | e2e/helpers/junit-counts.ts:12-12 | an element has a plain name such as testsuite if and only if it is in no namespace and has that local name |
| `Junit.SuiteIff` | e2e/helpers/junit-counts.ts:14-23 | a suite is counted if and only if its four attributes are optionally signed decimal integers, absent ones zero; it then has its tests, its failures and errors together, and its skipped tests |
| `Junit.CountsAddUp` | e2e/helpers/junit-counts.ts:32-33 | passed, failed and skipped tests add up to all tests of all suites, and the failing names are those of the failed cases in document order |
| `Junit.DocumentExample` | e2e/helpers/junit-counts.ts:10-33 | a document with a failed, a passed and an unnamed erroneous case, and its counts |
| `Restore.Restoration.PerformRestoreSwap` | apps/api/src/domains/restore-transaction.ts:57-137 | committed means a checked candidate is in place; rolled back or unchanged means the prior database is; recovery required means it is still at its path or kept as the rollback copy, with the candidate displaced exactly if it had been moved; when nothing outside fails an acceptable candidate is committed, any other rolled back, and nothing is left beside the database; at every moment before the checked candidate is in place the prior database is at its path or is the rollback copy, should the process die there |
| `Restore.Restoration.RestorePriorActive` | apps/api/src/domains/restore-transaction.ts:63-84 | no failure loses the rollback copy or the file in its place, and at every moment the rollback copy is there or back at the path |
| `Restore.Restoration.Run` | apps/api/src/backup-cli.ts:229-399 | a working history shows requested, then denied with nothing replaced, or started and exactly one verdict; completed leaves a checked database, failed what was there before; when recovery is required the prior database is at its path or in the rollback copy, and the new one survives exactly if it had been moved into place; a pending rollback copy refuses every restore; at every moment a death of the process leaves the prior database at its path or as the rollback copy, or the checked new one in place; the operator is told of a rollback that the history does not record if and only if the swap had changed nothing; when nothing outside fails an acceptable candidate is installed and any other refused |
| `Restore.Restoration.InstallFirst` | apps/api/src/backup-cli.ts:373-387 | with no prior database: a checked one, none, or recovery required |
| `Processes.Stopper.StopGroups` | scripts/operatoros-dev-runtime.ts:297-315 | the signals and the result are a function of what was seen: exactly the groups alive and verified, phase by phase, and the number left at the last check |
| `Processes.Stopper.SignalPhase` | scripts/operatoros-dev-runtime.ts:302-308 | one phase signals exactly those groups, and stops at the first that cannot be verified |
| `Processes.OnlyCapturedLeadersAreSignalled` | scripts/operatoros-dev-runtime.ts:304-306 | no signal reaches a group whose leader, read just before, is not the process captured at entry |
| `Processes.AtMostThreeSignals` | scripts/operatoros-dev-runtime.ts:301-313 | a group is signalled at most three times, under any change of the process table |
| `Processes.DroppedIsNeverSignalledAgain` | scripts/operatoros-dev-runtime.ts:311-311 | a group dropped at the end of a phase gets no later signal |
| `Processes.SurvivorsAreAlive` | scripts/operatoros-dev-runtime.ts:294-314 | what is left is exactly the groups that had a member other than a zombie at their last check |
| `Processes.SignalledIff` | scripts/operatoros-dev-runtime.ts:302-308 | a phase signals exactly the groups that have a member other than a zombie, whose leader is gone or is the process captured at entry, and that the signal reaches |
| `Processes.UnverifiedIff` | scripts/operatoros-dev-runtime.ts:303-306 | a run is refused for a group if and only if the group has such a member and its leader is there and is not the captured process |
| `Processes.CapturedStart` | scripts/operatoros-dev-runtime.ts:298-298 | what is captured for an owned process is its start time at entry, or that there was none |
| `Processes.Stopper.CleanupPort` | scripts/operatoros-dev-runtime.ts:407-433 | groups are stopped exactly when every listener that is no stale record was stale, and found the same and stale again; otherwise no signal is sent |
| `Processes.TargetsWereStaleTwice` | scripts/operatoros-dev-runtime.ts:426-430 | each group stopped belongs to a listener classified stale in the first look and in a later one |
| `Processes.ConfirmedIff` | scripts/operatoros-dev-runtime.ts:426-427 | a listener is confirmed if and only if it has a process and the later look finds the same process, started when it was, leading its group, and stale |
| `Processes.NothingProtected` | scripts/operatoros-dev-runtime.ts:416-426 | the guard passes exactly when every live listener is stale and cleaning is allowed |
| `Processes.ProtectedIff` | scripts/operatoros-dev-runtime.ts:416-417 | the listeners reported are the live ones that are not stale, or all of them if cleaning is not allowed |
| `Processes.StaleRecordsIff` | scripts/operatoros-dev-runtime.ts:411-414 | the records removed are those of listeners that are only a record and say of which session and role |
| `Funnel.RecursionIsScan` | scripts/operatoros-dev-runtime.ts:46-76 | the recursion answers as a scan of every nested status in order would |
| `Funnel.PrivateIff` | scripts/operatoros-dev-runtime.ts:46-76 | the answer is no if and only if every status reached through foreground sessions is a status, is nested at most four levels deep, and its AllowFunnel map holds nothing but false for the endpoint |
| `Funnel.PublicIsAllowed` | scripts/operatoros-dev-runtime.ts:60-66 | the answer is yes only if the AllowFunnel map of some such status holds true for the endpoint |
| `Funnel.LookupIff` | scripts/operatoros-dev-runtime.ts:42-44 | a property is the first member of that name |
| `Residual.Scan` | scripts/release-consumer-cleanup.py:393-407 | the worklist ends, accepts exactly when every entry at every depth is acceptable, and has then visited each entry once |
| `Residual.SafeIff` | scripts/release-consumer-cleanup.py:393-407 | acceptable trees are those in which every entry that a path leads to is ours, no mount point, and a directory or a file with one name |
| `Residual.SafeDirectoryIsCleared` | scripts/release-consumer-cleanup.py:357-370 | clearing an accepted directory cannot fail and leaves it empty |
| `Residual.ClearingKeepsRefused` | scripts/release-consumer-cleanup.py:357-370 | clearing alone never removes a link, mount, or irregular or multiply linked file |
| `Residual.ClearedIffEmpty` | scripts/release-consumer-cleanup.py:357-370 | clearing succeeds if and only if nothing is left |
| `Residual.RefusedClearingLosesNothingIff` | scripts/release-consumer-cleanup.py:357-370 | without the scan, a refused clearing has removed nothing if and only if its first entry is refused outright: it is a link, mount, irregular or multiply linked file, or the entry that deletion reaches first may not be deleted; ClearingAloneIsNotAtomic is a directory where it loses a file |
| `Residual.Workspace.ClearPrivateDirectory` | scripts/release-consumer-cleanup.py:357-370 | clears in order and stops at the first refusal, leaving the rest |
| `Residual.Workspace.RemoveResidual` | scripts/release-consumer-cleanup.py:373-408 | succeeds exactly when the store is allowed and missing, or a directory of ours with an acceptable tree; then it is empty, otherwise nothing changed |
| `Residual.Workspace.RemoveResiduals` | scripts/release-consumer-cleanup.py:465-469 | stops at the first refused store, with those before it empty and all others untouched |
| `ValidationRows.ValidateRows` | apps/api/src/analytics/risk-threshold-validation.ts:191-215 | rows are accepted exactly when each, on its own, is named CASE- and at least three digits, has a real review date, a known outcome, coverage by natural numbers with no more recorded than expected, and indicators that are finite or null; a repeated case identifier is not noticed |
| `IsoDates.IsoDateAcceptedIff` | apps/api/src/analytics/risk-threshold-validation.ts:130-134 | a text in the shape YYYY-MM-DD prints back unchanged if and only if it is a real day |
| `Threshold.EvaluateThreshold` | apps/api/src/analytics/risk-threshold-validation.ts:276-337 | the loop computes the specified counts and ratios, or the error |
| `Threshold.CellsSumToRows` | apps/api/src/analytics/risk-threshold-validation.ts:293-312 | true and false positives and negatives, uncertain and missing sum to the row count |
| `Threshold.PrecisionIsShare` | apps/api/src/analytics/risk-threshold-validation.ts:332-332 | precision is the share of the flagged evaluable rows that warranted a follow-up; none if none was flagged |
| `Threshold.RecallIsShare` | apps/api/src/analytics/risk-threshold-validation.ts:333-333 | recall is the share of the evaluable rows that warranted one that were flagged |
| `Threshold.SpecificityIsShare` | apps/api/src/analytics/risk-threshold-validation.ts:334-334 | specificity is the share of the evaluable rows that warranted none that were not flagged |
| `Threshold.NegativeValueIsShare` | apps/api/src/analytics/risk-threshold-validation.ts:335-335 | the negative predictive value is the share of the evaluable rows not flagged that warranted none |
| `Threshold.PrevalenceIsShare` | apps/api/src/analytics/risk-threshold-validation.ts:331-331 | prevalence is the share of the evaluable rows that warranted a follow-up |
| `Threshold.OutcomesAreRows` | apps/api/src/analytics/risk-threshold-validation.ts:304-310 | positives and negatives are the rows with a value, of either outcome |
| `Threshold.OthersAreRows` | apps/api/src/analytics/risk-threshold-validation.ts:294-302 | uncertain are the rows of uncertain outcome, missing the others without a value |
| `Threshold.RaisingMovesRows` | apps/api/src/analytics/risk-threshold-validation.ts:303-311 | raising the threshold moves exactly the rows between the two values |
| `Threshold.RecallAndSpecificityTradeOff` | apps/api/src/analytics/risk-threshold-validation.ts:303-335 | recall never falls and specificity never rises with the threshold, mirrored for the other direction |
| `Threshold.DirectionsAreMirrored` | apps/api/src/analytics/risk-threshold-validation.ts:303-303 | negating values and threshold swaps the directions and changes no count or ratio |
| `Threshold.EvaluateThresholdGrid` | apps/api/src/analytics/risk-threshold-validation.ts:339-351 | one evaluation for each threshold in order, or the first error |
| `Threshold.GridIsMonotone` | apps/api/src/analytics/risk-threshold-validation.ts:339-351 | recall and specificity are monotone along every ascending grid |
| `Threshold.RepeatedThresholdIsAccepted` | apps/api/src/analytics/risk-threshold-validation.ts:345-348 | every grid with a repeated threshold goes through exactly when its thresholds are finite and its rows valid, and evaluates the threshold alike each time |
| `Threshold.QuantileGrows` | apps/api/src/analytics/risk-threshold-validation.ts:244-251 | quantiles grow with the probability |
| `Threshold.QuantileSplits` | apps/api/src/analytics/risk-threshold-validation.ts:244-251 | values before the position are no greater than the quantile, values after it no less |
| `Threshold.QuantileInterpolates` | apps/api/src/analytics/risk-threshold-validation.ts:244-251 | the quantile at position k + t is that far between the sorted values k and k + 1 |
| `Threshold.SummaryCounts` | apps/api/src/analytics/risk-threshold-validation.ts:259-268 | a summary counts the rows of its outcome, those with a value and those without |
| `Threshold.SummaryExtremes` | apps/api/src/analytics/risk-threshold-validation.ts:269-273 | min and max are values of those rows, and none is beyond them |
| `Threshold.SummaryQuartiles` | apps/api/src/analytics/risk-threshold-validation.ts:270-272 | the quartiles are the quantiles at a quarter, a half and three quarters of those rows' values in order |
| `Threshold.FiveNumbersAreOrdered` | apps/api/src/analytics/risk-threshold-validation.ts:253-274 | min, q1, median, q3 and max are in order, and present exactly when a value is |
| `Threshold.SummaryIgnoresOrder` | apps/api/src/analytics/risk-threshold-validation.ts:253-274 | the summary does not depend on row order |
| `Threshold.EvaluationIgnoresOrder` | apps/api/src/analytics/risk-threshold-validation.ts:276-337 | nor does an evaluation |
| `Sheets.SafeWorksheetName` | packages/excel/src/sheets.ts:6-15 | the cleaned name if free, else its least free numbering, else the collision error |
| `Sheets.BaseIs` | packages/excel/src/sheets.ts:7-7 | the cleaned name is what stands between the spaces, cut at 31 units, with a dash for each of the seven forbidden characters; Sheet if there is nothing |
| `Sheets.SafeNameProperties` | packages/excel/src/sheets.ts:6-15 | a given name is legal, within 31 characters and new ignoring case; one is always given while fewer than 9,998 names are used |
| `Sheets.CandidatesAreDistinct` | packages/excel/src/sheets.ts:10-13 | different numbers give names that differ ignoring case, however they were cut |
| `Sheets.TakenSuffixesNeedNames` | packages/excel/src/sheets.ts:10-13 | as many distinct names are used as numbers are taken |
| `Sheets.BoundIsExact` | packages/excel/src/sheets.ts:10-14 | 9,998 used names can leave none free |
| `Sheets.RunsKeepNamesDistinct` | packages/excel/src/sheets.ts:17-19 | after every addition of a run all names are legal and pairwise distinct ignoring case, and none of the first 9,998 additions fails |
| `Sheets.Workbook.AddWorksheet` | packages/excel/src/sheets.ts:17-19 | adds exactly the safe name, or changes nothing |
| `Sheets.FineNameIsKept` | packages/excel/src/sheets.ts:7-9 | a legal, trimmed, unused name is kept as it is |

## Left out

- MigrationRun.Target.Install: the tables that the installers create, and the constraints and triggers behind `accepts` and `admits`, are parameters, those behind `accepts` seeing one table at a time; column additions, rebuilds and the seed are spelled out. A rebuild copies the rows of a table whose columns stay the same.
- MigrationRun.Target.RunBackfill: the SQL of its queries and how its rows are written are parameters; ids of class-months assume that an S46 source has none.
- MigrationRun.Volume.Migrate: the ledger table is kept apart from the other tables; when the integrity and foreign key checks of a target pass is a parameter.
- Backfill.BackfillPolicies: label order is by code units instead of the collation of localeCompare, and policies are compared without created_at.
- Backfill.ScopeIff: is about academic years given by real days; the query compares whatever text there is.
- Backfill.RevisionsFollowUpdates: takes the ORDER BY of the query as given; text is compared by code units.
- AttendanceRows.OutputIsOrdered: compares by code units instead of localeCompare, which agrees on the digits and dashes compared here.
- Attendance.IncrementalIsBatch: warnings are a set; the order in which they are listed is not modelled.
- AttendanceRows.ParseRows: dateCoverage, the workbook's warnings and the header checks are not modelled.
- Dates.UtcDateAcceptsIff: gives the civil date; printing it as text is not modelled.
- Dates.DurationRoundTrip: numbers are exact, so durations beyond 2^53 seconds are outside it.
- Junit.JunitCounts: the missing-file result, XML parsing and namespaces' prefixes are not modelled; counts are integers.
- LegacyFingerprint.DistinctSchemasPrintDifferently: is about the text that is hashed; the hash is not modelled.
- Restore.Restoration.Run: a death of the process keeps the renames made so far; losing unsynced ones to a power failure is not modelled. The operations audit line and the beforeCommit hook, which this caller does not use, are left out. A file system operation that fails has had no effect.
- Processes.Stopper.StopGroups: time limits become an arbitrary number of waits; the log lines are left out.
- Processes.Stopper.CleanupPort: how a listener is classified is arbitrary; the printed explanations are left out.
- Funnel.PrivateIff: an object is its own string-keyed properties; the Serve route checks around it are not modelled.
- Residual.Workspace.RemoveResidual: no concurrent change, and no permission bits; the deletion fails only at a mount point or below a directory of another user.
- Threshold.EvaluateThreshold: arithmetic is over the reals.
- Threshold.FiveNumbersAreOrdered: is about rows that have been validated; a row's window and jenjang, which nothing here reads, are not modelled.
- Sheets.SafeNameProperties: lower-casing is any function that leaves a suffix such as " (2)" alone; what ExcelJS itself refuses is not modelled.
- DeploymentTheorems.FailedDeployIsUndone: promises services only for failures without a crash; after a crash inside restore_snapshot only the durable files are promised, because restarts depend on a file comparison.
- DeploymentProgress.MarkerTellsProgress: says nothing of the phases that the handler and the rollbacks write, nor of a release record written between spa_staged and the next phase.
- DeploymentHost.Host.ArchiveTransaction: the final rename either happens or is refused; it cannot raise after taking effect.
- Ownership, permission, path, attestation, capacity and health checks of the deployer, locks and downloads: what they will find is part of a request, one answer for each group of checks; what they look at is not modelled. The health check of a restoration passes only if both services run; what else it asks for may fail.
- materialize_spa and the bytes of images and archives.
- Indexes, triggers and the hashing of fingerprints: a schema is the set of parts installed.
- The cleanup entry point of the release consumer around the residual loop: it counts failures of foreign commands.
- summarizeCalibrationAgreement, safeCellValue, safeExportFilename, clock parsing and other functions settled by reading them.
- The web client, HTTP layer, contracts and tooling.
