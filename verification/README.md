# Proofs about the document-expiry service

A Dafny model of the service's stateful core, with proofs of what it keeps over whole runs. `dafny verify dfyconfig.toml`
checks the project.

| module | what it models |
|---|---|
| `RowLocking`, `RowTable` | optimistic locking under READ COMMITTED: read, compute, conditional UPDATE, COMMIT, interleaved; `RowTable.Table` has the same statements as methods that change a table in place |
| `Documents`, `Employees` | the two services that share that protocol: cached expiry status, manual overrides, audit entries, unique employee codes |
| `Calendar`, `Expiry` | UTC calendar arithmetic on `Date.UTC`, and the status engine |
| `Reminders`, `Scanner` | the reminder worker with its idempotency key, and the daily scan that feeds it |
| `AuditLog` | the savepoint protocol of an audit write inside a caller's transaction |
| `ImportExport`, `Export` | sheets and the row loop of an import; the export, and importing it again |
| `Uploads`, `ImportJobs` | racing uploads of a file; completion jobs |
| `Tenancy` | row-level security on pooled connections |
| `Migrations` | the migration runner, stopped anywhere and started again |
| `Dashboard`, `Seed` | the counts and the date window; apportionment and batched inserts of the seed generator |

Each concurrent protocol is a state machine: a state, an action per statement, `Enabled` (with the waits for row and
unique-key locks), `Next`, and runs as sequences of actions (`Legal`, `Exec`). Each statement sees the rows committed when
it runs; a conditional UPDATE tests its WHERE on the committed row once it holds the row; a unique INSERT waits for an
uncommitted holder of the key. Theorems quantify over every run. The classes perform the same statements in place; a ghost
`trace` ties every method call to a run of the machine, so the theorems apply to the classes. A method that performs a
whole request is given for a moment when no other transaction holds its row or key; other moments are covered by the machine.

## What the proofs show about the code

- **Locking needs client discipline.** The UPDATE tests the version that the client sent, but writes values merged from the
  row that was read. If clients send only versions they learned from a committed row, every run is serial and no update is
  lost. A guessed future version overwrites another client's committed update, and can undo a manual override. A run is
  free of such overwrites if and only if every successful update's version is the version it read (`FaithfulIffGuarded`).
- **Reminders.** At most one SENT row per document and threshold, whatever fails. The send itself is outside the rollback:
  with `n` worker processes up to `5n` sends of one reminder can complete, and that number is reached.
  ADR-026 says that a FAILED reminder is retried by the next daily scan; thresholds match one day count exactly, so it is
  due again only on the same UTC day (`RetryOnlyOnTheSameDay`). The model follows the code.
- **Audit writes.** If SAVEPOINT and ROLLBACK TO work, no pattern of other failures touches a business write. If SAVEPOINT
  itself fails after an earlier call left its savepoint behind, the rollback reaches that older savepoint and undoes the
  business writes since it, while the commit goes through. `ContainedIffGood` says for whole transactions exactly which
  patterns of failures keep the business writes.
- **Exports.** The export has no limit and the import has one, so the sheet of a tenant with no employee or more than 5000 is
  refused. For 1 to 5000, re-importing is the identity on data if and only if every exported employee has both names, its
  code and names are trimmed, each other value is trimmed or blank, the full name is the derived one, and the import schema
  accepts the row (`Exportable`). The API accepts a first name that starts with a space, and the import trims it; the
  employees of the development data have no first or last name, and their rows are errors of the import.
- **Calendar.** `Date.UTC` moves the years 0 to 99 to 1900 to 1999, and the first ten characters of a six-digit year do not
  name its date. Printing and reading back is the identity exactly for the years 100 to 9999.
- **Migrations.** From a fresh database every file is executed exactly once across any crashes. A database older than the
  tracking table is backfilled with every file on disk, whatever it has executed. If it has executed the first `k` files and
  the first backfill tracks `b`, then files `b` to `k` are executed twice and files `k` to `b` never; each file is executed
  exactly once if and only if `b` is `k`. ADR-038 takes every file on disk to be applied already: that holds as long as the
  first tracked run comes before a new file, and is not interrupted in its backfill loop, which is not in a transaction.

## Model

| member | source | states |
|---|---|---|
| RowLocking.NoLostUpdates | apps/api/src/documents/documents.service.ts:154-201 | In every interleaving of clients that send only learned versions, each successful update overwrites exactly the live row it read, and each row's history is a chain of requests applied to the row before |
| RowLocking.FaithfulIffGuarded | apps/api/src/documents/documents.service.ts:184-201 | In any run, all updates overwrite what they read if and only if each names the version it read |
| RowLocking.GuardedRunsAreSerial | apps/api/src/employees/employees.service.ts:148-184 | After a guarded run a row is what its requests give one after another; update k writes version k + 1 |
| RowLocking.DisciplineIsEnough | apps/api/src/employees/employees.service.ts:178-184 | Clients that send learned versions make every run guarded, and keep it so |
| RowLocking.VersionsCountUpdates | apps/api/src/documents/documents.service.ts:193-195 | Each version has exactly one winner; an archive ends the history |
| RowLocking.VersionsRise | apps/api/src/documents/documents.service.ts:193-195 | Versions never fall along a history and rise strictly while the row lives |
| RowLocking.ChainReplays | apps/api/src/documents/documents.service.ts:184-201 | The last row of a history equals the serial replay of its requests |
| RowLocking.StepIsOneRequest | apps/api/src/documents/documents.service.ts:184-229 | Each action leaves a committed row alone or performs one whole request on it |
| RowLocking.StickyFields | apps/api/src/documents/documents.service.ts:184-201 | A property of fields that every request keeps is never lost in a faithful run |
| RowLocking.ArchiveIsFinal | apps/api/src/documents/documents.service.ts:184-253 | In every run of any clients an archived row never changes again and is never un-archived |
| RowLocking.KeysStayUnique | apps/api/src/employees/employees.service.ts:99-125 | In every run of any clients committed keys are distinct, archived rows included: inserts wait for uncommitted rows of their key, and what an update writes keeps the key of its row, however stale the row it read |
| RowLocking.RowsStayOk | apps/api/src/documents/documents.service.ts:167-192 | A property of fields that the clock, create and update keep holds of every committed row in every run, disciplined or not |
| RowLocking.GuessedVersionLosesAnUpdate | apps/api/src/documents/documents.service.ts:186-195 | A run in which a guessed version overwrites a committed update with values merged from an older row |
| RowTable.Table.Write | apps/api/src/documents/documents.service.ts:184-201 | The conditional UPDATE: succeeds exactly if the committed row is live and has the named version, and then holds the row |
| RowTable.Table.UpdateRequest | apps/api/src/employees/employees.service.ts:148-189 | A whole update while the row is free: NotFound, Conflict or the merged row at the next version, one audit entry, and nothing else changed |
| RowTable.Table.ArchiveRequest | apps/api/src/employees/employees.service.ts:192-219 | A whole archive while the row is free: sets the deletion time and nothing else, or NotFound |
| Documents.DocumentsService.Create | apps/api/src/documents/documents.service.ts:48-103 | A missing employee changes nothing; otherwise a row at version 1 that holds each value of the request and the status of the day under the policy of its type, or under the built-in windows, and its audit entry |
| Documents.CreationStores | apps/api/src/documents/documents.service.ts:66-83 | What the fields of a creation hold, value by value, and the status as conditions on the days to the date and the fields of the policy |
| Documents.DocumentsService.Update | apps/api/src/documents/documents.service.ts:142-229 | BadRequest, NotFound, Conflict in that order, else at the next version each requested value is stored and each other one kept, and the status is the one set by hand or that of the day; the audit entry holds the row before and after |
| Documents.UpdateStores | apps/api/src/documents/documents.service.ts:167-193 | What the fields of an update hold, value by value, with the status of the day for the date it ends up with |
| Documents.DocumentsService.Archive | apps/api/src/documents/documents.service.ts:231-259 | NotFound for a missing or archived document; otherwise only the deletion time changes |
| Documents.StaleCacheIsOptimistic | apps/api/src/documents/documents.service.ts:66-82 | In every run of creates, updates, archives and ticks, for every policy, the status that the day, the date and the policy give now is as bad as a stored status that is not an override, or worse; EXCEPTION has a reason and RENEWAL_IN_PROGRESS a start time |
| Documents.ServicePreserves | apps/api/src/documents/documents.service.ts:167-192 | The clock, create and update each keep that relation between the stored and the recomputed status |
| Documents.OverridesAbsorb | apps/api/src/documents/documents.service.ts:148-192 | With learned versions an overridden document stays overridden and an archived one unchanged, whatever is done next |
| Documents.GuessCanUndoOverride | apps/api/src/documents/documents.service.ts:184-195 | A run with a guessed version after which a document that was set to EXCEPTION is VALID |
| Documents.AuditTellsTheDocument | apps/api/src/documents/documents.service.ts:203-225 | When no audit write fails, create and update entries form an unbroken chain of versions 1..n that ends in the stored row, and the status entries alone tell the stored status; the trail of an archived document ends with its archive entry |
| Documents.ChainTellsItsRow | apps/api/src/documents/documents.service.ts:203-225 | The trail of any serial history determines its row, archive entries notwithstanding |
| Documents.UpdateIsIdempotent | apps/api/src/documents/documents.service.ts:167-192 | The same request again at the same moment changes nothing more, overrides and recomputed statuses included |
| Documents.UpdatesCompose | apps/api/src/documents/documents.service.ts:167-192 | Two updates at one moment equal the one that merges them, recomputed status included, if and only if the second does not swap one override for the other and so leave its note behind |
| Employees.EmployeeRunsAreSerial | apps/api/src/employees/employees.service.ts:148-184 | With learned versions each employee is what its requests give one after another |
| Employees.EmployeeCodesAreUnique | apps/api/src/employees/employees.service.ts:99-125 | In every run, whatever clients send, no two employees of a tenant share a code, archived ones included |
| Employees.FullNamesFollow | apps/api/src/employees/employees.service.ts:161-177 | In every run the full name is the trimmed join of the names unless that is blank |
| Employees.CreationStores | apps/api/src/employees/employees.service.ts:92-114 | A new employee holds each value of its request, and the two names as full name without white space at the ends |
| Employees.EmptyUpdateKeeps | apps/api/src/employees/employees.service.ts:161-177 | A request that names nothing changes nothing, and leaves the full name of an employee without names alone |
| Employees.UpdatesCompose | apps/api/src/employees/employees.service.ts:161-177 | Two updates in a row equal the one that merges them, if and only if the full name is not left over from a name that the second blanks |
| Employees.UpdateReachesAnyEmployee | apps/api/src/employees/employees.service.ts:168-175 | A request with every value of an employee gives any row of the same key exactly that employee |
| Employees.EmployeesService.Create | apps/api/src/employees/employees.service.ts:92-140 | Conflict exactly if a row of the tenant, archived or not, has the code; otherwise the new row with each value of the request, and nothing else |
| Employees.EmployeesService.Update | apps/api/src/employees/employees.service.ts:142-190 | NotFound, Conflict, or the merged row at the next version and nothing else |
| Employees.EmployeesService.Archive | apps/api/src/employees/employees.service.ts:192-220 | Only the deletion time of a live employee changes |
| Calendar.DayNumberPreservesOrder | apps/api/src/common/calendar-days.ts:18-25 | One date is before another exactly if its day number is smaller, for all years |
| Calendar.CivilOfDayOfCivil | apps/api/src/common/calendar-days.ts:18-25 | The date of the day number of a date is that date |
| Calendar.DayOfCivilOfDay | apps/api/src/common/calendar-days.ts:18-25 | The day number of the date of a day is that day, so the two are inverse |
| Calendar.MonthLengths | apps/api/src/common/calendar-days.ts:18-25 | The lengths of the months, with 29 days of February by the rule of 4, 100 and 400 |
| Calendar.NextDay | apps/api/src/common/calendar-days.ts:18-25 | The day after a date, across months and years, has the next day number |
| Calendar.DayHoldsItsMoments | apps/api/src/common/calendar-days.ts:24 | A moment lies in the 86,400,000 ms of its UTC day |
| Calendar.MidnightsAreWholeDaysApart | apps/api/src/common/calendar-days.ts:37-40 | The difference of two midnights is an exact multiple of 86,400,000 ms |
| Calendar.RoundingIsExact | apps/api/src/common/calendar-days.ts:37-40 | The rounded quotient is the difference of the two days, so nothing is ever rounded |
| Calendar.DaysUntilIsAdditive | apps/worker/src/workers/calendar-days.ts:37-40 | Days from a to b plus days from b to c are the days from a to c |
| Calendar.TimeOfDayIsIgnored | apps/worker/src/workers/calendar-days.ts:27-40 | Two moments of one UTC day give the same counts and the same printed date |
| Calendar.MidnightOfMoment | apps/api/src/common/calendar-days.ts:24 | A Date denotes its own UTC day if and only if its year is not 0 to 99 |
| Calendar.MidnightOfText | apps/api/src/common/calendar-days.ts:19-23 | A valid four-digit date text from year 100 on denotes the day it names |
| Calendar.DaysUntilCountsDays | apps/api/src/common/calendar-days.ts:37-40 | For such a text the count is the expiry day minus the UTC day of now |
| Calendar.PrintThenReadIsIdentity | apps/api/src/common/calendar-days.ts:27-30 | Printing an instant's date and reading it back gives its day if and only if the year is 100 to 9999 |
| Expiry.StatusMeansThresholds | apps/api/src/expiry/expiry.service.ts:32-54 | Each status as the separate window, grace and block conditions, for windows in any order and of any sign |
| Expiry.CalculateStatusMeans | apps/api/src/expiry/expiry.service.ts:13-55 | What was set by hand stays; otherwise each of the four statuses as conditions on the day of the expiry text, the UTC day of now and the fields of the policy, VALID for a missing, empty or unreadable date |
| Expiry.DaysUntilFalls | apps/api/src/expiry/expiry.service.ts:30 | As the clock moves on, the day count falls by exactly the days that passed |
| Expiry.StatusOnlyWorsens | apps/api/src/expiry/expiry.service.ts:26-54 | For every policy and date a later recomputation is never better |
| Expiry.StatusOfTheDayWorsens | apps/api/src/expiry/expiry.service.ts:26-54 | As the clock moves on, the status of the day, told by days and policy alone, never gets better |
| Reminders.KeyIsInjective | apps/worker/src/workers/reminder-scanner.worker.ts:91 | Two jobs share a key exactly if they share document and threshold, whatever text the ids are |
| Reminders.KeyOfAReminder | apps/worker/src/workers/reminder-scanner.worker.ts:91 | The key spelled out for one reminder |
| Reminders.LookupDecides | apps/worker/src/workers/reminder.worker.ts:95-128 | Only a document that is gone is recorded without its id; one without a mail address is recorded with it |
| Reminders.AtMostOnceSent | apps/worker/src/workers/reminder.worker.ts:60-166 | Over every run with every fault, two committed SENT rows of a document and threshold are one row, and a send of it completed |
| Reminders.KeysMatchTerminalRows | apps/worker/src/workers/reminder.worker.ts:101-147 | Committed keys and terminal rows are in bijection |
| Reminders.CommitEffect | apps/worker/src/workers/reminder.worker.ts:76-166 | A commit adds one row and claims the key exactly if the row is terminal; a run that found its key adds nothing |
| Reminders.DuplicateSendsAreBounded | apps/worker/src/workers/reminder.worker.ts:137-168 | Without a crash or a fault other than the unique violation, at most five sends per worker process complete for one key |
| Reminders.BoundIsReached | apps/worker/src/workers/reminder.worker.ts:72-147 | That number of sends does happen: copies that all check the key before one commits all send |
| Reminders.LateRunsNeverSend | apps/worker/src/workers/reminder.worker.ts:72-85 | A run that has not checked its key when the key is committed never sends, in any continuation, faults included |
| Reminders.FailedReminderIsSentAgain | apps/worker/src/workers/reminder.worker.ts:151-165 | After any run that left a reminder only FAILED rows, its key is free and one more copy of the job does send |
| Reminders.ReminderWorker.ProcessJob | apps/worker/src/workers/reminder.worker.ts:60-166 | The job body while no one holds the key: its outcome, its one row, its key and its send, case by case |
| Reminders.ReminderWorker.RecordAndClaim | apps/worker/src/workers/reminder.worker.ts:101-108 | Row and key are committed together, or neither on a unique violation |
| Scanner.MatchReminderThreshold | apps/worker/src/workers/reminder-policy.ts:9-12 | Finds a threshold exactly if the count is one of them |
| Scanner.ReminderScanner.ScanTenant | apps/worker/src/workers/reminder-scanner.worker.ts:42-100 | Appends jobs in candidate order, and a job is appended exactly if the tenant is active, its policy not disabled, and one of its documents is live, EXPIRING_SOON, the configured number of days before its date when its turn comes, and not yet sent |
| Scanner.ReminderScanner.Scan | apps/worker/src/workers/reminder-scanner.worker.ts:39-101 | Appends the jobs of all active tenants in order, and exactly the jobs that a document of one of them asks for |
| Scanner.ScanMeans | apps/worker/src/workers/reminder-scanner.worker.ts:45-99 | A job of a tenant's scan is one that a document asks for, in terms of the fields of the document, the policy, the log and the day numbers |
| Scanner.ScanIsExact | apps/worker/src/workers/reminder-scanner.worker.ts:45-99 | One job for each live EXPIRING_SOON document of the tenant that is due and not yet sent, none for any other, none for a disabled policy or an inactive tenant |
| Scanner.JobsAreScannerMade | apps/worker/src/workers/reminder-scanner.worker.ts:91-98 | Every job of a scan names the tenant that owns its document, which is what the worker's theorems ask of jobs |
| Scanner.DueOnOneDay | apps/worker/src/workers/reminder-scanner.worker.ts:73-89 | A threshold is due only on the UTC day expiry minus threshold |
| Scanner.RetryOnlyOnTheSameDay | apps/worker/src/workers/reminder-scanner.worker.ts:74-89 | A reminder due once is due at another time exactly if it is the same UTC day and its own SENT row is not in the log |
| Scanner.OtherRowsDoNotMatter | apps/worker/src/workers/reminder-scanner.worker.ts:78-89 | Failures of a reminder, and rows of any status for other documents or thresholds, leave it due for the rest of its day |
| Scanner.OverriddenIsNeverEnqueued | apps/worker/src/workers/reminder-scanner.worker.ts:60-70 | A scan that reads its candidates after an override was committed does not enqueue the document |
| AuditLog.Transaction.Log | apps/api/src/audit/audit.service.ts:55-107 | What one call leaves of rows, savepoints and transaction status, for every pattern of failing statements |
| AuditLog.FailuresAreContained | apps/api/src/audit/audit.service.ts:55-107 | While SAVEPOINT and ROLLBACK TO work, after any number of calls with any INSERT and RELEASE failures: not aborted, all business writes, exactly the audit rows whose INSERT and RELEASE worked |
| AuditLog.ContainedIffGood | apps/api/src/audit/audit.service.ts:55-107 | For any number of business writes and calls, with any of the four statements of each failing: the transaction can commit with all business writes if and only if its steps are good, which is told by counting the rows since the nearest leftover savepoint |
| AuditLog.FailedSavepointCanLoseAWrite | apps/api/src/audit/audit.service.ts:56-80 | A failed SAVEPOINT after a failed call undoes the business write between the two |
| ImportExport.BuildRowRecord | apps/api/src/import-export/employee-row.ts:32-42 | The record of a row as a function of headers and cells |
| Texts.TrimLeavesCore | apps/api/src/import-export/employee-row.ts:28 | Trimming takes away all white space at both ends and nothing else |
| ImportExport.CellsRead | apps/api/src/import-export/employee-row.ts:14-29 | What each kind of cell is read as |
| ImportExport.ColumnsAreRead | apps/api/src/import-export/employee-row.ts:32-42 | With distinct headers each column is read into its own field, and nothing beyond the end of the row |
| ImportExport.RecordHoldsLastCells | apps/api/src/import-export/employee-row.ts:32-42 | Of columns with one header the last counts; blank headers are skipped; no other field occurs |
| ImportExport.ParseWorkbook | apps/api/src/import-export/import.service.ts:65-87 | Refuses exactly sheets with a missing required header, no data row or too many; otherwise the records of the rows that are not blank |
| ImportExport.RowsAreNumbered | apps/api/src/import-export/import.service.ts:74-79 | Row numbers rise strictly and each record is that of its own sheet row |
| ImportExport.RowsWithCellsAreRead | apps/api/src/import-export/import.service.ts:75-79 | Every row with a cell anywhere is read, and no other |
| ImportExport.RowIsAcceptedIff | apps/api/src/employees/employees.schemas.ts:14-23 | Which records become requests, field by field |
| ImportExport.ImportService.ImportEmployees | apps/api/src/import-export/import.service.ts:126-209 | A known file changes nothing, an unreadable sheet changes nothing, any other is folded into the table; the batch counts add up, the errors rise, and one audit entry has the outcome of the counts |
| ImportExport.ImportService.ImportRows | apps/api/src/import-export/import.service.ts:157-176 | The row loop, over EmployeesService, leaves the fold of a per-code upsert over the good rows; other tenants untouched; counters and outcome consistent |
| ImportExport.ImportService.UpsertEmployeeRow | apps/api/src/import-export/import.service.ts:90-124 | Refuses an archived code and otherwise performs one upsert of the simple map |
| ImportExport.CreateThenUpdateKeeps | apps/api/src/import-export/import.service.ts:105-123 | Importing the row of a new employee once more changes nothing |
| ImportExport.ErrorsRise | apps/api/src/import-export/import.service.ts:160-173 | The error list rises strictly and names only rows of the sheet |
| Export.ExportReadsBack | apps/api/src/import-export/export.service.ts:8-43 | Of any employee, every field is read from its own column: nothing from a blank cell, otherwise the trimmed text |
| Export.CreatedIsExported | apps/api/src/import-export/export.service.ts:32-43 | The exported row of a created employee has each value of its request in its own column and an empty cell for each missing one |
| Export.ComesBackIff | apps/api/src/import-export/employee-row.ts:14-60 | Exporting an employee and importing its row leaves it as it is if and only if both names are present, code and names are trimmed, the other values are trimmed or blank, the full name is derived and the schema accepts the row |
| Export.UntrimmedNameIsChanged | apps/api/src/import-export/employee-row.ts:28 | An employee that the API creates, with a space before its first name, is not left as it is |
| Export.NamelessIsAnError | packages/database/migrations/004_seed_dev.sql:8-13 | An employee without a first or last name is exported to a row that the import refuses |
| Export.ReimportIsIdentity | apps/api/src/import-export/import.service.ts:74-87 | For any live employees: the sheet of their export is refused if and only if it has no row or more than 5000; folding it gives no error, changes no field and raises exactly these employees by one version if and only if all are exportable |
| Export.ExportThenImport | apps/api/src/import-export/export.service.ts:23-47 | Exporting live employees and importing the sheet as a new file, end to end in place: refused without any change exactly for 0 or more than 5000 rows; otherwise all data is kept, with no error, if and only if all are exportable |
| Export.LargeExportIsRefused | apps/api/src/import-export/import.service.ts:83-85 | A table of 5001 exportable employees whose export cannot be imported again |
| Export.ExportedSheetParses | apps/api/src/import-export/export.service.ts:29-43 | The exported sheet is read row by row, with no row lost or renumbered |
| Uploads.OneProcessingPerFile | apps/api/src/import-export/import.service.ts:132-155 | In every interleaving of uploads with crashes: one batch row per tenant and file, one row loop at most, none by a replayed or refused upload |
| Uploads.KnownFileIsReplayed | apps/api/src/import-export/import.service.ts:134-141 | An upload that searches after the batch row was committed replays it or dies, in every continuation, and never parses, inserts or handles a row |
| Uploads.RunKeepsInv | packages/database/migrations/009_e3_reminders_import_dashboard.sql:83 | The unique constraint and its lock keep uploads, holders and batch rows consistent in every run |
| Uploads.ImportIsOneUpload | apps/api/src/import-export/import.service.ts:132-155 | What an import alone does to the service's table of batches is what a run of the upload machine does to the batch rows |
| Uploads.ImportTracked | apps/api/src/import-export/import.service.ts:126-209 | A call of the service's import adds one legal run to the upload machine, which then has the service's batches, and handles every row of the sheet or none |
| ImportJobs.EachDoneBatchHasOneKey | apps/worker/src/workers/import.worker.ts:41-56 | However often completion jobs are delivered, a done batch has exactly one key |
| ImportJobs.ImportWorker.ProcessJob | apps/worker/src/workers/import.worker.ts:30-58 | Appends the key exactly if the tenant is active and the key is new |
| Tenancy.SettingNeverLeaks | packages/database/migrations/003_rls.sql:12-28 | In every run an idle connection's setting is unset or empty, a transaction sees and writes only rows of its tenant, and none without one |
| Tenancy.SeenRows | packages/database/migrations/003_rls.sql:14-16 | The policy shows a transaction rows of its tenant only, none for an unset or empty setting |
| Tenancy.SelectIsExact | packages/database/migrations/003_rls.sql:14-22 | In any interleaving a SELECT answers with all rows of the tenant, own earlier writes included, and no others |
| Tenancy.CommitStoresWrites | tools/seed/db.ts:42-46 | A COMMIT stores every row the transaction wrote, removes every one it deleted, and leaves the others |
| Tenancy.StatementIsPlain | packages/database/migrations/003_rls.sql:14-22 | On the committed rows and its own writes a statement answers and changes what it does on a plain table, restricted to the tenant's rows |
| Tenancy.OneWriterPerRow | packages/database/migrations/003_rls.sql:12-28 | In every run a row has one uncommitted writer at most |
| Tenancy.NonInterference | packages/database/migrations/003_rls.sql:12-28 | Removing all other tenants' transactions from any run, and changing their rows, leaves a tenant's answers and final rows the same |
| Tenancy.ForeignStepIsInvisible | apps/api/src/database/tenant-context.ts:11-13 | A step of another tenant, or of a transaction that set no tenant, changes nothing the tenant can see |
| Tenancy.Pool.WithTenant | tools/seed/db.ts:35-53 | BEGIN, set, the statements up to the first failure, COMMIT or ROLLBACK, release: each answer is that of the statements one after the other on a plain table, a commit leaves exactly their table, a rollback the old one, and the connection goes back with an empty setting |
| Migrations.PlanMigrations | infra/postgres/migrate.js:44-55 | Backfill everything and apply nothing, or apply exactly the files on disk that are not tracked |
| Migrations.WithoutKeepsOrder | infra/postgres/migrate.js:53 | For any tracked set, the files to apply are the untracked ones, each once per place on disk and in the order of the disk |
| Migrations.Migrator.Migrate | infra/postgres/migrate.js:85-116 | A run that dies anywhere or meets failing SQL leaves the tracked and executed files of one possible progress; it finishes exactly if it lives through every statement and no SQL fails, and then all that was planned is done |
| Migrations.StepAdvances | infra/postgres/migrate.js:104-116 | One run extends the applied prefix of the list, and finishes exactly if it reaches the end |
| Migrations.FreshRunsAreExactlyOnce | infra/postgres/migrate.js:85-116 | From a fresh database, after any runs the executed files are the tracked ones, a prefix in order without repetition; a finished run has all and the next plans nothing |
| Migrations.PreexistingIsSafeIff | infra/postgres/migrate.js:44-102 | A database that has executed the first k files on disk and tracks none, after any runs of which the last finishes: the executed files are those k and then the ones from the first backfill on, and each file is executed exactly once if and only if the first backfill stopped after exactly k files |
| Migrations.WholeDatabaseIsSafeIff | infra/postgres/migrate.js:92-102 | When all files on disk were executed, that condition is that no run stopped inside the backfill loop |
| Migrations.NewestFileIsSkipped | infra/postgres/migrate.js:48-54 | An older database and a new file on disk: one uninterrupted run tracks both files and never executes the new one |
| Dashboard.GetSummary | apps/api/src/dashboard/dashboard.service.ts:29-45 | Whatever order the groups come in: each of six statuses with the number of documents of the tenant that are not deleted and have it; the six add up to the total, which is the number of the tenant's documents that are not deleted |
| Dashboard.GroupTotal | apps/api/src/dashboard/dashboard.service.ts:39-43 | The counts of distinct groups add up to the documents in those groups |
| Dashboard.TypeCountsAreLive | apps/api/src/dashboard/dashboard.service.ts:53-57 | A count by type and status is the number of such documents that are not deleted |
| Dashboard.StatsAgreeWithSummary | apps/api/src/dashboard/dashboard.service.ts:53-63 | Summing the statistics over the types gives the summary, status by status |
| Dashboard.WindowIsDayCount | apps/api/src/dashboard/dashboard.service.ts:76-88 | A date is in the expiring window exactly if its day count is between 0 and withinDays |
| Seed.Distribute | tools/seed/generate.ts:106-120 | Counts sum to the total; every tenant but the first has its quota rounded half up, the first is within (n - 1)/2 |
| Seed.ErrorsAddUp | tools/seed/generate.ts:110-114 | The rounding errors of n tenants add up to at most n/2 |
| Seed.ConfiguredCountsAreNonNegative | tools/seed/config.ts:28-34 | With the configured weights no tenant gets a negative count, for every total |
| Seed.BatchInsert | tools/seed/generate.ts:89-104 | Chunks concatenate to the input, all full but the last, and statement k stores chunk k |
| Seed.RowMajorStores | tools/seed/generate.ts:93-102 | Numbering the cells row by row makes each placeholder bind exactly its own cell |

## Left out

- HTTP controllers, authentication, queue, mail and spreadsheet libraries, and PostgreSQL beyond the statement semantics above.
- The worker's copy of the calendar functions is the same text as the API's; `Calendar` models both.
- `stripSecrets`, log lines, error texts and the `error_message` column: they decide nothing.
- Lists and searches with paging: `ORDER BY created_at` is not a total order, so pages need not concatenate.
- Exactly-once mail, a reminder for every due document, and a retry on a later day: the code does not give them.
- Calendar.ToNumber: `Number` of texts other than an optional sign and digits counts as NaN (`Number("")` is 0 as in the source); the date texts of the service have digits there.
- Documents.DocumentsService.Create: the employee lookup is a parameter; locks on the employee row are not modelled.
- Documents.DocumentsService.Update: `now()` for the renewal start and the clock of the engine are one reading, taken when the values are computed; versions do not overflow; the reason column of the audit entry is left out.
- Documents.StaleCacheIsOptimistic: policies are fixed for the run, as the stored status says nothing about a later policy.
- Documents.AuditTellsTheDocument: archive entries are outside the chain, since archive has no version check and may log an older row.
- Employees.EmployeesService.Archive: the status column is not stored; it is 'archived' exactly when the deletion time is set.
- Reminders: the job carries the key that the scanner computes, and the schema check of a malformed job is left out; thresholds may be any integer here.
- Reminders.DuplicateSendsAreBounded: crashes are excluded, because a crash after a send loses the record of it and each redelivery may send again.
- ImportExport.ImportService.ImportEmployees: one import alone; racing uploads are in `Uploads`, on values and not in place, with `ImportTracked` between the two; the audit entry is the one of an audit write that works. The mail address check is a parameter, and cells that are numbers or dates arrive as their text.
- ImportExport.ImportService.ImportRows: assumes no other writer during the loop; a failing transaction of a row is a flag of the row.
- Tenancy.NonInterference: ids of new rows are drawn so that tenants never collide; a write waits until no other transaction has written its rows.
- Tenancy.Pool.WithTenant: other connections are idle during the call; interleavings are in the machine. The uuid cast of the policy is equality of the canonical text.
- Migrations.PreexistingIsSafeIff: the files on disk are the same in all runs.
- Migrations.Migrator.Migrate: the SQL of a file is atomic with its tracking row, as its transaction makes it; a failing backfill insert is a stop at that point.
- Dashboard: the host is on UTC and `now` is read once; the paging of the expiring documents is left out.
- Seed.Distribute: quotas are exact rationals; the generated people and documents are left out.
