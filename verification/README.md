# Verified model of the mail synchronisation portal

The portal (VM1) copies mailboxes from foreign IMAP servers to its own mail server (VM2). A scheduler and the
web application put jobs into a queue; one worker process claims them, throttled by a global policy, and runs
`imapsync`, provisions mailboxes on VM2, or updates the systems. This project models that logic in Dafny and
proves what the code keeps, over every input and every interleaving. Where the code does not keep what its own
comments promise, the project says exactly when it does.

`dafny verify dfyconfig.toml` checks everything.

## How it is built

**The queue as a protocol** (`Tables`, `Throttle`, `Claiming`, `Transactions`, `Protocol`, `Invariants`,
`Guarantees`, `Handlers`, `Recurring`, `Starts`, `Outcomes`, `Waiting`, `SystemUpdates`, `Scenarios`, `Crowding`). Every `session_scope()`
block is one atomic function on the tables. `Protocol` puts them together: scheduler ticks, manual syncs, imports,
deletions and update requests may happen at any time; the single worker moves from claim to the handler's
transactions to finish; it may crash between any two transactions, after which the reaper runs before it claims
again. `Reachable` means reachable by any such run; `Scenarios` and `Crowding` build the runs that reach the states
the guarantees are careful about. VM2's commit and VM1's commit of a provisioning are two separate steps. `Portal`
holds the same transactions in the source's own form, methods that update tables in place, each proved equal to the
function the protocol uses; `Prediction` is the dashboard's forecast of the next tick.

**The update of the application across two machines** (`AppUpdate`, `PanelStatus`). State files are written by
truncate-then-fill, polls read `active` and the state file in two steps, and a run may be killed at any moment.

**The audit chain** (`AuditChain`). The hash is an arbitrary function with 64-character outputs. No
injectivity is assumed of it, since none holds: the theorem says that two tables either agree or exhibit two
concrete strings that collide.

**Importing accounts** (`Import`, `Imported`, `Registry`). `Registry` has the tables with generated ids and the
upsert in place; `Import` has the same accounts by natural key. `Represents` ties the two. `Imported` says what a
staged and a committed file mean, account by account.

**Sequential algorithms** (`Flags`, `Argv`, `Findings`, `AlertCursor`, `Masks`, `Cidr`, `Enforcement`,
`UpdateOutput`): the imapsync flag filter and command line, the ranking of scan findings with the alert cursor, the
access zones from rendered file to mask test and to nginx's first-match reading, and the bounded output of a system
update. `Wrappers` and `Texts` are shared
helpers.

Assumptions: transactions are atomic, so the check-then-insert of the scheduler, of sync-now and of update
requests is one step (no unique constraint stands behind it in the database); there is one worker; clocks do
not go backwards; policy and interval stay fixed during a run; one clock value is read per claim pass; what a
query returns is a parameter, in an order that is only what the query fixes. Time is in microseconds.

## Where the code does less than it says

- `_finish_job` parks failed jobs as `retrying`, but nothing ever selects that status: such a row never changes
  again, and its mailbox is never enqueued again (`SettledForever`, `RetryingBlocks`). One failure is enough to get
  there (`ProvisionParked`, `SyncParked`).
- `attempts <= max_attempts` fails under crashes, without bound (`CrashLoopAttempts`). A row's attempts are exactly
  the reaper's requeues of it plus one once it is past the queue (`AttemptsExactly`), so at most one without a
  restart (`OnceWithoutRestart`).
- Deleting a mailbox deletes its run rows, and with them their part in the throttle's count: some run starts any
  number of syncs in one instant (`DeletionsDefeatTheLimit`). The limit on kept rows holds always
  (`RateLimitAlways`); that on all starts holds exactly when every start passes the count that includes deleted
  runs (`StartsLimitedExactly`), so it does when deletions drop only runs older than the window (`StartsLimited`).
- A mailbox whose VM2 row is gone can never be deleted again (`DanglingForever`). Exactly two steps bring it there:
  deleting, even with a rollback on VM1, a mailbox with the same VM2 id, and activating with an id deleted in the
  meantime (`DanglingExactly`). All three ways are reached (`DanglingByRollback`, `DanglingByShare`,
  `DanglingByRace`); two mailboxes with one destination address share a row (`SharedRow`).
- An update requested while the worker is down can run beside a second one (`OverlapHappens`); the step that does
  it is characterised exactly (`OverlapExactly`).
- A VM2 updater that dies before its first write lets VM1 believe the previous success (`EarlyDeathMisleads`);
  no other state file does (`MisledExactly`).
- VM1 is meant to skip VM2 when none is configured. It does so as well when the query for VM2's address fails
  (`QueryFailureSkipsVm2`), and in no third case (`SkipsExactly`).
- The panel can report a healthy run as interrupted while it is being started (`StartLooksInterrupted`), and only
  then (`FalseAlarmExactly`).
- The flag filter accepts a flag list that makes every command line be refused (`AcceptedYetRefused`); the builder
  succeeds exactly when no value looks like a forbidden flag (`BuildsExactly`).
- Thirty refused syncs ahead of a job starve it as long as they are refused (`Starvation`); up to twenty-nine delay
  it by a known number of passes (`BoundedWait`); the border is exact (`StarvedExactly`). Syncs whose closing failed
  keep the concurrency limit used up until a restart, so this is reached (`StarvedFromTheStart`).
- More than fifty new findings are counted and listed as fifty, and the cursor passes the rest (`AlertIsComplete`,
  `FiftyOfMany`).
- A mailbox deleted while it is being provisioned leaves its row on VM2 (`OrphanedByDeletion`), in exactly that case
  (`OrphanedExactly`) and until its address is imported again (`OrphanedUntil`).
- Two manual entries that create one domain with different servers do not commute (`UpsertsCommute`).

## Model

| member | source | states |
|---|---|---|
| Throttle.StaysAllowed | app/portal_app/services/throttle_service.py:18-33 | a permission stays valid while runs are only closed or dropped and the clock only grows, so it is still good when the handler opens its run later |
| Throttle.OpeningKeepsWindow | app/portal_app/services/throttle_service.py:18-19 | a start permitted by the look-back count keeps every closed interval of that length within the limit, also intervals beginning before or after the look-back |
| Throttle.OpeningStaysWithin | app/portal_app/services/throttle_service.py:22-33 | opening a permitted run keeps all four limits |
| Throttle.PermittedExactly | app/portal_app/services/throttle_service.py:22-33 | with the policy kept so far and no recorded start later than now, a start is permitted if and only if the table with its run still keeps the policy |
| Throttle.RefusalNamesTheFirst | app/portal_app/services/throttle_service.py:25-33 | and the reason given is the first limit, in the order concurrent, minute, hour, day, that this start would break |
| Claiming.CandidatesAreFirstFive | app/portal_app/workers/worker_main.py:27-34 | the query's answer is exactly the due queued rows with fewer than five due rows before them in (priority, id) order, in that order |
| Claiming.ClaimSpecification | app/portal_app/workers/worker_main.py:25-49 | the claimed row is the first of those five that is not a throttled sync; exactly the rows before it move 30 s on; the claimed row gains one attempt; every other row is unchanged |
| Claiming.ClaimedExactly | app/portal_app/workers/worker_main.py:25-49 | row by row, in terms of status, time, priority and id: claimed is the due row with at most four due rows before it, all of them refused syncs, that is not one itself; those before it are due again in 30 seconds; nothing else changes |
| Waiting.BoundedWait | app/portal_app/workers/worker_main.py:25-49 | over every run in which the passes fall within 30 s and find syncs refused, whatever else happens as long as nothing arrives ahead: a job behind n due syncs is claimed in pass floor(n/5)+1 at the latest, and in no earlier one unless a row ahead was deleted |
| Waiting.ArrivesExactly | app/portal_app/workers/worker_main.py:27-34 | ticks, manual syncs, imports, switches and deletions never put a row ahead of a waiting job; exactly an update request on a free host does, if the job is less urgent, and the reaper, if it requeues a row that precedes |
| Waiting.Starvation | app/portal_app/workers/worker_main.py:35-42 | over every run with passes at least the poll interval apart, as long as thirty refused syncs are queued ahead the job is never claimed |
| Waiting.StarvedExactly | app/portal_app/workers/worker_main.py:15-49 | with n due syncs ahead, refused in polls within half a minute, until the job is claimed or six polls were made: it is claimed if and only if n < 30 |
| Crowding.StarvedFromTheStart | app/portal_app/workers/worker_main.py:25-49 | under every policy whose concurrency limit is no larger than its other limits, for every n from thirty on and any number of polls: a run from the empty portal to a provision job behind n syncs, and that many polls after which it is still queued |
| Crowding.StuckRuns | app/portal_app/workers/handlers/sync_job_handler.py:62-125 | up to the concurrency limit, a run leaves any number of syncs in progress that no handler works on, their closing having failed |
| Transactions.TickSpecification | app/portal_app/workers/scheduler_main.py:19-51 | whatever order the rows come in, a tick enqueues exactly the enabled mailboxes that are due with nothing pending, each once, stamps exactly those, and changes nothing else |
| Recurring.TickExactly | app/portal_app/workers/scheduler_main.py:19-51 | a tick adds one sync, due at once, for exactly the enabled mailboxes that were never enqueued or not within the interval and whose sync rows have all ended in `done` or `failed`; a `queued`, `running` or `retrying` one prevents it |
| Recurring.SyncNowExactly | app/portal_app/routers/mailboxes.py:316-329 | so does the button, for exactly the existing mailboxes whose sync rows have all ended; otherwise it changes nothing |
| Recurring.SyncedAgain | app/portal_app/workers/scheduler_main.py:28-47 | in every reachable state: once an ordinary sync ends `done` or `failed`, the first tick an interval after the last enqueue enqueues the mailbox again; once it ends `retrying`, no tick does |
| Invariants.RateLimitedStep | app/portal_app/workers/handlers/sync_job_handler.py:62-64 | every step keeps the limits, including the gap between the claim's check and the run row's insert |
| Invariants.OneRunningStep | app/portal_app/workers/worker_main.py:43-48 | a `running` queue row is the one the worker holds, or one it left behind |
| Invariants.OnePendingStep | app/portal_app/workers/scheduler_main.py:30-47 | every step keeps at most one unfinished ordinary sync row per mailbox |
| Invariants.OneAssessStep | app/portal_app/workers/handlers/provision_handler.py:12-58 | every step keeps: an assess row exists for a mailbox at most once, and only once it is active |
| Invariants.MailAgreesStep | vm2_api/vm2_api/services/postfix_dovecot_admin.py:94-120 | every step keeps VM2's rows unique per address and every recorded id given out for that very address |
| Invariants.SpreadStep | app/portal_app/workers/scheduler_main.py:28-47 | every step keeps the scheduled enqueues of a mailbox an interval apart and remembered in its row |
| Guarantees.InvAlways | app/portal_app/workers/worker_main.py:130-148 | all invariants hold after every run of the protocol |
| Guarantees.RateLimitAlways | app/portal_app/services/throttle_service.py:22-33 | in every reachable state no closed interval of 60 s, 3600 s or 86400 s holds more run rows than configured, and no more than the concurrent limit are in progress |
| Starts.OneMoreFits | app/portal_app/services/throttle_service.py:18-19 | with the limit kept so far, one more start keeps it in every position of the window exactly when fewer than the limit, deleted runs included, started within the window before it |
| Starts.StartsLimitedExactly | app/portal_app/services/throttle_service.py:18-33 | over every run, for every width and limit: all starts ever made stay within it if and only if each of them passed the count that includes deleted runs |
| Starts.StartsLimited | app/portal_app/services/throttle_service.py:22-33 | over every run whose deletions drop only runs older than a window, that window's limit holds of all syncs ever started |
| Scenarios.DeletionsDefeatTheLimit | app/portal_app/routers/mailboxes.py:615-622 | under every policy that lets one sync start, and for every n, a run from the empty portal starts n syncs in one instant |
| Guarantees.PendingAlways | app/portal_app/routers/mailboxes.py:319-329 | in every reachable state a mailbox has at most one unfinished ordinary sync, at most one assess row, and at most one queue row at all is running |
| Guarantees.ProvisionedOnce | app/portal_app/workers/handlers/provision_handler.py:12-58 | however many provision jobs and crashes: VM2 has one row per address, exactly the active mailboxes have an id, and each has had exactly one assess job created |
| Guarantees.IdNeverChanges | app/portal_app/workers/handlers/provision_handler.py:15-34 | over every run `vm2_mailbox_id` keeps its value until the mailbox is deleted |
| Guarantees.SharedRow | vm2_api/vm2_api/services/postfix_dovecot_admin.py:104-111 | while VM2 still has both recorded rows, two provisioned mailboxes have the same one exactly when they have the same destination address |
| Guarantees.DanglingExactly | app/portal_app/routers/mailboxes.py:592-622 | over all steps from any state the protocol keeps: a mailbox loses its VM2 row exactly when a mailbox with the same id is deleted, itself included if VM1 rolls back, or when it is activated with an id deleted since |
| Guarantees.DeletionSpares | app/portal_app/routers/mailboxes.py:592-600 | in terms of addresses: deleting one of two provisioned mailboxes takes the row of the other exactly when they share the address |
| Scenarios.DanglingByRollback | app/portal_app/routers/mailboxes.py:592-622 | a run from the empty portal in which a rolled-back deletion leaves the mailbox itself without its row |
| Scenarios.DanglingByShare | app/portal_app/routers/mailboxes.py:592-622 | a run to two mailboxes sharing a row, and on to one of them deleted and the other without it |
| Scenarios.DanglingByRace | app/portal_app/workers/handlers/provision_handler.py:24-34 | a run in which the row is deleted between VM2's answer and the activation |
| Guarantees.DanglingForever | app/portal_app/routers/mailboxes.py:595-610 | a mailbox whose VM2 row is gone can never be deleted, over every run |
| Guarantees.OrphanedExactly | app/portal_app/routers/mailboxes.py:592-622 | over all steps from any state the protocol keeps: VM2 is left with a row no mailbox stands for exactly when the last mailbox with its address is deleted before its id was recorded |
| Guarantees.OrphanedUntil | vm2_api/vm2_api/services/postfix_dovecot_admin.py:104-111 | such a row stays, step by step, until a mailbox with that address is imported again |
| Scenarios.OrphanedByDeletion | app/portal_app/workers/handlers/provision_handler.py:24-34 | a run from the empty portal to such a row: the mailbox is deleted between VM2's commit and VM1's |
| Guarantees.SettledForever | app/portal_app/workers/worker_main.py:52-66 | `done`, `failed` and `retrying` rows stay exactly as they are over every run, and vanish only with their mailbox |
| Guarantees.RetryingBlocks | app/portal_app/workers/scheduler_main.py:30-40 | while a sync row of a mailbox is `retrying`, no run of the protocol creates another ordinary sync row for it |
| Scenarios.ProvisionParked | app/portal_app/workers/worker_main.py:57-63 | a run to a provision job parked after its first failure |
| Scenarios.SyncParked | app/portal_app/workers/worker_main.py:57-63 | under every policy that lets one sync start, a run to a sync row parked after its first failure, its mailbox still there |
| Guarantees.AttemptsAlways | app/portal_app/workers/worker_main.py:43-48 | `attempts` is the number of claims of that row, and a system update is claimed at most once |
| Guarantees.RestartRecovers | app/portal_app/workers/worker_main.py:69-109 | whatever happened between the worker's death and its restart: at most the row claimed last is still running; the reaper leaves nothing running in the three tables, requeues it due now with its attempts or fails an update, and changes no other queue row, no finished run or update, and no set of rows |
| Guarantees.CrashRecovery | app/portal_app/workers/worker_main.py:69-109 | directly after a crash anywhere, that row is the one the worker held |
| Guarantees.ScheduledApart | app/portal_app/workers/scheduler_main.py:28-47 | any two scheduled enqueues of one mailbox in any run are at least the interval apart |
| Outcomes.StatusTellsAttempts | app/portal_app/workers/worker_main.py:52-95 | in every reachable state a `failed` row has used up its attempts, a `retrying` row has some left, a system update is never `retrying`, and any row past `queued` has been claimed |
| Outcomes.AttemptsExactly | app/portal_app/workers/worker_main.py:43-95 | over every run: attempts are the reaper's requeues of the row, plus one once it is past the queue; so `attempts <= max_attempts` holds exactly while those requeues fit |
| Outcomes.OnceWithoutRestart | app/portal_app/workers/worker_main.py:25-49 | without a restart of the worker every row is claimed at most once |
| SystemUpdates.OneUpdatePerHost | app/portal_app/routers/settings_updates.py:114-131 | over runs without restarts and failed writes each host has at most one running update, and each running update exactly one queued or running job |
| SystemUpdates.OverlapExactly | app/portal_app/workers/handlers/system_update_handler.py:161-165 | the one step that puts two running updates on a host: opening a closed row while another update of that host runs; every other step keeps it exclusive |
| SystemUpdates.OverlapHappens | app/portal_app/workers/worker_main.py:86-105 | a run from the empty portal that ends in two running updates of one host |
| SystemUpdates.CrashLoopAttempts | app/portal_app/workers/worker_main.py:86-95 | a worker that keeps dying with a provision job raises its attempts without bound |
| SystemUpdates.CrashLoopReachable | app/portal_app/workers/worker_main.py:69-95 | such a state is reachable, with the default of five attempts |
| Portal.Session.CanStartSyncNow | app/portal_app/services/throttle_service.py:22-33 | the four counts in turn give the answer whose meaning `Throttle.RefusalNamesTheFirst` states |
| Portal.Session.ClaimNextJob | app/portal_app/workers/worker_main.py:25-49 | the loop over the fetched rows leaves exactly the state and result of the claim specification |
| Portal.Session.FinishJob | app/portal_app/workers/worker_main.py:52-66 | the row leaves the queue for every later claim: done exactly on success, failed exactly when the attempts are used up, else parked for one minute to one hour; no other row and no other column changes |
| Transactions.BackoffRange | app/portal_app/workers/worker_main.py:63 | the parking delay doubles with each attempt, from a minute up to an hour |
| Portal.Session.ReapRuns | app/portal_app/workers/worker_main.py:80-85 | exactly the running rows are failed and closed |
| Portal.Session.ReapJobs | app/portal_app/workers/worker_main.py:86-95 | exactly the running rows change: updates fail, the others are queued and due now |
| Portal.Session.ReapUpdates | app/portal_app/workers/worker_main.py:99-109 | exactly the running update rows fail |
| Portal.Session.ReapOrphans | app/portal_app/workers/worker_main.py:69-109 | the three loops together are the reaper's transaction |
| Portal.Session.RunOnce | app/portal_app/workers/scheduler_main.py:13-51 | with the configured interval or its default, the loop is the tick transaction, and it returns the number of mailboxes that were due with nothing pending |
| Portal.Session.EnqueueIfDue | app/portal_app/workers/scheduler_main.py:27-48 | one turn of the tick's loop, with its two ways to skip |
| Portal.Session.SyncNow | app/portal_app/routers/mailboxes.py:316-329 | afterwards an existing mailbox has an unfinished sync and pressing again changes nothing; a row is added only where none was pending, due at once; no row is lost or changed |
| Portal.Session.StartRun | app/portal_app/routers/settings_updates.py:114-131 | a host with a running row gets that row back, the newest; otherwise a row and its job of priority 10 and one attempt |
| Portal.Session.DeleteMailbox | app/portal_app/routers/mailboxes.py:615-622 | no sync job, run, schedule or mailbox row of it is left; every row of other mailboxes and every provision job is; nothing is added |
| Portal.Session.OpenRun | app/portal_app/workers/handlers/sync_job_handler.py:25-71 | exactly when mailbox, schedule and connection allow it, one fresh run of that mailbox joins the running ones; opened with permission it leaves every policy kept; otherwise nothing changes |
| Portal.Session.CloseRun | app/portal_app/workers/handlers/sync_job_handler.py:122-125 | the run, and only it, stops counting as running; no window count changes and no permission is taken back; raises exactly when the row is gone |
| Portal.Session.Activate | app/portal_app/workers/handlers/provision_handler.py:33-58 | the mailbox is active with that id and its address kept, exactly one assess row more exists, due at once, and nothing else changes; raises exactly when the mailbox is gone |
| Handlers.StartsExactly | app/portal_app/workers/handlers/sync_job_handler.py:25-71 | over all steps from any state the protocol keeps: a sync starts exactly when its mailbox is there and active, its schedule on and VM2 configured, and its run is recorded as in progress from then on |
| Handlers.EndsExactly | app/portal_app/workers/handlers/sync_job_handler.py:122-125 | it ends with its outcome and time in that run and in no other |
| Handlers.ProvisionsExactly | app/portal_app/workers/handlers/provision_handler.py:12-30 | VM2 is asked exactly for a mailbox that is there and not active, if configured, and answers with the one row that holds the address |
| Handlers.RaisesExactly | app/portal_app/workers/handlers/provision_handler.py:12-34 | the steps on which a handler raises, over all handlers; early returns are not among them, except a provisioning without VM2 |
| Handlers.UpdateEndsExactly | app/portal_app/workers/handlers/system_update_handler.py:161-165 | an update is recorded as successful exactly if it says so and does not raise |
| Handlers.DeletesExactly | app/portal_app/routers/mailboxes.py:592-622 | a deletion takes the mailbox exactly if it commits and VM2 never had it or is configured and still has it, and takes the VM2 row exactly in the latter case |
| Handlers.ImportsExactly | app/portal_app/services/import_service.py:189-207 | a new mailbox is inactive, without id, switched on, and has one provision job due at once |
| Handlers.SwitchesExactly | app/portal_app/routers/mailboxes.py:388-397 | the next tick considers exactly the mailboxes switched on, the others keep their switch, and no enqueue time is lost |
| Handlers.RequestsUpdateExactly | app/portal_app/routers/settings_updates.py:114-131 | an update is queued exactly for a host on which none is recorded as running, ahead of syncs and provisionings, with one attempt |
| Prediction.NextSync | app/portal_app/routers/dashboard.py:87-107 | with the same interval as the scheduler, the running minimum is the earliest time any enabled mailbox becomes due |
| Prediction.PredictionNeverLate | app/portal_app/routers/dashboard.py:87-107 | no tick enqueues before the prediction; a tick at or after it that enqueues nothing found every due mailbox pending |
| Prediction.PredictionExact | app/portal_app/workers/scheduler_main.py:19-48 | with nothing pending and no change in between, a tick at t enqueues something if and only if t is at or after the prediction |
| AppUpdate.WatchStep | scripts/app-update-helper.sh:78-98 | every step on either machine keeps: while VM1 waits, a stale file means the watched run has not written yet or died before writing |
| AppUpdate.Vm1DeploysAfterVm2 | scripts/app-update-helper.sh:113-163 | over every interleaving, VM1 deploys after polling only on a success written by a run live at or after its POST, unless the watched run died before its first write |
| AppUpdate.MisledExactly | scripts/app-update-helper.sh:139-157 | over every interleaving, a poll makes VM1 deploy on an older run exactly when the unit was found inactive, the file still holds that older success, and the watched run died before its first write |
| AppUpdate.SkipsExactly | scripts/app-update-helper.sh:119-125 | over every interleaving, VM1 deploys without having read a success if and only if no VM2 is configured or the query for its address failed |
| AppUpdate.QueryFailureSkipsVm2 | scripts/app-update-helper.sh:119-125 | whatever is configured and whatever state VM2 is in, a failed query is followed by the deployment of VM1 |
| AppUpdate.EarlyDeathMisleads | scripts/app-update-helper.sh:91-98 | a run killed before its first write makes VM1 deploy on the old success |
| AppUpdate.FileFirstMisleads | scripts/app-update-helper.sh:78-82 | reading the file before `active` would accept the old success of a run that then failed |
| AppUpdate.AwaitVm2 | scripts/app-update-helper.sh:137-157 | the polling loop stops at the first reply that says inactive and not running, or past 1800 seconds, within 181 polls, and goes on to VM1 exactly if that reply says success |
| AppUpdate.UpdatesBoth | scripts/app-update-helper.sh:113-163 | from any state in which VM2 is idle: a run in which VM2 updates itself and then VM1 is deployed on that very success, past a poll while VM2 is at work and a lost one; if VM2 fails, VM1 is left alone |
| AppUpdate.SuccessMeansDeployed | scripts/app-update-helper.sh:161-170 | over every interleaving, the operation ends as a success exactly when VM1's own deployment ran and succeeded |
| PanelStatus.InterruptedMeansDead | app/portal_app/services/app_update.py:54-71 | over every run, a panel whose two reads overlap no start reports an interruption exactly when the unit was found inactive and no update is alive or about to be |
| PanelStatus.FalseAlarmExactly | app/portal_app/services/app_update.py:62-67 | over every run, the report of an interruption is false exactly when `active` was read before the launch and the state after `running` was written, for an update alive or ready to be launched |
| PanelStatus.StartLooksInterrupted | scripts/app-update-helper.sh:65-74 | read between the first write of `running` and the launch, a run that then starts is reported as interrupted |
| PanelStatus.ShownExactly | app/portal_app/services/app_update.py:54-82 | what each report means: success, progress, nothing, unavailable and interruption each exactly for one content of the file, the unit seen alive or not, and an error or none |
| AuditChain.VerifyChain | app/portal_app/services/audit_service.py:63-81 | true exactly when every row links and hashes correctly; otherwise the id of exactly the first row that does not |
| AuditChain.AuditTable.Record | vm2_api/vm2_api/audit.py:18-65 | one row is appended, linked to the last one, and a verifying table keeps verifying |
| AuditChain.WritersKeepChain | app/portal_app/services/audit_service.py:25-60 | every interleaving of lock-serialised writers with commits and rollbacks leaves a table that verifies |
| AuditChain.TransactionEnds | app/portal_app/services/audit_service.py:25-60 | what a transaction records is in the table once it commits, whole, in order and numbered on, and nothing of it after a rollback; either way the lock is free |
| AuditChain.LockHeld | app/portal_app/services/audit_service.py:29-31 | while one transaction holds the lock another can record nothing, and its end changes nothing |
| AuditChain.UnserialisedWriters | app/portal_app/services/audit_service.py:29-31 | two writers that read the same last row leave a verifying table exactly when the first one's hash equals the link it was computed from, and never on an empty table |
| AuditChain.UniqueDecoding | app/portal_app/services/audit_service.py:44-45 | previous hash and canonical text can be recovered from the hashed string |
| AuditChain.SameHashSameHistory | vm2_api/vm2_api/audit.py:68-93 | equal hashes in two verifying tables mean equal positions and equal rows up to there, or a collision on the tables' own strings |
| AuditChain.OnlyTheTailCanGo | app/portal_app/services/audit_service.py:63-81 | two verifying tables ending in the same hash are the same table, ids aside, or exhibit a collision |
| AuditChain.PrefixVerifies | app/portal_app/services/audit_service.py:63-81 | cutting the tail goes unseen |
| Import.StageBatch | app/portal_app/services/import_service.py:43-86 | exactly the first row of each folded key is left unmarked, valid or not, and classified against the database; the others are duplicates |
| Import.UpsertsCommute | app/portal_app/services/import_service.py:154-207 | upserts of two accounts commute exactly when they agree on a domain both would create |
| Import.CommitOrderIrrelevant | app/portal_app/services/import_service.py:104-125 | compatible upserts give the same accounts and counts in every order |
| Import.StagedEntriesCompatible | app/portal_app/services/import_service.py:57-61 | what staging lets through never meets on an account |
| Import.RowOrderIrrelevant | app/portal_app/services/import_service.py:96-130 | committing a staged file gives the same accounts and counts in whatever order the database returns its rows |
| Imported.StagedExactly | app/portal_app/services/import_service.py:43-86 | duplicates are exactly the rows with an earlier one of the same domain and, but for case, username; the others are new, unchanged or updated as the database knows the account not at all, with that password, or with another; valid are exactly those with domain, username and password |
| Imported.UpsertExactly | app/portal_app/services/import_service.py:150-208 | the account has the password afterwards; of domain, destination and mailbox what was there is kept and what was not is made from the arguments and their defaults; one provision job more; no other account is touched |
| Imported.CommittedExactly | app/portal_app/services/import_service.py:96-130 | after the commit of a staged file that holds for every account with a chosen row, with that row's values, port 993 and the domain as its own server; every other account is untouched |
| Imported.CountsExactly | app/portal_app/services/import_service.py:103-130 | `created` counts the chosen rows whose account had no credentials or no mailbox before the commit, `updated` the others |
| Registry.RepresentedIsUnique | app/portal_app/services/import_service.py:154-204 | one row per domain, one credential per (domain, exact username), one mailbox per credential, exactly one SyncJob per mailbox |
| Registry.UpsertRefines | app/portal_app/services/import_service.py:150-208 | whatever ids are generated, an upsert on rows is the upsert on accounts, keeps the rows unique, and says `created` exactly for a new credential or mailbox |
| Registry.CommitRefines | app/portal_app/services/import_service.py:103-130 | the same for a whole batch, with its counts |
| Registry.CommitsAgree | app/portal_app/services/import_service.py:96-130 | two commits of one staged file, in any two row orders and with any ids, end in the same accounts and counts |
| Registry.Session.EnsureDomain | app/portal_app/services/import_service.py:154-165 | finds the domain's row or inserts it |
| Registry.Session.EnsureCredential | app/portal_app/services/import_service.py:167-187 | inserts the credential or sets only its password |
| Registry.Session.EnsureBox | app/portal_app/services/import_service.py:189-207 | inserts mailbox and SyncJob if missing, and queues a provision job in either case |
| Registry.Session.UpsertMailbox | app/portal_app/services/import_service.py:133-208 | the tables after it, given what its three queries find |
| Registry.Session.CommitBatch | app/portal_app/services/import_service.py:96-130 | a batch is committed once; created + updated + skipped is the number of rows; the tables are those after the upserts of the rows not skipped |
| Flags.AllowedIsHarmless | app/portal_app/services/imapsync_flags.py:20-55 | no allowlisted flag is caught by the pattern tried before the allowlist |
| Flags.ValidateTokens | app/portal_app/services/imapsync_flags.py:73-104 | the loop's result, value or error, is the parse of the list |
| Flags.AcceptsExactly | app/portal_app/services/imapsync_flags.py:73-104 | accepted are exactly the lists that split into allowlisted items, and the items come back in order |
| Flags.Idempotent | app/portal_app/services/imapsync_flags.py:73-104 | the output is accepted as it is |
| Flags.Concatenation | app/portal_app/services/imapsync_flags.py:73-104 | an accepted list contributes the same flags whatever follows, and what follows is judged by itself |
| Flags.RejectionStands | app/portal_app/services/imapsync_flags.py:77-102 | nothing that follows repairs a rejection, except the value a last flag lacks |
| Flags.RejectsExactly | app/portal_app/services/imapsync_flags.py:73-104 | a list is rejected with an error exactly if it is some allowlisted items and then a token at fault for it: no flag, dangerous in whatever case, not allowlisted, lacking its value, or given one it does not take |
| Flags.BuildStructured | app/portal_app/services/imapsync_flags.py:110-128 | the conditional appends write exactly the items of the chosen options, in order |
| Flags.BuildGlobalFlags | app/portal_app/services/imapsync_flags.py:107-130 | the structured options as items, then the accepted free text |
| Flags.JoinedFlagsAccepted | app/portal_app/workers/handlers/sync_job_handler.py:86-87 | global options, their free text and the mailbox's free text joined are accepted as they are |
| Argv.ForbiddenIsCaught | app/portal_app/services/imapsync_runner.py:24-27 | the pattern with its word characters and word boundary matches exactly the strings a one-look test catches |
| Argv.BuildArgv | app/portal_app/services/imapsync_runner.py:38-102 | refuses exactly the command lines with a forbidden element; otherwise program, own flags in order, and the extra flags as exact suffix |
| Argv.ReadsAsAsked | app/portal_app/services/imapsync_runner.py:54-96 | read by arity, the command line is the request's own flags and values and then the accepted items, whatever the values look like |
| Argv.EndpointsAsAsked | app/portal_app/services/imapsync_runner.py:54-66 | read by arity, host 1 is the source and host 2 the destination: address, port, user and password file of each, once |
| Argv.SwitchesAsAsked | app/portal_app/services/imapsync_runner.py:75-88 | folder mapping, dry run and deletion are said exactly when asked for |
| Argv.AgeAsAsked | app/portal_app/services/imapsync_runner.py:76-81 | the age limit of the request is said exactly if it is positive, before any in the accepted flags |
| Argv.OptionsAsAsked | app/portal_app/services/imapsync_flags.py:107-130 | what a sync passes on, read by arity: for every flag, first what the global options ask for, with its value, and then the free text |
| Argv.DeletesOnlyIfEnabled | app/portal_app/services/imapsync_runner.py:82-86 | `--delete2` stands in flag position exactly when deletion on the destination was enabled |
| Argv.CaughtIsDangerous | app/portal_app/services/imapsync_flags.py:49-55 | whatever the final scan forbids, the filter calls dangerous |
| Argv.BuildsExactly | app/portal_app/services/imapsync_runner.py:98-102 | with accepted extra flags the builder succeeds exactly when no value looks like a forbidden flag |
| Argv.AcceptedYetRefused | app/portal_app/services/imapsync_runner.py:98-100 | `--exclude --exec` is accepted by the filter and refused by the builder |
| Findings.ReadAll | vm2_api/vm2_api/services/scan_findings.py:42-60 | raises exactly if some line is JSON of the wrong shape; otherwise the findings of the file |
| Findings.RowsAreTheEntries | vm2_api/vm2_api/services/scan_findings.py:47-59 | exactly the findings of the file, each once, in file order, with its line number and canonical severity |
| Findings.SeverityOfEntry | vm2_api/vm2_api/services/scan_findings.py:26-39 | rspamd finds spam exactly for "reject" in whatever case and bulk otherwise; any other engine finds malware, or a suspicion exactly by the signature's beginning or end |
| Findings.TopIsBest | vm2_api/vm2_api/services/scan_findings.py:81-85 | sorting and cutting lists malware before suspicious before spam before bulk, the newer first among equals, and leaves out only what comes after everything listed; the length is the slice's, for negative limits too |
| Findings.SelectionUnique | vm2_api/vm2_api/services/scan_findings.py:78-85 | those conditions determine the selection |
| Findings.GetFindings | vm2_api/vm2_api/services/scan_findings.py:67-105 | the counting loops agree with the counts by engine and by severity, the four severities sum to the total, and both lists are the best of what they are taken from, worst first |
| Findings.ReportListsAreSelections | vm2_api/vm2_api/services/scan_findings.py:84-85 | `recent` lists the best of all findings in that order, `new` the best of those after the cursor |
| Findings.CountsAreSizes | vm2_api/vm2_api/services/scan_findings.py:67-75 | the counts are the numbers of findings with that severity and with that engine |
| AlertCursor.Step | app/portal_app/workers/environment_check_main.py:77-104 | every append, torn write, completion, failed or committed check keeps the windows consecutive and their findings fixed |
| AlertCursor.ExactlyOnce | app/portal_app/workers/environment_check_main.py:77-104 | over every run, a finding at or below the cursor was new in exactly one committed check, one above it in none |
| AlertCursor.NextCheckCovers | app/portal_app/workers/environment_check_main.py:102-104 | a completed line not yet covered, a torn one completed later too, is new in the next committed check |
| AlertCursor.AlertIsComplete | app/portal_app/workers/environment_check_main.py:83-100 | the alert counts every new finding exactly when there are at most fifty, and lists the best twenty |
| AlertCursor.FiftyOfMany | app/portal_app/workers/environment_check_main.py:83-104 | for every n above fifty, a run of n findings and one check: the alert counts fifty, lists twenty, and the cursor passes all n |
| AlertCursor.Monitor.CheckScanFindings | app/portal_app/workers/environment_check_main.py:77-104 | cursor and alert after one check, also without an answer and without an instance row |
| Masks.MaskIsInterval | templates/roundcube/plugins/portal_sso/portal_sso.php:180-185 | for every prefix length from 1 to 32 the mask test is membership in the block of that base, as section 3.1 of RFC 4632 defines it |
| Masks.MaskTestIsInterval | templates/roundcube/plugins/portal_sso/portal_sso.php:180-185 | the same for subnets whose host bits are not clear |
| Cidr.MatchesBlock | templates/roundcube/plugins/portal_sso/portal_sso.php:169-186 | on the text of a stored network the plugin's test is membership in its block; IPv6 entries never match |
| Cidr.OddEntries | templates/roundcube/plugins/portal_sso/portal_sso.php:169-186 | an entry without a prefix length stands for the block of length 32, a length not positive matches everything, and one above 32 raises |
| Cidr.CaptureIsThePattern | templates/roundcube/plugins/portal_sso/portal_sso.php:153-155 | what is captured from a line is what the pattern matches, and the pattern is unambiguous |
| Cidr.RenderInclude | app/portal_app/services/network_access.py:40-48 | the loop's text is the rendered file, whose two readings are `Enforcement.EnforcedAsStored` and `Cidr.ReadsBackWhatIsRendered` |
| Enforcement.EnforcedAsStored | app/portal_app/services/network_access.py:40-48 | read as nginx enforces it, the first line that applies deciding, the rendered file admits an IPv4 client if and only if the list is empty or its address lies in the block of some IPv4 entry |
| Cidr.ReadsBackWhatIsRendered | app/portal_app/services/network_access.py:40-48 | reading the rendered file back returns exactly the list it was rendered from |
| Cidr.ReadEntries | templates/roundcube/plugins/portal_sso/portal_sso.php:151-156 | the loop over the file's lines collects every captured entry in order |
| Cidr.MatchAny | templates/roundcube/plugins/portal_sso/portal_sso.php:161-166 | the loop stops at the first entry that matches or raises |
| Cidr.IpAllowed | templates/roundcube/plugins/portal_sso/portal_sso.php:145-167 | no file or no entry allows everyone; otherwise some entry must match |
| Cidr.ZoneAgrees | templates/roundcube/plugins/portal_sso/portal_sso.php:145-186 | from the rendered file an IPv4 client is let in exactly when the list is empty or its address lies in the block of some IPv4 entry |
| UpdateOutput.UpdateRow.Update | app/portal_app/workers/handlers/system_update_handler.py:39-48 | the bound is kept, and the result is the end of the old text and the piece, cut only at 200000 characters |
| UpdateOutput.KeepsTheEnd | app/portal_app/workers/handlers/system_update_handler.py:39-48 | over any number of pieces, what is kept is the end of everything reported |

## Left out

- Concurrent check-then-insert: two transactions that both find nothing pending are not modelled, because the transactions are taken as atomic.
- More than one worker process: the worker is single by design, and the limits depend on it.
- Changes of policy and interval during a run, and runs of the reaper while the worker is alive.
- Unknown job types: no producer writes one.
- Changes of `destination_domain`, destination usernames and source passwords of existing accounts after provisioning, and domain aliases: an address is fixed once the mailbox exists.
- The credential row of a deleted mailbox, and deletion of mailboxes in `Registry`: deletion is modelled in `Protocol` and `Portal`.
- Secrets: encryption of stored passwords (not deterministic, so equal passwords are compared in clear as the code does), passfiles, mTLS, SSO tokens.
- The endless poll loop of the worker itself: `Protocol` allows every sequence of its iterations instead.
- `imapsync`, `dnf`, Dovecot, Postfix, nginx: only success or failure of what they do.
- The phases, health flags and reboot tokens of a system update, and the reaper's unbounded append to an interrupted update's output.
- AppUpdate: updates started on VM2's own console, which write the same state file outside the unit.
- The steps inside `update.sh` before its last write: any number of `running` writes, then `success` or `failed`, or death at any point.
- `parse_cidrs` beyond its library call: tokens that parse go to one list, the others to the other.
- Library parsing: `shlex.split`, `json.dumps`, `ipaddress`, `ip2long`, the decimal printing of numbers; the models start from tokens, canonical strings and numeric addresses, with the round trips they need stated as `Faithful` and `Valid`.
- Case folding outside ASCII: the flag filter's pattern also folds two letters outside ASCII onto `s` and `k`; such flags are rejected in either case, with a different message.
- GetFindings: an engine that is JSON's `NaN`, of which every occurrence is a key of its own.
- Findings whose last line lacks only its newline when another scanner appends to it, and rotation of the findings file.
- Registry: the row's link to its resulting credential, and the `pending` and `pending_provision` status texts.
- Sizes, statistics and drift figures of a sync run.
- Export, templates, dashboards other than the next synchronisation, settings forms, installation scripts.
