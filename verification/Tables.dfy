/** The portal's database (VM1): one row type per table, tables keyed by primary key. */
module Tables {
  import opened Wrappers

  /** Time is an integer number of microseconds, the resolution of the stored timestamps. */
  const SECOND := 1_000_000
  const MINUTE := 60 * SECOND
  const HOUR := 3600 * SECOND
  const DAY := 86400 * SECOND

  datatype Status = Queued | Running | Done | Failed | Retrying

  datatype Trigger = Manual | Scheduled | Assess

  datatype Host = Vm1 | Vm2 | Webmail

  /** `job_type` together with the payload that type carries. */
  datatype Work =
    | Sync(mailbox: nat, trigger: Trigger)
    | Provision(mailbox: nat)
    | SystemUpdate(run: nat, host: Host)

  datatype Job = Job(work: Work, status: Status, priority: int, runAfter: int,
                     lockedAt: Option<int>, attempts: nat, maxAttempts: int)

  datatype Outcome = InProgress | Success | Failure

  datatype JobRun = JobRun(mailbox: nat, status: Outcome, startedAt: int, finishedAt: Option<int>)

  /** A mailbox with its destination address (domain, local part) on VM2. */
  datatype Mailbox = Mailbox(domain: string, local: string, active: bool, vm2Id: Option<nat>)

  datatype SyncJob = SyncJob(enabled: bool, lastEnqueuedAt: Option<int>)

  datatype UpdateRun = UpdateRun(host: Host, status: Outcome)

  type Jobs = map<nat, Job>
  type Runs = map<nat, JobRun>

  datatype Db = Db(jobs: Jobs, nextJob: nat,
                   runs: Runs, nextRun: nat,
                   boxes: map<nat, Mailbox>, nextBox: nat,
                   schedule: map<nat, SyncJob>,
                   updates: map<nat, UpdateRun>, nextUpdate: nat)

  const EMPTY_DB := Db(map[], 0, map[], 0, map[], 0, map[], map[], 0)

  predicate Pending(s: Status) {
    s == Queued || s == Running || s == Retrying
  }

  predicate SyncOf(w: Work, mailbox: nat) {
    w.Sync? && w.mailbox == mailbox
  }

  predicate AssessOf(w: Work, mailbox: nat) {
    SyncOf(w, mailbox) && w.trigger == Assess
  }

  function AssessRows(jobs: Jobs, mailbox: nat): set<nat> {
    set i | i in jobs && AssessOf(jobs[i].work, mailbox)
  }

  function RunningRows(updates: map<nat, UpdateRun>, host: Host): set<nat> {
    set u | u in updates && updates[u].host == host && updates[u].status == InProgress
  }

  /** The `already_pending` query: some unfinished sync row carries this mailbox. */
  predicate HasPendingSync(jobs: Jobs, mailbox: nat) {
    exists i :: i in jobs && PendingSync(jobs[i], mailbox)
  }

  predicate PendingSync(j: Job, mailbox: nat) {
    SyncOf(j.work, mailbox) && Pending(j.status)
  }

  function NewJob(work: Work, priority: int, runAfter: int, maxAttempts: int): Job {
    Job(work, Queued, priority, runAfter, None, 0, maxAttempts)
  }

  function QueuedSync(mailbox: nat, trigger: Trigger, now: int): Job {
    NewJob(Sync(mailbox, trigger), 100, now, 5)
  }

  lemma CardinalityMonotone<T>(a: set<T>, b: set<T>)
    requires a <= b
    ensures |a| <= |b|
  {
    assert b == a + (b - a);
  }
}
