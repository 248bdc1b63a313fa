/** The database transactions of the portal as functions on the tables, apart from the claim pass. */
module Transactions {
  import opened Wrappers
  import opened Tables

  // --- Queue writers ---------------------------------------------------------------

  function AddJob(db: Db, job: Job): Db {
    db.(jobs := db.jobs[db.nextJob := job], nextJob := db.nextJob + 1)
  }

  function SyncNowTx(db: Db, mailbox: nat, now: int): Db {
    if mailbox !in db.boxes || HasPendingSync(db.jobs, mailbox) then db
    else AddJob(db, QueuedSync(mailbox, Manual, now))
  }

  const DEFAULT_INTERVAL_MINUTES := 60

  /** The configured minutes when positive, else the default. */
  function Interval(configured: Option<int>): (interval: int)
    ensures interval > 0
    ensures configured.None? || configured.value <= 0 ==> interval == 3600 * SECOND
    ensures configured.Some? && configured.value > 0 ==> interval == configured.value * 60 * SECOND
  {
    (if configured.Some? && configured.value > 0 then configured.value else DEFAULT_INTERVAL_MINUTES) * MINUTE
  }

  /** `last` plus the interval has passed, or the mailbox was never enqueued. */
  predicate IsDue(s: SyncJob, interval: int, now: int) {
    s.lastEnqueuedAt.None? || now - s.lastEnqueuedAt.value >= interval
  }

  predicate WillEnqueue(db: Db, interval: int, now: int, mailbox: nat) {
    mailbox in db.schedule && IsDue(db.schedule[mailbox], interval, now) && !HasPendingSync(db.jobs, mailbox)
  }

  /** One turn of the scheduler's loop. */
  function TickOne(db: Db, interval: int, now: int, mailbox: nat): Db {
    if WillEnqueue(db, interval, now, mailbox) then
      AddJob(db, QueuedSync(mailbox, Scheduled, now))
        .(schedule := db.schedule[mailbox := db.schedule[mailbox].(lastEnqueuedAt := Some(now))])
    else db
  }

  /** The loop over `rows`, with the mailboxes it enqueued, in order. */
  function TickTx(db: Db, interval: int, now: int, rows: seq<nat>): (Db, seq<nat>)
    decreases |rows|
  {
    if rows == [] then (db, [])
    else
      var rest := TickTx(TickOne(db, interval, now, rows[0]), interval, now, rows[1..]);
      (rest.0, (if WillEnqueue(db, interval, now, rows[0]) then [rows[0]] else []) + rest.1)
  }

  /** `_start_run`: refuses while the host has a running row. */
  predicate HostBusy(updates: map<nat, UpdateRun>, host: Host) {
    exists r :: r in updates && updates[r].host == host && updates[r].status == InProgress
  }

  function StartUpdateTx(db: Db, host: Host, now: int): Db {
    if HostBusy(db.updates, host) then db
    else
      AddJob(db.(updates := db.updates[db.nextUpdate := UpdateRun(host, InProgress)], nextUpdate := db.nextUpdate + 1),
             NewJob(SystemUpdate(db.nextUpdate, host), 10, now, 1))
  }

  /** `upsert_mailbox` when it creates the mailbox. */
  function AddMailboxTx(db: Db, domain: string, local: string, now: int): Db {
    AddJob(db.(boxes := db.boxes[db.nextBox := Mailbox(domain, local, false, None)],
               schedule := db.schedule[db.nextBox := SyncJob(true, None)],
               nextBox := db.nextBox + 1),
           NewJob(Provision(db.nextBox), 100, now, 5))
  }

  /** `upsert_mailbox` when the mailbox exists: another provision job. */
  function ReimportTx(db: Db, mailbox: nat, now: int): Db {
    AddJob(db, NewJob(Provision(mailbox), 100, now, 5))
  }

  function SetEnabledTx(db: Db, mailboxes: set<nat>, on: bool): Db {
    db.(schedule := map m | m in db.schedule ::
                      if m in mailboxes then db.schedule[m].(enabled := on) else db.schedule[m])
  }

  /** The local half of `delete_mailbox`; runs and the sync row go by cascade. */
  function DeleteMailboxTx(db: Db, mailbox: nat): Db {
    db.(jobs := map i | i in db.jobs && !SyncOf(db.jobs[i].work, mailbox) :: db.jobs[i],
        runs := map r | r in db.runs && db.runs[r].mailbox != mailbox :: db.runs[r],
        boxes := db.boxes - {mailbox},
        schedule := db.schedule - {mailbox})
  }

  // --- Worker ------------------------------------------------------------------------

  function Pow2(n: nat): nat {
    if n == 0 then 1 else 2 * Pow2(n - 1)
  }

  function Backoff(attempts: nat): int {
    (if 60 * Pow2(attempts) < 3600 then 60 * Pow2(attempts) else 3600) * SECOND
  }

  /** A parked row's delay doubles with each attempt, from one minute up to an hour. */
  lemma {:induction false} BackoffRange(attempts: nat)
    ensures MINUTE <= Backoff(attempts) <= HOUR && Backoff(0) == 60 * SECOND
    ensures Backoff(attempts + 1) == if 2 * Backoff(attempts) < HOUR then 2 * Backoff(attempts) else HOUR
  {
    Pow2Positive(attempts);
  }

  lemma {:induction false} Pow2Positive(n: nat)
    ensures Pow2(n) >= 1
    decreases n
  {
    if n > 0 {
      Pow2Positive(n - 1);
    }
  }

  function FinishedRow(j: Job, success: bool, now: int): Job {
    if success then j.(status := Done)
    else if j.attempts >= j.maxAttempts then j.(status := Failed)
    else j.(status := Retrying, runAfter := now + Backoff(j.attempts))
  }

  function FinishTx(db: Db, job: nat, success: bool, now: int): Db {
    if job !in db.jobs then db
    else db.(jobs := db.jobs[job := FinishedRow(db.jobs[job], success, now)])
  }

  function ReapedRun(r: JobRun, now: int): JobRun {
    if r.status == InProgress then r.(status := Failure, finishedAt := Some(now)) else r
  }

  function ReapedJob(j: Job, now: int): Job {
    if j.status != Running then j
    else if j.work.SystemUpdate? then j.(status := Failed)
    else j.(status := Queued, lockedAt := None, runAfter := now)
  }

  function ReapedUpdate(u: UpdateRun): UpdateRun {
    if u.status == InProgress then u.(status := Failure) else u
  }

  function ReapTx(db: Db, now: int): Db {
    db.(runs := map r | r in db.runs :: ReapedRun(db.runs[r], now),
        jobs := map i | i in db.jobs :: ReapedJob(db.jobs[i], now),
        updates := map u | u in db.updates :: ReapedUpdate(db.updates[u]))
  }

  /** The handler's first transaction goes past its early returns. */
  predicate SyncProceeds(db: Db, mailbox: nat, vm2Configured: bool) {
    && mailbox in db.boxes && db.boxes[mailbox].active
    && mailbox in db.schedule && db.schedule[mailbox].enabled
    && vm2Configured
  }

  function OpenRunTx(db: Db, mailbox: nat, now: int): Db {
    db.(runs := db.runs[db.nextRun := JobRun(mailbox, InProgress, now, None)], nextRun := db.nextRun + 1)
  }

  function CloseRunTx(db: Db, run: nat, ok: bool, now: int): Db {
    if run !in db.runs then db
    else db.(runs := db.runs[run := db.runs[run].(status := if ok then Success else Failure, finishedAt := Some(now))])
  }

  /** The provision handler's commit on VM1: activation and the assess job, together. */
  function ActivateTx(db: Db, mailbox: nat, vm2Id: nat, now: int): Db {
    if mailbox !in db.boxes then db
    else
      AddJob(db.(boxes := db.boxes[mailbox := db.boxes[mailbox].(active := true, vm2Id := Some(vm2Id))]),
             QueuedSync(mailbox, Assess, now))
  }

  function SetUpdateTx(db: Db, run: nat, status: Outcome): Db {
    if run !in db.updates then db
    else db.(updates := db.updates[run := db.updates[run].(status := status)])
  }

  // --- Facts about the scheduler's loop ----------------------------------------------

  predicate Distinct(rows: seq<nat>) {
    forall a, b :: 0 <= a < b < |rows| ==> rows[a] != rows[b]
  }

  /** `rows` lists the enabled sync rows, each once, in whatever order the database returned them. */
  ghost predicate ListsEnabled(db: Db, rows: seq<nat>) {
    && Distinct(rows)
    && forall m :: m in rows <==> m in db.schedule && db.schedule[m].enabled
  }

  ghost predicate Fresh(db: Db) {
    forall i :: i in db.jobs ==> i < db.nextJob
  }

  /** What a tick does, whatever the order: one new job for each listed mailbox that is due with nothing
      pending, in the state the tick started from; every other row of every table is left alone. */
  ghost predicate TickMeets(db: Db, interval: int, now: int, rows: seq<nat>, db': Db, added: seq<nat>) {
    && TickAdds(db, interval, now, rows, added)
    && TickInserts(db, now, db', added)
    && TickSchedules(db, now, db', added)
    && db' == db.(jobs := db'.jobs, nextJob := db'.nextJob, schedule := db'.schedule)
  }

  ghost predicate TickAdds(db: Db, interval: int, now: int, rows: seq<nat>, added: seq<nat>) {
    && Distinct(added)
    && forall m :: m in added <==> m in rows && WillEnqueue(db, interval, now, m)
  }

  ghost predicate TickInserts(db: Db, now: int, db': Db, added: seq<nat>) {
    && db'.nextJob == db.nextJob + |added|
    && (forall i :: i in db'.jobs <==> i in db.jobs || db.nextJob <= i < db'.nextJob)
    && (forall i :: i in db.jobs ==> db'.jobs[i] == db.jobs[i])
    && (forall i :: db.nextJob <= i < db'.nextJob ==> db'.jobs[i] == QueuedSync(added[i - db.nextJob], Scheduled, now))
  }

  ghost predicate TickSchedules(db: Db, now: int, db': Db, added: seq<nat>) {
    && db'.schedule.Keys == db.schedule.Keys
    && forall m :: m in db.schedule ==> db'.schedule[m] == TickedRow(db, added, now, m)
  }

  function TickedRow(db: Db, added: seq<nat>, now: int, m: nat): SyncJob
    requires m in db.schedule
  {
    if m in added then db.schedule[m].(lastEnqueuedAt := Some(now)) else db.schedule[m]
  }

  lemma OtherMailboxesUnaffected(db: Db, interval: int, now: int, first: nat, m: nat)
    requires Fresh(db) && m != first
    ensures WillEnqueue(TickOne(db, interval, now, first), interval, now, m) == WillEnqueue(db, interval, now, m)
  {
    var db1 := TickOne(db, interval, now, first);
    if HasPendingSync(db.jobs, m) {
      var i :| i in db.jobs && PendingSync(db.jobs[i], m);
      assert i in db1.jobs && PendingSync(db1.jobs[i], m);
    }
    if HasPendingSync(db1.jobs, m) {
      var i :| i in db1.jobs && PendingSync(db1.jobs[i], m);
      assert i in db.jobs && PendingSync(db.jobs[i], m);
    }
  }

  lemma TailUnaffected(db: Db, interval: int, now: int, rows: seq<nat>)
    requires Fresh(db) && Distinct(rows) && rows != []
    ensures forall m :: m in rows[1..] ==>
      WillEnqueue(TickOne(db, interval, now, rows[0]), interval, now, m) == WillEnqueue(db, interval, now, m)
  {
    forall m | m in rows[1..]
      ensures WillEnqueue(TickOne(db, interval, now, rows[0]), interval, now, m) == WillEnqueue(db, interval, now, m)
    {
      OtherMailboxesUnaffected(db, interval, now, rows[0], m);
    }
  }

  lemma {:induction false} TickSpecification(db: Db, interval: int, now: int, rows: seq<nat>)
    requires Fresh(db) && Distinct(rows)
    ensures TickMeets(db, interval, now, rows, TickTx(db, interval, now, rows).0, TickTx(db, interval, now, rows).1)
    decreases |rows|
  {
    if rows != [] {
      var first, tail := rows[0], rows[1..];
      var db1 := TickOne(db, interval, now, first);
      TailUnaffected(db, interval, now, rows);
      TickSpecification(db1, interval, now, tail);
      var rest := TickTx(db1, interval, now, tail);
      TickAddsCons(db, db1, interval, now, rows, rest.1, TickTx(db, interval, now, rows).1);
      if WillEnqueue(db, interval, now, first) {
        TickMeetsByParts(db, db1, interval, now, rows, rest.0, rest.1);
      }
    }
  }

  lemma TickMeetsByParts(db: Db, db1: Db, interval: int, now: int, rows: seq<nat>, db': Db, rest: seq<nat>)
    requires Fresh(db) && rows != [] && rows[0] in db.schedule && TickAdds(db, interval, now, rows, [rows[0]] + rest)
    requires db1 == AddJob(db, QueuedSync(rows[0], Scheduled, now))
                      .(schedule := db.schedule[rows[0] := db.schedule[rows[0]].(lastEnqueuedAt := Some(now))])
    requires TickInserts(db1, now, db', rest) && TickSchedules(db1, now, db', rest)
    requires db' == db1.(jobs := db'.jobs, nextJob := db'.nextJob, schedule := db'.schedule)
    ensures TickMeets(db, interval, now, rows, db', [rows[0]] + rest)
  {
  }

  lemma TickAddsCons(db: Db, db1: Db, interval: int, now: int, rows: seq<nat>, rest: seq<nat>, added: seq<nat>)
    requires Distinct(rows) && rows != [] && TickAdds(db1, interval, now, rows[1..], rest)
    requires forall m :: m in rows[1..] ==> WillEnqueue(db1, interval, now, m) == WillEnqueue(db, interval, now, m)
    requires added == (if WillEnqueue(db, interval, now, rows[0]) then [rows[0]] else []) + rest
    ensures TickAdds(db, interval, now, rows, added)
  {
  }

  /** A tick touches queue rows and schedule stamps only. */
  lemma {:induction false} TickFrame(db: Db, interval: int, now: int, rows: seq<nat>)
    ensures var after := TickTx(db, interval, now, rows).0;
      && after == db.(jobs := after.jobs, nextJob := after.nextJob, schedule := after.schedule)
      && after.schedule.Keys == db.schedule.Keys
    decreases |rows|
  {
    if rows != [] {
      TickFrame(TickOne(db, interval, now, rows[0]), interval, now, rows[1..]);
    }
  }
}
