/** When a mailbox is enqueued, said in terms of the rows themselves, and that a finished sync is followed by the
    next one. */
module Recurring {
  import opened Wrappers
  import opened Tables
  import opened Transactions
  import opened Protocol
  import opened Invariants
  import opened Guarantees

  /** Every sync row of the mailbox has ended in `done` or `failed`. */
  ghost predicate AllEnded(jobs: Jobs, m: nat) {
    forall i :: i in jobs && jobs[i].work.Sync? && jobs[i].work.mailbox == m ==>
      jobs[i].status == Done || jobs[i].status == Failed
  }

  /** Some sync row of the mailbox is `queued`, `running` or `retrying`. */
  ghost predicate SomeOpen(jobs: Jobs, m: nat) {
    exists i :: i in jobs && OpenSyncRow(jobs[i], m)
  }

  predicate OpenSyncRow(row: Job, m: nat) {
    row.work.Sync? && row.work.mailbox == m && (row.status == Queued || row.status == Running || row.status == Retrying)
  }

  lemma EndedOrOpen(jobs: Jobs, m: nat)
    ensures AllEnded(jobs, m) <==> !SomeOpen(jobs, m)
    ensures HasPendingSync(jobs, m) <==> SomeOpen(jobs, m)
  {
    if HasPendingSync(jobs, m) {
      var i :| i in jobs && PendingSync(jobs[i], m);
      assert OpenSyncRow(jobs[i], m);
    }
    if SomeOpen(jobs, m) {
      var i :| i in jobs && OpenSyncRow(jobs[i], m);
      assert PendingSync(jobs[i], m);
    }
  }

  /** Between two tables of the queue: row i is new, a sync of m that waits to be claimed from `now` on. */
  ghost predicate NewSync(jobs: Jobs, jobs': Jobs, i: nat, m: nat, trigger: Trigger, now: int) {
    && i !in jobs && i in jobs'
    && jobs'[i] == Job(Sync(m, trigger), Queued, 100, now, None, 0, 5)
  }

  ghost predicate AddsOneSync(jobs: Jobs, jobs': Jobs, m: nat, trigger: Trigger, now: int) {
    && (exists i :: NewSync(jobs, jobs', i, m, trigger, now))
    && (forall i, j :: AddedFor(jobs, jobs', i, m) && AddedFor(jobs, jobs', j, m) ==> i == j)
  }

  predicate AddedFor(jobs: Jobs, jobs': Jobs, i: nat, m: nat) {
    i !in jobs && i in jobs' && jobs'[i].work.Sync? && jobs'[i].work.mailbox == m
  }

  ghost predicate AddsNone(jobs: Jobs, jobs': Jobs, m: nat) {
    forall i :: !AddedFor(jobs, jobs', i, m)
  }

  /** The mailbox is switched on, never enqueued or not within the interval, and all its syncs have ended. */
  ghost predicate Ripe(db: Db, interval: int, now: int, m: nat) {
    && m in db.schedule && db.schedule[m].enabled
    && (db.schedule[m].lastEnqueuedAt == None || db.schedule[m].lastEnqueuedAt.value + interval <= now)
    && AllEnded(db.jobs, m)
  }

  /** A tick adds one sync for exactly the ripe mailboxes and stamps them; for the others it adds none. */
  lemma TickExactly(db: Db, interval: int, now: int, rows: seq<nat>, m: nat)
    requires ListsEnabled(db, rows) && Fresh(db)
    ensures var after := TickTx(db, interval, now, rows).0;
      if Ripe(db, interval, now, m) then
        && AddsOneSync(db.jobs, after.jobs, m, Scheduled, now)
        && m in after.schedule && after.schedule[m] == SyncJob(true, Some(now))
      else
        && AddsNone(db.jobs, after.jobs, m)
        && (m in db.schedule ==> m in after.schedule && after.schedule[m] == db.schedule[m])
  {
    var after, added := TickTx(db, interval, now, rows).0, TickTx(db, interval, now, rows).1;
    TickSpecification(db, interval, now, rows);
    EndedOrOpen(db.jobs, m);
    assert m in added <==> Ripe(db, interval, now, m);
    AddedRows(db, now, after, added, m);
  }

  lemma AddedRows(db: Db, now: int, after: Db, added: seq<nat>, m: nat)
    requires Fresh(db) && Distinct(added) && TickInserts(db, now, after, added)
    ensures m in added ==> AddsOneSync(db.jobs, after.jobs, m, Scheduled, now)
    ensures m !in added ==> AddsNone(db.jobs, after.jobs, m)
  {
    forall i: nat | AddedFor(db.jobs, after.jobs, i, m)
      ensures db.nextJob <= i < after.nextJob && added[i - db.nextJob] == m
    {
      assert after.jobs[i] == QueuedSync(added[i - db.nextJob], Scheduled, now);
    }
    if m in added {
      var k :| 0 <= k < |added| && added[k] == m;
      assert NewSync(db.jobs, after.jobs, db.nextJob + k, m, Scheduled, now);
    }
  }

  /** The button adds one sync for exactly an existing mailbox whose syncs have ended, and changes nothing else. */
  lemma SyncNowExactly(db: Db, m: nat, now: int)
    requires Fresh(db)
    ensures var after := SyncNowTx(db, m, now);
      if m in db.boxes && AllEnded(db.jobs, m) then AddsOneSync(db.jobs, after.jobs, m, Manual, now)
      else after == db
  {
    EndedOrOpen(db.jobs, m);
    if m in db.boxes && AllEnded(db.jobs, m) {
      assert NewSync(db.jobs, SyncNowTx(db, m, now).jobs, db.nextJob, m, Manual, now);
    }
  }

  // --- Round after round --------------------------------------------------------------------

  /** The worker's handler has just ended an ordinary sync of m, and the inventory of m is not waiting. */
  ghost predicate EndsSync(w: World, m: nat) {
    && w.worker.Handled? && w.worker.job in w.db.jobs
    && w.db.jobs[w.worker.job].work.Sync? && w.db.jobs[w.worker.job].work.mailbox == m
    && w.db.jobs[w.worker.job].work.trigger != Assess
    && forall i :: i in w.db.jobs && w.db.jobs[i].work == Sync(m, Assess) ==>
      w.db.jobs[i].status == Done || w.db.jobs[i].status == Failed
  }

  /** Once that sync is `done`, the first tick an interval after the last enqueue enqueues the mailbox again; had it
      ended in `retrying`, no tick would. */
  lemma SyncedAgain(cfg: Config, w: World, m: nat, ok: bool, now: int, t: int, rows: seq<nat>)
    requires Reachable(cfg, w) && EndsSync(w, m) && Enabled(w, Finish(now, ok)) && now <= t
    requires m in w.db.schedule && w.db.schedule[m].enabled
    requires w.db.schedule[m].lastEnqueuedAt.Some? ==> w.db.schedule[m].lastEnqueuedAt.value + cfg.interval <= t
    requires var w1 := Next(cfg, w, Finish(now, ok)); Enabled(w1, Tick(t, rows))
    ensures var w1 := Next(cfg, w, Finish(now, ok));
      var w2 := Next(cfg, w1, Tick(t, rows));
      && Legal(cfg, w, [Finish(now, ok), Tick(t, rows)])
      && if ok || w.db.jobs[w.worker.job].attempts >= w.db.jobs[w.worker.job].maxAttempts
         then AddsOneSync(w1.db.jobs, w2.db.jobs, m, Scheduled, t) else AddsNone(w1.db.jobs, w2.db.jobs, m)
  {
    var w1 := Next(cfg, w, Finish(now, ok));
    ReachableInv(cfg, w);
    TwoSteps(cfg, w, Finish(now, ok), Tick(t, rows));
    AfterFinish(w, w1, m, ok, now);
    TickExactly(w1.db, cfg.interval, t, rows, m);
  }

  lemma AfterFinish(w: World, w1: World, m: nat, ok: bool, now: int)
    requires Ids(w) && OneRunning(w) && OnePending(w) && EndsSync(w, m)
    requires w1.db == FinishTx(w.db, w.worker.job, ok, now)
    ensures Fresh(w1.db) && w1.db.schedule == w.db.schedule
    ensures AllEnded(w1.db.jobs, m) <==>
      ok || w.db.jobs[w.worker.job].attempts >= w.db.jobs[w.worker.job].maxAttempts
  {
    var job := w.worker.job;
    assert PendingPlain(w.db.jobs, job, m);
    forall i | i in w.db.jobs && i != job && w.db.jobs[i].work.Sync? && w.db.jobs[i].work.mailbox == m
      ensures w.db.jobs[i].status == Done || w.db.jobs[i].status == Failed
    {
      if w.db.jobs[i].work.trigger != Assess && Pending(w.db.jobs[i].status) {
        assert PendingPlain(w.db.jobs, i, m);
      }
      assert w.db.jobs[i].work.trigger == Assess ==> w.db.jobs[i].work == Sync(m, Assess);
    }
    assert job in w1.db.jobs && w1.db.jobs[job].work == w.db.jobs[job].work;
    assert forall i :: i in w.db.jobs && i != job ==> w1.db.jobs[i] == w.db.jobs[i];
  }
}
