/** What every step keeps, one invariant at a time. */
module Invariants {
  import opened Wrappers
  import opened Tables
  import opened Throttle
  import opened Claiming
  import opened Transactions
  import opened Protocol

  /** The part of a claim pass the invariants need: only `run_after` moves outside the claimed row. */
  ghost predicate ClaimKeepsRows(jobs: Jobs, throttled: bool, now: int, jobs': Jobs, claimed: Option<nat>) {
    && jobs'.Keys == jobs.Keys
    && (claimed.Some? ==>
          && claimed.value in jobs && Due(jobs[claimed.value], now) && !Skippable(jobs[claimed.value], throttled)
          && jobs'[claimed.value] == ClaimedRow(jobs[claimed.value], now))
    && forall i :: i in jobs && claimed != Some(i) ==>
         jobs'[i] == jobs[i] || (jobs[i].status == Queued && jobs'[i] == Postponed(jobs[i], now))
  }

  lemma ClaimFacts(cfg: Config, w: World, now: int)
    ensures var r := ClaimTx(w.db, cfg.policy, now);
            && ClaimKeepsRows(w.db.jobs, !MayStart(w.db.runs, cfg.policy, now), now, r.0.jobs, r.1)
            && r.0 == w.db.(jobs := r.0.jobs)
  {
    ClaimSpecification(w.db.jobs, !MayStart(w.db.runs, cfg.policy, now), now);
  }

  /** Steps of the web application and the scheduler; the others are the worker's. */
  predicate FromOutside(e: Event) {
    e.Tick? || e.SyncNow? || e.AddMailbox? || e.Reimport? || e.SetEnabled? || e.DeleteMailbox? || e.StartUpdate?
  }

  // --- Identifiers and references ---------------------------------------------------

  ghost predicate Ids(w: World) {
    && Fresh(w.db)
    && (forall r :: r in w.db.runs ==>
        r < w.db.nextRun && w.db.runs[r].startedAt <= w.clock && w.db.runs[r].mailbox in w.db.boxes)
    && (forall m :: m in w.db.boxes ==> m < w.db.nextBox)
    && w.db.schedule.Keys == w.db.boxes.Keys
    && (forall u :: u in w.db.updates ==> u < w.db.nextUpdate)
    && (w.worker.Busy() ==> w.worker.job < w.db.nextJob)
    && (w.worker.Syncing? ==> w.worker.run < w.db.nextRun)
    && (w.worker.Creating? ==> w.worker.mailbox < w.db.nextBox)
  }

  lemma IdsOutside(cfg: Config, w: World, e: Event)
    requires Enabled(w, e) && FromOutside(e) && Ids(w)
    ensures Ids(Next(cfg, w, e))
  {
    if e.Tick? {
      TickSpecification(w.db, cfg.interval, e.now, e.rows);
    }
  }

  lemma IdsClaim(cfg: Config, w: World, e: Event)
    requires Enabled(w, e) && e.Claim? && Ids(w)
    ensures Ids(Next(cfg, w, e))
  {
    ClaimFacts(cfg, w, e.now);
  }

  lemma IdsActivate(cfg: Config, w: World, e: Event)
    requires Enabled(w, e) && (e.Activate? || e.OpenRun?) && Ids(w)
    ensures Ids(Next(cfg, w, e))
  {
  }

  lemma IdsRewritten(cfg: Config, w: World, e: Event)
    requires Enabled(w, e) && (e.Reap? || e.Finish? || e.CloseRun?) && Ids(w)
    ensures Ids(Next(cfg, w, e))
  {
  }

  lemma IdsWorker(cfg: Config, w: World, e: Event)
    requires Enabled(w, e) && !FromOutside(e) && Ids(w)
    ensures Ids(Next(cfg, w, e))
  {
    if e.Claim? {
      IdsClaim(cfg, w, e);
    } else if e.Activate? || e.OpenRun? {
      IdsActivate(cfg, w, e);
    } else if e.Reap? || e.Finish? || e.CloseRun? {
      IdsRewritten(cfg, w, e);
    }
  }

  lemma IdsStep(cfg: Config, w: World, e: Event)
    requires Enabled(w, e) && Ids(w)
    ensures Ids(Next(cfg, w, e))
  {
    if FromOutside(e) {
      IdsOutside(cfg, w, e);
    } else {
      IdsWorker(cfg, w, e);
    }
  }

  // --- One job at a time --------------------------------------------------------------

  predicate Fits(worker: Worker, work: Work) {
    match worker
    case Claimed(_, claimed) => work == claimed
    case Syncing(_, mailbox, _) => SyncOf(work, mailbox)
    case Creating(_, mailbox, _) => work == Provision(mailbox)
    case Updating(_, run) => work.SystemUpdate? && work.run == run
    case _ => true
  }

  /** Only the row claimed last can be `running`, and while the worker is up it holds that row. */
  ghost predicate OneRunning(w: World) {
    && (forall i :: i in w.db.jobs && w.db.jobs[i].status == Running ==>
        w.log.lastClaimed == Some(i) && !w.worker.Idle?)
    && (w.worker.Busy() ==> w.log.lastClaimed == Some(w.worker.job))
    && (w.worker.Busy() && w.worker.job in w.db.jobs ==>
          w.db.jobs[w.worker.job].status == Running && Fits(w.worker, w.db.jobs[w.worker.job].work))
  }

  lemma OneRunningOutside(cfg: Config, w: World, e: Event)
    requires Enabled(w, e) && FromOutside(e) && Ids(w) && OneRunning(w)
    ensures OneRunning(Next(cfg, w, e))
  {
    if e.Tick? {
      TickSpecification(w.db, cfg.interval, e.now, e.rows);
    }
  }

  lemma OneRunningClaim(cfg: Config, w: World, e: Event)
    requires Enabled(w, e) && e.Claim? && Ids(w) && OneRunning(w)
    ensures OneRunning(Next(cfg, w, e))
  {
    ClaimFacts(cfg, w, e.now);
  }

  lemma OneRunningWorker(cfg: Config, w: World, e: Event)
    requires Enabled(w, e) && !FromOutside(e) && Ids(w) && OneRunning(w)
    ensures OneRunning(Next(cfg, w, e))
  {
    if e.Claim? {
      OneRunningClaim(cfg, w, e);
    }
  }

  lemma OneRunningStep(cfg: Config, w: World, e: Event)
    requires Enabled(w, e) && Ids(w) && OneRunning(w)
    ensures OneRunning(Next(cfg, w, e))
  {
    if FromOutside(e) {
      OneRunningOutside(cfg, w, e);
    } else {
      OneRunningWorker(cfg, w, e);
    }
  }

  // --- Rate limit ---------------------------------------------------------------------

  ghost predicate RateLimited(cfg: Config, w: World) {
    && WithinPolicy(w.db.runs, cfg.policy)
    && (w.worker.Claimed? && w.worker.work.Sync? ==> MayStart(w.db.runs, cfg.policy, w.clock))
  }

  lemma RateLimitedStep(cfg: Config, w: World, e: Event)
    requires Enabled(w, e) && Ids(w) && RateLimited(cfg, w)
    ensures RateLimited(cfg, Next(cfg, w, e))
  {
    var w' := Next(cfg, w, e);
    match e {
      case OpenRun(now, _) =>
        StaysAllowed(w.db.runs, w.db.runs, cfg.policy, w.clock, now);
        if w'.worker.Syncing? {
          OpeningStaysWithin(w.db.runs, w.db.nextRun, w'.db.runs[w.db.nextRun], cfg.policy);
        }
      case Claim(now) => ClaimFacts(cfg, w, now);
      case Tick(now, rows) =>
        TickSpecification(w.db, cfg.interval, now, rows);
        RunsOnlyShrink(cfg, w, w');
      case _ => RunsOnlyShrink(cfg, w, w');
    }
  }

  lemma RunsOnlyShrink(cfg: Config, w: World, w': World)
    requires RateLimited(cfg, w) && w.clock <= w'.clock
    requires forall r :: r in w'.db.runs ==> r in w.db.runs && w'.db.runs[r].startedAt == w.db.runs[r].startedAt
    requires forall r :: r in w'.db.runs && w'.db.runs[r].status == InProgress ==> w.db.runs[r].status == InProgress
    requires w'.worker.Claimed? && w'.worker.work.Sync? ==> w'.worker == w.worker
    ensures RateLimited(cfg, w')
  {
    FewerRunsStayWithin(w.db.runs, w'.db.runs, cfg.policy);
    if w'.worker.Claimed? && w'.worker.work.Sync? {
      StaysAllowed(w.db.runs, w'.db.runs, cfg.policy, w.clock, w'.clock);
    }
  }

  // --- Pending syncs ------------------------------------------------------------------

  predicate PlainSync(w: Work, mailbox: nat) {
    SyncOf(w, mailbox) && w.trigger != Assess
  }

  /** Row i is an unfinished plain sync of mailbox m. */
  predicate PendingPlain(jobs: Jobs, i: nat, m: nat) {
    i in jobs && PlainSync(jobs[i].work, m) && Pending(jobs[i].status)
  }

  /** Unfinished plain syncs of one mailbox: at most one row. */
  ghost predicate OnePending(w: World) {
    forall m: nat, i: nat, j: nat :: PendingPlain(w.db.jobs, i, m) && PendingPlain(w.db.jobs, j, m) ==> i == j
  }

  /** Every unfinished plain sync afterwards was one before, or is new for a mailbox that had none. */
  ghost predicate PendingExtends(jobs: Jobs, jobs': Jobs) {
    && (forall i: nat, m: nat :: PendingPlain(jobs', i, m) && i in jobs ==> PendingPlain(jobs, i, m))
    && (forall i: nat, m: nat :: PendingPlain(jobs', i, m) && i !in jobs ==> !HasPendingSync(jobs, m))
    && (forall i: nat, j: nat, m: nat ::
      PendingPlain(jobs', i, m) && PendingPlain(jobs', j, m) && i !in jobs && j !in jobs ==> i == j)
  }

  lemma OnePendingExtends(w: World, w': World)
    requires OnePending(w) && PendingExtends(w.db.jobs, w'.db.jobs)
    ensures OnePending(w')
  {
  }

  lemma TickExtends(cfg: Config, w: World, e: Event)
    requires e.Tick? && Enabled(w, e) && Ids(w)
    ensures PendingExtends(w.db.jobs, Next(cfg, w, e).db.jobs)
  {
    TickSpecification(w.db, cfg.interval, e.now, e.rows);
    var jobs', added := Next(cfg, w, e).db.jobs, TickTx(w.db, cfg.interval, e.now, e.rows).1;
    forall i: nat, m: nat | PendingPlain(jobs', i, m) && i !in w.db.jobs
      ensures !HasPendingSync(w.db.jobs, m) && added[i - w.db.nextJob] == m
    {
      assert jobs'[i] == QueuedSync(added[i - w.db.nextJob], Scheduled, e.now);
      assert added[i - w.db.nextJob] in added;
    }
  }

  lemma ClaimExtends(cfg: Config, w: World, e: Event)
    requires e.Claim? && Enabled(w, e) && Ids(w)
    ensures PendingExtends(w.db.jobs, Next(cfg, w, e).db.jobs)
  {
    ClaimFacts(cfg, w, e.now);
  }

  lemma WorkerExtends(cfg: Config, w: World, e: Event)
    requires !FromOutside(e) && Enabled(w, e) && Ids(w) && OneRunning(w)
    ensures PendingExtends(w.db.jobs, Next(cfg, w, e).db.jobs)
  {
    if e.Claim? {
      ClaimExtends(cfg, w, e);
    }
  }

  lemma OnePendingStep(cfg: Config, w: World, e: Event)
    requires Enabled(w, e) && Ids(w) && OneRunning(w) && OnePending(w)
    ensures OnePending(Next(cfg, w, e))
  {
    if e.Tick? {
      TickExtends(cfg, w, e);
    } else if !FromOutside(e) {
      WorkerExtends(cfg, w, e);
    }
    assert PendingExtends(w.db.jobs, Next(cfg, w, e).db.jobs);
    OnePendingExtends(w, Next(cfg, w, e));
  }

  /** Assess rows: at most one per mailbox in the whole table, counted by the log, and only once active. */
  ghost predicate OneAssess(w: World) {
    && (forall i, j, m ::
          i in w.db.jobs && AssessOf(w.db.jobs[i].work, m) && j in w.db.jobs && AssessOf(w.db.jobs[j].work, m)
          ==> i == j)
    && (forall i, m :: i in w.db.jobs && AssessOf(w.db.jobs[i].work, m) ==> w.log.assessed[m] == 1)
    && (forall m :: m in w.db.boxes ==> w.log.assessed[m] == if w.db.boxes[m].active then 1 else 0)
    && (forall m :: w.log.assessed[m] <= 1)
    && (forall m :: m >= w.db.nextBox ==> w.log.assessed[m] == 0)
    && (w.worker.Creating? && w.worker.mailbox in w.db.boxes ==> !w.db.boxes[w.worker.mailbox].active)
  }

  /** A mailbox is active exactly when it carries its VM2 id. */
  ghost predicate ActiveMeansId(w: World) {
    forall m :: m in w.db.boxes ==> (w.db.boxes[m].active <==> w.db.boxes[m].vm2Id.Some?)
  }

  lemma OneAssessFrame(w: World, w': World)
    requires OneAssess(w) && ActiveMeansId(w)
    requires forall i, m :: i in w'.db.jobs && AssessOf(w'.db.jobs[i].work, m) ==>
      i in w.db.jobs && AssessOf(w.db.jobs[i].work, m)
    requires w'.db.boxes == w.db.boxes && w'.db.nextBox == w.db.nextBox && w'.log.assessed == w.log.assessed
    requires w'.worker.Creating? ==> w'.worker == w.worker
    ensures OneAssess(w') && ActiveMeansId(w')
  {}

  lemma OneAssessActivate(cfg: Config, w: World, e: Event)
    requires Enabled(w, e) && e.Activate? && Ids(w) && OneAssess(w) && ActiveMeansId(w)
    ensures OneAssess(Next(cfg, w, e)) && ActiveMeansId(Next(cfg, w, e))
  {
  }

  lemma OneAssessCreate(cfg: Config, w: World, e: Event)
    requires Enabled(w, e) && e.CreateRemote? && Ids(w) && OneAssess(w) && ActiveMeansId(w)
    ensures OneAssess(Next(cfg, w, e)) && ActiveMeansId(Next(cfg, w, e))
  {}

  lemma OneAssessAdd(cfg: Config, w: World, e: Event)
    requires Enabled(w, e) && e.AddMailbox? && Ids(w) && OneAssess(w) && ActiveMeansId(w)
    ensures OneAssess(Next(cfg, w, e)) && ActiveMeansId(Next(cfg, w, e))
  {}

  lemma OneAssessDelete(cfg: Config, w: World, e: Event)
    requires Enabled(w, e) && e.DeleteMailbox? && Ids(w) && OneAssess(w) && ActiveMeansId(w)
    ensures OneAssess(Next(cfg, w, e)) && ActiveMeansId(Next(cfg, w, e))
  {}

  lemma OneAssessOutside(cfg: Config, w: World, e: Event)
    requires Enabled(w, e) && FromOutside(e) && Ids(w) && OneAssess(w) && ActiveMeansId(w)
    ensures OneAssess(Next(cfg, w, e)) && ActiveMeansId(Next(cfg, w, e))
  {
    if e.AddMailbox? {
      OneAssessAdd(cfg, w, e);
    } else if e.DeleteMailbox? {
      OneAssessDelete(cfg, w, e);
    } else {
      if e.Tick? {
        TickSpecification(w.db, cfg.interval, e.now, e.rows);
      }
      OneAssessFrame(w, Next(cfg, w, e));
    }
  }

  lemma OneAssessClaim(cfg: Config, w: World, e: Event)
    requires Enabled(w, e) && e.Claim? && Ids(w) && OneAssess(w) && ActiveMeansId(w)
    ensures OneAssess(Next(cfg, w, e)) && ActiveMeansId(Next(cfg, w, e))
  {
    ClaimFacts(cfg, w, e.now);
    OneAssessFrame(w, Next(cfg, w, e));
  }

  lemma OneAssessWorker(cfg: Config, w: World, e: Event)
    requires Enabled(w, e) && !FromOutside(e) && Ids(w) && OneAssess(w) && ActiveMeansId(w)
    ensures OneAssess(Next(cfg, w, e)) && ActiveMeansId(Next(cfg, w, e))
  {
    if e.Activate? {
      OneAssessActivate(cfg, w, e);
    } else if e.CreateRemote? {
      OneAssessCreate(cfg, w, e);
    } else if e.Claim? {
      OneAssessClaim(cfg, w, e);
    } else {
      OneAssessFrame(w, Next(cfg, w, e));
    }
  }

  lemma {:induction false} OneAssessStep(cfg: Config, w: World, e: Event)
    requires Enabled(w, e) && Ids(w) && OneAssess(w) && ActiveMeansId(w)
    ensures OneAssess(Next(cfg, w, e)) && ActiveMeansId(Next(cfg, w, e))
  {
    if FromOutside(e) {
      OneAssessOutside(cfg, w, e);
    } else {
      OneAssessWorker(cfg, w, e);
    }
  }

  // --- Claims and system updates ------------------------------------------------------

  ghost predicate AttemptsCountClaims(w: World) {
    && (forall i :: i in w.db.jobs ==> w.db.jobs[i].attempts == w.log.claims[i])
    && (forall i :: i >= w.db.nextJob ==> w.log.claims[i] == 0)
  }

  lemma AttemptsOutside(cfg: Config, w: World, e: Event)
    requires Enabled(w, e) && FromOutside(e) && Ids(w) && AttemptsCountClaims(w)
    ensures AttemptsCountClaims(Next(cfg, w, e))
  {
    if e.Tick? {
      TickSpecification(w.db, cfg.interval, e.now, e.rows);
    }
  }

  lemma AttemptsClaim(cfg: Config, w: World, e: Event)
    requires Enabled(w, e) && e.Claim? && Ids(w) && AttemptsCountClaims(w)
    ensures AttemptsCountClaims(Next(cfg, w, e))
  {
    ClaimFacts(cfg, w, e.now);
  }

  lemma AttemptsWorker(cfg: Config, w: World, e: Event)
    requires Enabled(w, e) && !FromOutside(e) && Ids(w) && AttemptsCountClaims(w)
    ensures AttemptsCountClaims(Next(cfg, w, e))
  {
    if e.Claim? {
      AttemptsClaim(cfg, w, e);
    } else {
      assert Next(cfg, w, e).log.claims == w.log.claims;
    }
  }

  lemma AttemptsStep(cfg: Config, w: World, e: Event)
    requires Enabled(w, e) && Ids(w) && AttemptsCountClaims(w)
    ensures AttemptsCountClaims(Next(cfg, w, e))
  {
    if FromOutside(e) {
      AttemptsOutside(cfg, w, e);
    } else {
      AttemptsWorker(cfg, w, e);
    }
  }

  /** A system update is claimed only from its first and only attempt. */
  ghost predicate UpdatesOnce(w: World) {
    forall i :: i in w.db.jobs && w.db.jobs[i].work.SystemUpdate? ==>
      && w.db.jobs[i].maxAttempts == 1 && w.db.jobs[i].status != Retrying
      && w.db.jobs[i].attempts == if w.db.jobs[i].status == Queued then 0 else 1
  }

  lemma UpdatesOnceOutside(cfg: Config, w: World, e: Event)
    requires Enabled(w, e) && FromOutside(e) && Ids(w) && OneRunning(w) && UpdatesOnce(w)
    ensures UpdatesOnce(Next(cfg, w, e))
  {
    if e.Tick? {
      TickSpecification(w.db, cfg.interval, e.now, e.rows);
    }
  }

  lemma UpdatesOnceClaim(cfg: Config, w: World, e: Event)
    requires Enabled(w, e) && e.Claim? && Ids(w) && OneRunning(w) && UpdatesOnce(w)
    ensures UpdatesOnce(Next(cfg, w, e))
  {
    ClaimFacts(cfg, w, e.now);
  }

  lemma UpdatesOnceWorker(cfg: Config, w: World, e: Event)
    requires Enabled(w, e) && !FromOutside(e) && Ids(w) && OneRunning(w) && UpdatesOnce(w)
    ensures UpdatesOnce(Next(cfg, w, e))
  {
    if e.Claim? {
      UpdatesOnceClaim(cfg, w, e);
    }
  }

  lemma UpdatesOnceStep(cfg: Config, w: World, e: Event)
    requires Enabled(w, e) && Ids(w) && OneRunning(w) && UpdatesOnce(w)
    ensures UpdatesOnce(Next(cfg, w, e))
  {
    if FromOutside(e) {
      UpdatesOnceOutside(cfg, w, e);
    } else {
      UpdatesOnceWorker(cfg, w, e);
    }
  }

  // --- Provisioning -------------------------------------------------------------------

  /** VM2 holds one row per address, ids grow, and every recorded id was given for that mailbox's address. */
  ghost predicate MailAgrees(w: World) {
    && (forall v :: v in w.mail.rows ==> v < w.mail.next)
    && (forall u, v :: u in w.mail.rows && v in w.mail.rows && w.mail.rows[u] == w.mail.rows[v] ==> u == v)
    && (forall m :: m in w.db.boxes && w.db.boxes[m].vm2Id.Some? ==>
        IdFits(w, w.db.boxes[m], w.db.boxes[m].vm2Id.value))
    && (w.worker.Creating? && w.worker.mailbox in w.db.boxes ==>
        IdFits(w, w.db.boxes[w.worker.mailbox], w.worker.vm2Id))
    && (forall a :: w.log.created[a] == w.log.removed[a] + if Holds(w.mail, a) then 1 else 0)
  }

  ghost predicate IdFits(w: World, box: Mailbox, v: nat) {
    v < w.mail.next && (v in w.mail.rows ==> w.mail.rows[v] == AddressOf(box))
  }

  lemma MailAgreesFrame(w: World, w': World)
    requires MailAgrees(w)
    requires w'.db.boxes == w.db.boxes && w'.mail == w.mail
    requires w'.log.created == w.log.created && w'.log.removed == w.log.removed
    requires w'.worker.Creating? ==> w'.worker == w.worker
    ensures MailAgrees(w')
  {}

  lemma MailAgreesCreate(cfg: Config, w: World, e: Event)
    requires Enabled(w, e) && e.CreateRemote? && Ids(w) && MailAgrees(w)
    ensures MailAgrees(Next(cfg, w, e))
  {
    var w' := Next(cfg, w, e);
    if w'.worker.Creating? {
      var a := AddressOf(w.db.boxes[w.worker.work.mailbox]);
      assert !Holds(w.mail, a) ==> w'.mail.rows[w.mail.next] == a;
      forall b ensures Holds(w'.mail, b) <==> Holds(w.mail, b) || b == a {
        if Holds(w.mail, b) {
          var v :| v in w.mail.rows && w.mail.rows[v] == b;
          assert v in w'.mail.rows && w'.mail.rows[v] == b;
        }
      }
    } else {
      MailAgreesFrame(w, w');
    }
  }

  lemma MailAgreesDelete(cfg: Config, w: World, e: Event)
    requires Enabled(w, e) && e.DeleteMailbox? && Ids(w) && MailAgrees(w)
    ensures MailAgrees(Next(cfg, w, e))
  {
    var w', id := Next(cfg, w, e), w.db.boxes[e.mailbox].vm2Id;
    if w'.mail != w.mail {
      var a := w.mail.rows[id.value];
      forall b ensures Holds(w'.mail, b) <==> Holds(w.mail, b) && b != a {
        if Holds(w.mail, b) && b != a {
          var v :| v in w.mail.rows && w.mail.rows[v] == b;
          assert v in w'.mail.rows && w'.mail.rows[v] == b;
        }
      }
    }
  }

  lemma MailAgreesOutside(cfg: Config, w: World, e: Event)
    requires Enabled(w, e) && FromOutside(e) && Ids(w) && MailAgrees(w)
    ensures MailAgrees(Next(cfg, w, e))
  {
    if e.DeleteMailbox? {
      MailAgreesDelete(cfg, w, e);
    } else if !e.AddMailbox? {
      if e.Tick? {
        TickSpecification(w.db, cfg.interval, e.now, e.rows);
      }
      MailAgreesFrame(w, Next(cfg, w, e));
    }
  }

  lemma MailAgreesStep(cfg: Config, w: World, e: Event)
    requires Enabled(w, e) && Ids(w) && MailAgrees(w)
    ensures MailAgrees(Next(cfg, w, e))
  {
    if FromOutside(e) {
      MailAgreesOutside(cfg, w, e);
    } else if e.CreateRemote? {
      MailAgreesCreate(cfg, w, e);
    } else if !e.Activate? {
      MailAgreesFrame(w, Next(cfg, w, e));
    }
  }

  // --- Scheduler and run history ------------------------------------------------------

  /** Scheduled enqueues of one mailbox are an interval apart, and the newest is the stored one. */
  ghost predicate Spread(cfg: Config, w: World) {
    && (forall a, b :: 0 <= a < b < |w.log.scheduled| && w.log.scheduled[a].0 == w.log.scheduled[b].0 ==>
          w.log.scheduled[a].1 + cfg.interval <= w.log.scheduled[b].1)
    && (forall a :: 0 <= a < |w.log.scheduled| ==> StoredSince(w, w.log.scheduled[a].0, w.log.scheduled[a].1))
  }

  ghost predicate StoredSince(w: World, m: nat, t: int) {
    && m < w.db.nextBox
    && (m in w.db.schedule ==> w.db.schedule[m].lastEnqueuedAt.Some? && t <= w.db.schedule[m].lastEnqueuedAt.value)
  }

  /** Every row of `job_runs` is a recorded start; rows leave only with their mailbox. */
  ghost predicate StartsRecorded(w: World) {
    && (forall r :: r in w.db.runs ==> r in w.log.starts && w.log.starts[r] == w.db.runs[r].startedAt)
    && (forall r :: r in w.log.starts ==> r < w.db.nextRun)
  }

  lemma SpreadFrame(cfg: Config, w: World, w': World)
    requires Spread(cfg, w) && w'.log.scheduled == w.log.scheduled && w.db.nextBox <= w'.db.nextBox
    requires forall m :: m in w'.db.schedule && m < w.db.nextBox ==>
      m in w.db.schedule && w'.db.schedule[m].lastEnqueuedAt == w.db.schedule[m].lastEnqueuedAt
    ensures Spread(cfg, w')
  {}

  lemma SpreadTick(cfg: Config, w: World, e: Event)
    requires e.Tick? && Enabled(w, e) && Ids(w) && Spread(cfg, w)
    ensures Spread(cfg, Next(cfg, w, e))
  {
    TickSpecification(w.db, cfg.interval, e.now, e.rows);
    var w', added := Next(cfg, w, e), TickTx(w.db, cfg.interval, e.now, e.rows).1;
    var before, after := w.log.scheduled, w'.log.scheduled;
    assert forall a :: |before| <= a < |after| ==>
      after[a] == (added[a - |before|], e.now) && added[a - |before|] in added;
    forall a, b | 0 <= a < b < |after| && after[a].0 == after[b].0 ensures after[a].1 + cfg.interval <= after[b].1 {
      if a < |before| {
        assert StoredSince(w, before[a].0, before[a].1);
      }
    }
    forall a | 0 <= a < |after| ensures StoredSince(w', after[a].0, after[a].1) {
      if a < |before| {
        assert StoredSince(w, before[a].0, before[a].1);
      }
    }
  }

  lemma SpreadStep(cfg: Config, w: World, e: Event)
    requires Enabled(w, e) && Ids(w) && Spread(cfg, w)
    ensures Spread(cfg, Next(cfg, w, e))
  {
    match e {
      case Tick(_, _) => SpreadTick(cfg, w, e);
      case Claim(now) =>
        ClaimFacts(cfg, w, now);
        SpreadFrame(cfg, w, Next(cfg, w, e));
      case _ => SpreadFrame(cfg, w, Next(cfg, w, e));
    }
  }

  lemma StartsRecordedOutside(cfg: Config, w: World, e: Event)
    requires Enabled(w, e) && FromOutside(e) && Ids(w) && StartsRecorded(w)
    ensures StartsRecorded(Next(cfg, w, e))
  {
    if e.Tick? {
      TickSpecification(w.db, cfg.interval, e.now, e.rows);
    }
  }

  lemma StartsRecordedStep(cfg: Config, w: World, e: Event)
    requires Enabled(w, e) && Ids(w) && StartsRecorded(w)
    ensures StartsRecorded(Next(cfg, w, e))
  {
    if FromOutside(e) {
      StartsRecordedOutside(cfg, w, e);
    }
  }
}
