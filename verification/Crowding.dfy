/** A run from the empty portal to a queue in which a job waits for ever: syncs whose closing failed keep the
    concurrency limit used up, and the syncs behind them starve the job. */
module Crowding {
  import opened Tables
  import opened Throttle
  import opened Claiming
  import opened Transactions
  import opened Protocol
  import opened Scenarios
  import opened Waiting

  // --- Syncs that never end ---------------------------------------------------------------

  /** c runs are in progress and no handler works on them; nothing is queued. */
  ghost predicate Stuck(w: World, c: nat) {
    w.worker == Idle && w.clock == 0 && InProgressOnly(w.db.runs, c) && AtRest(w.db.jobs, w.db.nextBox)
  }

  /** Nothing is queued, and the sync rows are those of mailboxes below b. */
  ghost predicate AtRest(jobs: Jobs, b: nat) {
    forall j :: j in jobs ==> jobs[j].status != Queued && (jobs[j].work.Sync? ==> jobs[j].work.mailbox < b)
  }

  predicate InProgressOnly(runs: Runs, c: nat) {
    |runs.Keys| == c && forall r :: r in runs ==> runs[r].status == InProgress
  }

  /** The concurrency limit is at most each window's limit. */
  predicate ConcurrencyDecides(p: Policy) {
    p.concurrent <= p.perMinute && p.concurrent <= p.perHour && p.concurrent <= p.perDay
  }

  lemma ConcurrencyAlone(runs: Runs, c: nat, p: Policy, now: int)
    requires InProgressOnly(runs, c) && ConcurrencyDecides(p)
    ensures MayStart(runs, p, now) <==> c < p.concurrent
  {
    assert RunningRuns(runs) == runs.Keys;
    CardinalityMonotone(StartedSince(runs, now - MINUTE), runs.Keys);
    CardinalityMonotone(StartedSince(runs, now - HOUR), runs.Keys);
    CardinalityMonotone(StartedSince(runs, now - DAY), runs.Keys);
  }

  lemma NewIds(cfg: Config, run: seq<Event>, w: World)
    requires At(cfg, run, w)
    ensures forall j :: j in w.db.jobs ==> j < w.db.nextJob
    ensures w.db.nextRun !in w.db.runs
    ensures forall m :: m in w.db.boxes ==> m < w.db.nextBox
  {
    AtIsReachable(cfg, run, w);
  }

  /** One mailbox imported: its provision row is the only one queued. */
  lemma OneMoreImportBehind(cfg: Config, run: seq<Event>, w: World, c: nat, a: Address)
    returns (run': seq<Event>, w': World)
    requires At(cfg, run, w) && Stuck(w, c)
    ensures At(cfg, run', w') && w' == w.(db := AddMailboxTx(w.db, a.domain, a.local, 0))
    ensures FirstDue(w'.db.jobs, w.db.nextJob)
    ensures forall j :: j in w'.db.jobs && j != w.db.nextJob ==> j in w.db.jobs && w'.db.jobs[j] == w.db.jobs[j]
  {
    NewIds(cfg, run, w);
    run', w' := Import(cfg, run, w, a);
  }

  /** And provisioned: its first sync is the only row queued. */
  lemma OneMoreBoxBehind(cfg: Config, run: seq<Event>, w: World, c: nat, a: Address)
    returns (run': seq<Event>, w': World)
    requires At(cfg, run, w) && Stuck(w, c)
    ensures At(cfg, run', w') && w'.worker == Idle && w'.clock == 0 && w'.db.runs == w.db.runs
    ensures w'.db.nextBox == w.db.nextBox + 1 && SyncProceeds(w'.db, w.db.nextBox, true)
    ensures OnlyQueued(w'.db.jobs, w.db.nextJob + 1, w.db.nextBox)
  {
    run', w' := OneMoreImportBehind(cfg, run, w, c, a);
    ghost var jobs := w'.db.jobs;
    run', w' := ProvisionImported(cfg, run', w', w.db.nextJob, w.db.nextBox);
    SyncFollows(w.db, jobs, w'.db.jobs);
  }

  lemma ProvisionImported(cfg: Config, run: seq<Event>, w: World, k: nat, m: nat)
    returns (run': seq<Event>, w': World)
    requires At(cfg, run, w) && w.worker == Idle && w.clock == 0 && FirstDue(w.db.jobs, k) && w.db.nextJob == k + 1
    requires w.db.jobs[k].work == Provision(m) && m in w.db.boxes && !w.db.boxes[m].active
    requires m in w.db.schedule && w.db.schedule[m].enabled
    ensures At(cfg, run', w') && w'.worker == Idle && w'.clock == 0
    ensures w'.db.runs == w.db.runs && w'.db.nextBox == w.db.nextBox && SyncProceeds(w'.db, m, true)
    ensures w'.db.jobs ==
      w.db.jobs[k := ClaimedRow(w.db.jobs[k], 0).(status := Done)][k + 1 := QueuedSync(m, Assess, 0)]
  {
    run', w' := ProvisionBox(cfg, run, w, k, m);
  }

  /** Row k, a sync of mailbox m, is the only one queued, and no sync row belongs to a newer mailbox. */
  ghost predicate OnlyQueued(jobs: Jobs, k: nat, m: nat) {
    && k in jobs && jobs[k] == QueuedSync(m, Assess, 0)
    && forall j :: j in jobs && j != k ==>
        jobs[j].status != Queued && (jobs[j].work.Sync? ==> jobs[j].work.mailbox <= m)
  }

  lemma SyncFollows(db: Db, jobs: Jobs, jobs': Jobs)
    requires db.nextJob in jobs && jobs[db.nextJob].work.Provision?
    requires forall j :: j in jobs && j != db.nextJob ==> j in db.jobs && jobs[j] == db.jobs[j]
    requires AtRest(db.jobs, db.nextBox)
    requires jobs' == jobs[db.nextJob := ClaimedRow(jobs[db.nextJob], 0).(status := Done)]
                          [db.nextJob + 1 := QueuedSync(db.nextBox, Assess, 0)]
    ensures OnlyQueued(jobs', db.nextJob + 1, db.nextBox)
  {
  }

  /** That sync starts, and the transaction that should close its run raises. */
  lemma OneMoreStuck(cfg: Config, run: seq<Event>, w: World, c: nat, a: Address)
    returns (run': seq<Event>, w': World)
    requires At(cfg, run, w) && Stuck(w, c) && c < cfg.policy.concurrent && ConcurrencyDecides(cfg.policy)
    ensures At(cfg, run', w') && Stuck(w', c + 1)
  {
    run', w' := OneMoreBoxBehind(cfg, run, w, c, a);
    run', w' := RaisesAtClosing(cfg, run', w', c, w.db.nextJob + 1, w.db.nextBox);
  }

  lemma RaisesAtClosing(cfg: Config, run: seq<Event>, w: World, c: nat, k: nat, m: nat)
    returns (run': seq<Event>, w': World)
    requires At(cfg, run, w) && w.worker == Idle && w.clock == 0 && InProgressOnly(w.db.runs, c)
    requires OnlyQueued(w.db.jobs, k, m) && SyncProceeds(w.db, m, true) && m < w.db.nextBox
    requires c < cfg.policy.concurrent && ConcurrencyDecides(cfg.policy)
    ensures At(cfg, run', w') && Stuck(w', c + 1)
  {
    ConcurrencyAlone(w.db.runs, c, cfg.policy, 0);
    NewIds(cfg, run, w);
    run', w' := OpenSync(cfg, run, w, k, m);
    OneMoreInProgress(w.db.runs, c, w.db.nextRun, w'.db.runs[w.db.nextRun]);
    run', w' := Go(cfg, run', w', Abort);
    run', w' := FinishAs(cfg, run', w', k, false);
  }

  lemma OneMoreInProgress(runs: Runs, c: nat, r: nat, row: JobRun)
    requires InProgressOnly(runs, c) && r !in runs && row.status == InProgress
    ensures InProgressOnly(runs[r := row], c + 1)
  {
    assert runs[r := row].Keys == runs.Keys + {r};
  }

  lemma {:induction false} StuckRuns(cfg: Config, c: nat, a: Address) returns (run: seq<Event>, w: World)
    requires c <= Bound(cfg.policy.concurrent) && ConcurrencyDecides(cfg.policy)
    ensures At(cfg, run, w) && Stuck(w, c)
    decreases c
  {
    if c == 0 {
      run, w := Launch(cfg);
    } else {
      run, w := StuckRuns(cfg, c - 1, a);
      run, w := OneMoreStuck(cfg, run, w, c - 1, a);
    }
  }

  // --- Mailboxes and their syncs ------------------------------------------------------------

  /** The mailboxes b, ..., b + n - 1 are there and no sync row is theirs; their provisioning is parked. */
  ghost predicate Parked(w: World, c: nat, b: nat, n: nat) {
    && w.worker == Idle && w.clock == 0 && InProgressOnly(w.db.runs, c) && AtRest(w.db.jobs, b)
    && w.db.nextBox == b + n && forall m :: b <= m < b + n ==> m in w.db.boxes
  }

  lemma OneMoreParked(cfg: Config, run: seq<Event>, w: World, c: nat, b: nat, n: nat, a: Address)
    returns (run': seq<Event>, w': World)
    requires At(cfg, run, w) && Parked(w, c, b, n)
    ensures At(cfg, run', w') && Parked(w', c, b, n + 1)
  {
    var ok: bool;
    ParkedIsStuck(w, c, b, n);
    run', w' := OneMoreImportBehind(cfg, run, w, c, a);
    run', w', ok := ParkFirst(cfg, run', w', w.db.nextJob);
    ParkedAgain(w, w', c, b, n, a, ok);
  }

  lemma ParkedIsStuck(w: World, c: nat, b: nat, n: nat)
    requires Parked(w, c, b, n)
    ensures Stuck(w, c)
  {
  }

  lemma ParkedAgain(w: World, w': World, c: nat, b: nat, n: nat, a: Address, ok: bool)
    requires Parked(w, c, b, n) && w'.worker == Idle && w'.clock == 0
    requires var db, k := AddMailboxTx(w.db, a.domain, a.local, 0), w.db.nextJob;
      w'.db == db.(jobs := db.jobs[k := FinishedRow(ClaimedRow(db.jobs[k], 0), ok, 0)])
    ensures Parked(w', c, b, n + 1)
  {
    var k, row := w.db.nextJob, NewJob(Provision(w.db.nextBox), 100, 0, 5);
    RestsAgain(w.db.jobs, b, k, row, FinishedRow(ClaimedRow(row, 0), ok, 0));
  }

  lemma RestsAgain(jobs: Jobs, b: nat, k: nat, row: Job, finished: Job)
    requires AtRest(jobs, b) && finished.status != Queued && !finished.work.Sync?
    ensures AtRest(jobs[k := row][k := finished], b)
  {
  }

  /** A provision job that is first in the queue meets no VM2: it ends, or is parked. */
  lemma ParkFirst(cfg: Config, run: seq<Event>, w: World, k: nat) returns (run': seq<Event>, w': World, ok: bool)
    requires At(cfg, run, w) && w.worker == Idle && w.clock == 0 && FirstDue(w.db.jobs, k)
    requires w.db.jobs[k].work.Provision?
    ensures At(cfg, run', w') && w'.worker == Idle && w'.clock == 0
    ensures w'.db == w.db.(jobs := w.db.jobs[k := FinishedRow(ClaimedRow(w.db.jobs[k], 0), ok, 0)])
  {
    run', w' := ClaimFirst(cfg, run, w, k);
    run', w' := WithoutVm2(cfg, run', w', k);
    ok := w'.worker.ok;
    ghost var claimed := w'.db;
    run', w' := FinishAs(cfg, run', w', k, ok);
    LastWriteStays(w.db, claimed, k, ok);
  }

  lemma LastWriteStays(db: Db, claimed: Db, k: nat, ok: bool)
    requires k in db.jobs && claimed == db.(jobs := db.jobs[k := ClaimedRow(db.jobs[k], 0)])
    ensures FinishTx(claimed, k, ok, 0) ==
      db.(jobs := db.jobs[k := FinishedRow(ClaimedRow(db.jobs[k], 0), ok, 0)])
  {
    assert claimed.jobs[k := FinishedRow(claimed.jobs[k], ok, 0)]
        == db.jobs[k := FinishedRow(ClaimedRow(db.jobs[k], 0), ok, 0)];
  }

  lemma WithoutVm2(cfg: Config, run: seq<Event>, w: World, k: nat) returns (run': seq<Event>, w': World)
    requires At(cfg, run, w) && w.worker.Claimed? && w.worker.job == k && w.worker.work.Provision?
    ensures At(cfg, run', w') && w'.worker.Handled? && w' == w.(worker := Handled(k, w'.worker.ok))
  {
    run', w' := Go(cfg, run, w, CreateRemote(false));
  }

  lemma {:induction false} ParkedBoxes(cfg: Config, c: nat, n: nat, a: Address)
    returns (run: seq<Event>, w: World, b: nat)
    requires c <= Bound(cfg.policy.concurrent) && ConcurrencyDecides(cfg.policy)
    ensures At(cfg, run, w) && Parked(w, c, b, n)
    decreases n
  {
    if n == 0 {
      run, w := StuckRuns(cfg, c, a);
      b := w.db.nextBox;
    } else {
      run, w, b := ParkedBoxes(cfg, c, n - 1, a);
      run, w := OneMoreParked(cfg, run, w, c, b, n - 1, a);
    }
  }

  /** From row j on there are k due syncs and nothing else, all of mailboxes below b + k; no other row is queued. */
  ghost predicate SyncsQueued(jobs: Jobs, b: nat, j: nat, k: nat) {
    && (forall i :: i in jobs ==> i < j + k && (jobs[i].work.Sync? ==> jobs[i].work.mailbox < b + k))
    && (forall i :: i in jobs && i < j ==> jobs[i].status != Queued)
    && (forall i :: j <= i < j + k ==> i in jobs && DueSync(jobs[i]))
  }

  predicate DueSync(row: Job) {
    row.work.Sync? && row.priority == 100 && Due(row, 0)
  }

  /** The mailboxes b, ..., b + n - 1 are there, and the first k of them have their sync queued. */
  ghost predicate Requested(w: World, c: nat, b: nat, n: nat, j: nat, k: nat) {
    && w.worker == Idle && w.clock == 0 && InProgressOnly(w.db.runs, c)
    && (forall m :: b <= m < b + n ==> m in w.db.boxes)
    && w.db.nextJob == j + k && SyncsQueued(w.db.jobs, b, j, k)
  }

  lemma NextIsFree(jobs: Jobs, b: nat, j: nat, k: nat)
    requires SyncsQueued(jobs, b, j, k)
    ensures !HasPendingSync(jobs, b + k)
  {
  }

  lemma OneMoreSync(db: Db, b: nat, j: nat, k: nat)
    requires SyncsQueued(db.jobs, b, j, k) && db.nextJob == j + k
    ensures var db' := AddJob(db, QueuedSync(b + k, Manual, 0));
      SyncsQueued(db'.jobs, b, j, k + 1) && db' == db.(jobs := db'.jobs, nextJob := j + k + 1)
  {
  }

  lemma OneMoreRequest(cfg: Config, run: seq<Event>, w: World, c: nat, b: nat, n: nat, j: nat, k: nat)
    returns (run': seq<Event>, w': World)
    requires At(cfg, run, w) && Requested(w, c, b, n, j, k) && k < n
    ensures At(cfg, run', w') && Requested(w', c, b, n, j, k + 1)
  {
    Requestable(w, c, b, n, j, k);
    run', w' := Request(cfg, run, w, b + k);
    RequestAdds(w, c, b, n, j, k);
  }

  lemma Requestable(w: World, c: nat, b: nat, n: nat, j: nat, k: nat)
    requires Requested(w, c, b, n, j, k) && k < n
    ensures w.clock == 0 && b + k in w.db.boxes && !HasPendingSync(w.db.jobs, b + k)
  {
    NextIsFree(w.db.jobs, b, j, k);
  }

  lemma RequestAdds(w: World, c: nat, b: nat, n: nat, j: nat, k: nat)
    requires Requested(w, c, b, n, j, k) && k < n
    ensures Requested(w.(db := AddJob(w.db, QueuedSync(b + k, Manual, 0))), c, b, n, j, k + 1)
  {
    OneMoreSync(w.db, b, j, k);
  }

  lemma Request(cfg: Config, run: seq<Event>, w: World, m: nat) returns (run': seq<Event>, w': World)
    requires At(cfg, run, w) && w.clock == 0 && m in w.db.boxes && !HasPendingSync(w.db.jobs, m)
    ensures At(cfg, run', w') && w' == w.(db := AddJob(w.db, QueuedSync(m, Manual, 0)))
  {
    run', w' := Go(cfg, run, w, SyncNow(0, m));
  }

  lemma {:induction false} Requests(cfg: Config, c: nat, n: nat, k: nat, a: Address)
    returns (run: seq<Event>, w: World, b: nat, j: nat)
    requires c <= Bound(cfg.policy.concurrent) && ConcurrencyDecides(cfg.policy) && k <= n
    ensures At(cfg, run, w) && Requested(w, c, b, n, j, k)
    decreases k
  {
    if k == 0 {
      run, w, b := ParkedBoxes(cfg, c, n, a);
      j := w.db.nextJob;
      NewIds(cfg, run, w);
    } else {
      run, w, b, j := Requests(cfg, c, n, k - 1, a);
      run, w := OneMoreRequest(cfg, run, w, c, b, n, j, k - 1);
    }
  }

  lemma {:induction false} IntervalSize(s: set<nat>, j: nat, n: nat)
    requires forall i :: i in s <==> j <= i < j + n
    ensures |s| == n
    decreases n
  {
    if n == 0 {
      assert s == {};
    } else {
      IntervalSize(s - {j + n - 1}, j, n - 1);
    }
  }

  /** For every n, a run to a due provision job with n due syncs ahead of it, refused at any time. */
  lemma Crowd(cfg: Config, n: nat, a: Address) returns (run: seq<Event>, w: World, p: nat)
    requires ConcurrencyDecides(cfg.policy)
    ensures At(cfg, run, w) && w.worker == Idle && w.clock == 0
    ensures AllDue(w, p, 0) && w.db.jobs[p].work.Provision? && |QueuedAhead(w.db.jobs, p)| == n
    ensures forall t :: !MayStart(w.db.runs, cfg.policy, t)
  {
    var c, j, b: nat := Bound(cfg.policy.concurrent), 0, 0;
    run, w, b, j := Requests(cfg, c, n, n, a);
    NewIds(cfg, run, w);
    p := w.db.nextJob;
    run, w := Import(cfg, run, w, a);
    IntervalSize(QueuedAhead(w.db.jobs, p), j, n);
    forall t ensures !MayStart(w.db.runs, cfg.policy, t) {
      ConcurrencyAlone(w.db.runs, c, cfg.policy, t);
    }
  }

  // --- Polling in vain ------------------------------------------------------------------------

  lemma {:induction false} Polls(cfg: Config, w: World, p: nat, at: int, passes: nat) returns (polls: seq<Event>)
    requires Crowded(w, p, at) && w.worker.Idle? && w.clock <= at
    requires forall t :: !MayStart(w.db.runs, cfg.policy, t)
    ensures Legal(cfg, w, polls) && Held(cfg, w, polls, p)
    ensures Spaced(at, ClaimTimes(polls)) && |ClaimTimes(polls)| == passes
    ensures p in After(cfg, w, polls).db.jobs && After(cfg, w, polls).db.jobs[p] == w.db.jobs[p]
    decreases passes
  {
    polls := [];
    if passes > 0 {
      var w1 := Next(cfg, w, Claim(at));
      CrowdedPass(cfg, w, p, at, at);
      var rest := Polls(cfg, w1, p, at + 5 * SECOND, passes - 1);
      polls := [Claim(at)] + rest;
      Prepend(cfg, w, Claim(at), rest);
      OnePollMore(at, rest);
    }
  }

  lemma OnePollMore(at: int, rest: seq<Event>)
    requires Spaced(at + 5 * SECOND, ClaimTimes(rest))
    ensures ([Claim(at)] + rest)[1..] == rest
    ensures ClaimTimes([Claim(at)] + rest) == [at] + ClaimTimes(rest)
    ensures Spaced(at, [at] + ClaimTimes(rest))
  {
    assert ([at] + ClaimTimes(rest))[1..] == ClaimTimes(rest);
  }

  /** Under every policy in which the concurrency limit decides, for every n from thirty on, a run from the
      empty portal puts a provision job behind n syncs; and after any number of polls it is still queued. */
  lemma StarvedFromTheStart(cfg: Config, n: nat, passes: nat, a: Address)
    returns (run: seq<Event>, w: World, p: nat, polls: seq<Event>)
    requires ConcurrencyDecides(cfg.policy) && n >= 30
    ensures At(cfg, run, w) && AllDue(w, p, 0) && |QueuedAhead(w.db.jobs, p)| == n && w.db.jobs[p].work.Provision?
    ensures Legal(cfg, w, polls) && Held(cfg, w, polls, p)
    ensures Spaced(0, ClaimTimes(polls)) && |ClaimTimes(polls)| == passes
    ensures p in After(cfg, w, polls).db.jobs && !Taken(After(cfg, w, polls), p)
  {
    run, w, p := Crowd(cfg, n, a);
    AllDueIsCrowded(w, p, 0);
    polls := Polls(cfg, w, p, 0, passes);
  }
}
