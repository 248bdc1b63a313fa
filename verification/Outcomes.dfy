/** What a queue row's status says about its attempts, over whole runs. */
module Outcomes {
  import opened Tables
  import opened Transactions
  import opened Protocol
  import opened Invariants
  import opened Guarantees

  /** Given up only when the attempts are used up, parked only while some are left, settled only after a claim. */
  predicate StatusFits(j: Job) {
    match j.status
    case Queued => true
    case Running => j.attempts > 0
    case Done => j.attempts > 0
    case Failed => j.attempts > 0 && j.attempts >= j.maxAttempts
    case Retrying => 0 < j.attempts < j.maxAttempts
  }

  ghost predicate AllFit(w: World) {
    forall i :: i in w.db.jobs ==> StatusFits(w.db.jobs[i])
  }

  lemma AllFitOutside(cfg: Config, w: World, e: Event)
    requires Enabled(w, e) && FromOutside(e) && Ids(w) && AllFit(w)
    ensures AllFit(Next(cfg, w, e))
  {
    if e.Tick? {
      TickSpecification(w.db, cfg.interval, e.now, e.rows);
    }
  }

  lemma AllFitClaim(cfg: Config, w: World, e: Event)
    requires Enabled(w, e) && e.Claim? && Ids(w) && AllFit(w)
    ensures AllFit(Next(cfg, w, e))
  {
    ClaimFacts(cfg, w, e.now);
  }

  lemma AllFitStep(cfg: Config, w: World, e: Event)
    requires Enabled(w, e) && Ids(w) && OneRunning(w) && UpdatesOnce(w) && AllFit(w)
    ensures AllFit(Next(cfg, w, e))
  {
    if FromOutside(e) {
      AllFitOutside(cfg, w, e);
    } else if e.Claim? {
      AllFitClaim(cfg, w, e);
    }
  }

  lemma {:induction false} AllFitAlways(cfg: Config, w: World, run: seq<Event>)
    requires Inv(cfg, w) && AllFit(w) && Legal(cfg, w, run)
    ensures AllFit(After(cfg, w, run))
    decreases |run|
  {
    if run != [] {
      AllFitStep(cfg, w, run[0]);
      InvStep(cfg, w, run[0]);
      AllFitAlways(cfg, Next(cfg, w, run[0]), run[1..]);
    }
  }

  /** In every reachable state: a `failed` row has used up its attempts, a `retrying` row has some left, and a
      system update is never `retrying`. */
  lemma StatusTellsAttempts(cfg: Config, w: World, i: nat)
    requires Reachable(cfg, w) && i in w.db.jobs
    ensures w.db.jobs[i].status == Failed ==> w.db.jobs[i].attempts >= w.db.jobs[i].maxAttempts
    ensures w.db.jobs[i].status == Retrying ==> 0 < w.db.jobs[i].attempts < w.db.jobs[i].maxAttempts
    ensures w.db.jobs[i].work.SystemUpdate? ==> w.db.jobs[i].status != Retrying
    ensures w.db.jobs[i].status != Queued ==> w.db.jobs[i].attempts > 0
  {
    var run :| Legal(cfg, START, run) && After(cfg, START, run) == w;
    InvStart(cfg);
    AllFitAlways(cfg, START, run);
    ReachableInv(cfg, w);
  }

  // --- Attempts and requeues ------------------------------------------------------------------

  /** Does this step put row i back into the queue? */
  ghost predicate RequeuedBy(w: World, e: Event, i: nat) {
    e.Reap? && i in w.db.jobs && w.db.jobs[i].status == Running && !w.db.jobs[i].work.SystemUpdate?
  }

  /** How often the reaper requeued row i over a run. */
  ghost function Requeues(cfg: Config, w: World, run: seq<Event>, i: nat): nat
    requires Legal(cfg, w, run)
    decreases |run|
  {
    if run == [] then 0
    else (if RequeuedBy(w, run[0], i) then 1 else 0) + Requeues(cfg, Next(cfg, w, run[0]), run[1..], i)
  }

  function PastQueue(j: Job): nat {
    if j.status == Queued then 0 else 1
  }

  /** Attempts spent in earlier rounds; 0 for a row that does not exist yet. */
  function Spent(jobs: Jobs, i: nat): int {
    if i in jobs then jobs[i].attempts - PastQueue(jobs[i]) else 0
  }

  lemma SpentOutside(cfg: Config, w: World, e: Event, i: nat)
    requires Enabled(w, e) && FromOutside(e) && Ids(w) && (i in w.db.jobs || i >= w.db.nextJob)
    ensures w.db.nextJob <= Next(cfg, w, e).db.nextJob
    ensures i in Next(cfg, w, e).db.jobs || i >= w.db.nextJob ==>
      Spent(Next(cfg, w, e).db.jobs, i) == Spent(w.db.jobs, i)
  {
    if e.Tick? {
      TickSpecification(w.db, cfg.interval, e.now, e.rows);
    }
  }

  lemma SpentClaim(cfg: Config, w: World, e: Event, i: nat)
    requires Enabled(w, e) && e.Claim? && (i in w.db.jobs || i >= w.db.nextJob)
    ensures w.db.nextJob <= Next(cfg, w, e).db.nextJob
    ensures Spent(Next(cfg, w, e).db.jobs, i) == Spent(w.db.jobs, i)
  {
    ClaimFacts(cfg, w, e.now);
  }

  lemma SpentStep(cfg: Config, w: World, e: Event, i: nat)
    requires Enabled(w, e) && Ids(w) && OneRunning(w) && (i in w.db.jobs || i >= w.db.nextJob)
    ensures w.db.nextJob <= Next(cfg, w, e).db.nextJob
    ensures i in Next(cfg, w, e).db.jobs || i >= w.db.nextJob ==>
      Spent(Next(cfg, w, e).db.jobs, i) == Spent(w.db.jobs, i) + if RequeuedBy(w, e, i) then 1 else 0
  {
    if FromOutside(e) {
      SpentOutside(cfg, w, e, i);
    } else if e.Claim? {
      SpentClaim(cfg, w, e, i);
    }
  }

  lemma {:induction false} SpentOverRun(cfg: Config, w: World, run: seq<Event>, i: nat)
    requires Inv(cfg, w) && Legal(cfg, w, run) && (i in w.db.jobs || i >= w.db.nextJob)
    requires i in After(cfg, w, run).db.jobs
    ensures Spent(After(cfg, w, run).db.jobs, i) == Spent(w.db.jobs, i) + Requeues(cfg, w, run, i)
    decreases |run|
  {
    if run != [] {
      var w1 := Next(cfg, w, run[0]);
      InvStep(cfg, w, run[0]);
      SpentStep(cfg, w, run[0], i);
      if i !in w1.db.jobs && i < w1.db.nextJob {
        JobIdsNotReused(cfg, w1, run[1..], i);
      } else {
        SpentOverRun(cfg, w1, run[1..], i);
      }
    }
  }

  /** Over every run: a row's attempts are the times the reaper requeued it, and one more once it has left the
      queue for good or is running. So they stay within `max_attempts` exactly while those requeues do. */
  lemma AttemptsExactly(cfg: Config, run: seq<Event>, i: nat)
    requires Legal(cfg, START, run) && i in After(cfg, START, run).db.jobs
    ensures var j := After(cfg, START, run).db.jobs[i];
      && j.attempts == Requeues(cfg, START, run, i) + PastQueue(j)
      && (j.attempts <= j.maxAttempts <==> Requeues(cfg, START, run, i) + PastQueue(j) <= j.maxAttempts)
  {
    InvStart(cfg);
    SpentOverRun(cfg, START, run, i);
  }

  /** No restart of the worker after its first start. */
  predicate NoRestart(run: seq<Event>) {
    forall k :: 0 < k < |run| ==> !run[k].Reap?
  }

  lemma {:induction false} NoReapNoRequeue(cfg: Config, w: World, run: seq<Event>, i: nat)
    requires Legal(cfg, w, run) && forall k :: 0 <= k < |run| ==> !run[k].Reap?
    ensures Requeues(cfg, w, run, i) == 0
    decreases |run|
  {
    if run != [] {
      NoReapNoRequeue(cfg, Next(cfg, w, run[0]), run[1..], i);
    }
  }

  /** Without a restart every row is claimed at most once, whatever its `max_attempts`. */
  lemma OnceWithoutRestart(cfg: Config, run: seq<Event>, i: nat)
    requires Legal(cfg, START, run) && NoRestart(run) && i in After(cfg, START, run).db.jobs
    ensures After(cfg, START, run).db.jobs[i].attempts <= 1
  {
    AttemptsExactly(cfg, run, i);
    if run != [] {
      NoReapNoRequeue(cfg, Next(cfg, START, run[0]), run[1..], i);
    }
  }
}
