/** System updates started from the panel: one running row per host, and what a restart does to that. */
module SystemUpdates {
  import opened Wrappers
  import opened Tables
  import opened Claiming
  import opened Transactions
  import opened Protocol
  import opened Invariants
  import opened Guarantees

  predicate ActiveJob(s: Status) {
    s == Queued || s == Running
  }

  predicate RunningRow(db: Db, u: nat) {
    u in db.updates && db.updates[u].status == InProgress
  }

  /** Row i of the queue is the job of update row u. */
  predicate JobOf(jobs: Jobs, i: nat, u: nat) {
    i in jobs && jobs[i].work.SystemUpdate? && jobs[i].work.run == u
  }

  ghost predicate HostExclusive(db: Db) {
    forall u: nat, v: nat :: RunningRow(db, u) && RunningRow(db, v) && db.updates[u].host == db.updates[v].host ==>
      u == v
  }

  ghost predicate JobsMatchRows(w: World) {
    && (forall i: nat, j: nat, u: nat :: JobOf(w.db.jobs, i, u) && JobOf(w.db.jobs, j, u) ==> i == j)
    && (forall i: nat, u: nat :: JobOf(w.db.jobs, i, u) ==>
          u < w.db.nextUpdate && (RunningRow(w.db, u)
            <==> ActiveJob(w.db.jobs[i].status) && !(w.worker.Handled? && w.worker.job == i)))
    && (forall u: nat :: RunningRow(w.db, u) ==> exists i: nat :: JobOf(w.db.jobs, i, u))
    && (w.worker.Busy() && !w.worker.Handled? && HoldsUpdate(w.worker) ==> w.worker.job in w.db.jobs)
  }

  predicate HoldsUpdate(worker: Worker) {
    worker.Updating? || (worker.Claimed? && worker.work.SystemUpdate?)
  }

  /** Neither a restart of the worker nor a failed write inside the update handler. */
  predicate Undisturbed(w: World, e: Event) {
    !e.Crash? && !e.Reap? && !(e.Abort? && HoldsUpdate(w.worker))
  }

  ghost predicate UndisturbedRun(cfg: Config, w: World, run: seq<Event>)
    requires Legal(cfg, w, run)
    decreases |run|
  {
    run == [] || (Undisturbed(w, run[0]) && UndisturbedRun(cfg, Next(cfg, w, run[0]), run[1..]))
  }

  // --- Without restarts -----------------------------------------------------------

  lemma ExclusiveStep(cfg: Config, w: World, e: Event)
    requires Enabled(w, e) && Ids(w) && OneRunning(w) && Undisturbed(w, e)
    requires HostExclusive(w.db) && JobsMatchRows(w)
    ensures HostExclusive(Next(cfg, w, e).db)
  {
    if e.Tick? {
      TickFrame(w.db, cfg.interval, e.now, e.rows);
    } else if e.OpenUpdate? {
      ExclusiveOpening(cfg, w, e);
    }
  }

  lemma ExclusiveOpening(cfg: Config, w: World, e: Event)
    requires Enabled(w, e) && OneRunning(w) && e.OpenUpdate? && HostExclusive(w.db) && JobsMatchRows(w)
    ensures HostExclusive(Next(cfg, w, e).db)
  {
    assert JobOf(w.db.jobs, w.worker.job, w.worker.work.run);
  }

  lemma JobsMatchTick(cfg: Config, w: World, e: Event)
    requires Enabled(w, e) && e.Tick? && Ids(w) && JobsMatchRows(w)
    ensures JobsMatchRows(Next(cfg, w, e))
  {
    TickSpecification(w.db, cfg.interval, e.now, e.rows);
    JobsMatchFrame(w, Next(cfg, w, e));
  }

  lemma JobsMatchStart(cfg: Config, w: World, e: Event)
    requires Enabled(w, e) && e.StartUpdate? && Ids(w) && OneRunning(w) && JobsMatchRows(w)
    ensures JobsMatchRows(Next(cfg, w, e))
  {
    var w' := Next(cfg, w, e);
    if w'.db != w.db {
      var u := w.db.nextUpdate;
      assert forall i: nat, v: nat ::
        JobOf(w'.db.jobs, i, v) <==> JobOf(w.db.jobs, i, v) || (i == w.db.nextJob && v == u);
      assert forall v: nat :: RunningRow(w'.db, v) <==> RunningRow(w.db, v) || v == u;
      assert JobOf(w'.db.jobs, w.db.nextJob, u);
      forall v: nat | RunningRow(w'.db, v) ensures exists i: nat :: JobOf(w'.db.jobs, i, v) {
        if v != u {
          var i: nat :| JobOf(w.db.jobs, i, v);
          assert JobOf(w'.db.jobs, i, v);
        }
      }
    }
  }

  lemma JobsMatchFrame(w: World, w': World)
    requires JobsMatchRows(w) && w'.db.updates == w.db.updates && w'.db.nextUpdate == w.db.nextUpdate
    requires forall i: nat, u: nat :: JobOf(w'.db.jobs, i, u) <==> JobOf(w.db.jobs, i, u)
    requires forall i: nat, u: nat :: JobOf(w'.db.jobs, i, u) && JobOf(w.db.jobs, i, u) ==>
      (ActiveJob(w'.db.jobs[i].status) && !(w'.worker.Handled? && w'.worker.job == i)
       <==> ActiveJob(w.db.jobs[i].status) && !(w.worker.Handled? && w.worker.job == i))
    requires w'.worker.Busy() && !w'.worker.Handled? && HoldsUpdate(w'.worker) ==> w'.worker.job in w'.db.jobs
    ensures JobsMatchRows(w')
  {
    forall u: nat | RunningRow(w'.db, u) ensures exists i: nat :: JobOf(w'.db.jobs, i, u) {
      assert RunningRow(w.db, u);
      var i: nat :| JobOf(w.db.jobs, i, u);
      assert JobOf(w'.db.jobs, i, u);
    }
  }

  lemma JobsMatchHandler(cfg: Config, w: World, e: Event)
    requires Enabled(w, e) && (e.OpenUpdate? || e.CloseUpdate?) && Ids(w) && OneRunning(w) && JobsMatchRows(w)
    ensures JobsMatchRows(Next(cfg, w, e))
  {
    var w' := Next(cfg, w, e);
    var u := if e.OpenUpdate? then w.worker.work.run else w.worker.run;
    assert JobOf(w.db.jobs, w.worker.job, u);
    forall v: nat | RunningRow(w'.db, v) ensures exists i: nat :: JobOf(w'.db.jobs, i, v) {
      if v == u {
        assert JobOf(w'.db.jobs, w.worker.job, u);
      } else {
        assert RunningRow(w.db, v);
        var i: nat :| JobOf(w.db.jobs, i, v);
        assert JobOf(w'.db.jobs, i, v);
      }
    }
  }

  lemma JobsMatchOutside(cfg: Config, w: World, e: Event)
    requires Enabled(w, e) && FromOutside(e) && Ids(w) && OneRunning(w) && JobsMatchRows(w)
    ensures JobsMatchRows(Next(cfg, w, e))
  {
    if e.Tick? {
      JobsMatchTick(cfg, w, e);
    } else if e.StartUpdate? {
      JobsMatchStart(cfg, w, e);
    } else {
      JobsMatchFrame(w, Next(cfg, w, e));
    }
  }

  lemma JobsMatchClaim(cfg: Config, w: World, e: Event)
    requires Enabled(w, e) && e.Claim? && Ids(w) && OneRunning(w) && UpdatesOnce(w) && JobsMatchRows(w)
    ensures JobsMatchRows(Next(cfg, w, e))
  {
    ClaimFacts(cfg, w, e.now);
    JobsMatchFrame(w, Next(cfg, w, e));
  }

  lemma JobsMatchWorker(cfg: Config, w: World, e: Event)
    requires Enabled(w, e) && !FromOutside(e) && Undisturbed(w, e) && Ids(w) && OneRunning(w)
      && UpdatesOnce(w) && JobsMatchRows(w)
    ensures JobsMatchRows(Next(cfg, w, e))
  {
    if e.OpenUpdate? || e.CloseUpdate? {
      JobsMatchHandler(cfg, w, e);
    } else if e.Claim? {
      JobsMatchClaim(cfg, w, e);
    } else {
      JobsMatchFrame(w, Next(cfg, w, e));
    }
  }

  lemma {:induction false} UndisturbedKeeps(cfg: Config, w: World, run: seq<Event>)
    requires Inv(cfg, w) && Legal(cfg, w, run) && UndisturbedRun(cfg, w, run)
    requires HostExclusive(w.db) && JobsMatchRows(w)
    ensures Inv(cfg, After(cfg, w, run)) && HostExclusive(After(cfg, w, run).db) && JobsMatchRows(After(cfg, w, run))
    decreases |run|
  {
    if run != [] {
      ExclusiveStep(cfg, w, run[0]);
      if FromOutside(run[0]) {
        JobsMatchOutside(cfg, w, run[0]);
      } else {
        JobsMatchWorker(cfg, w, run[0]);
      }
      InvStep(cfg, w, run[0]);
      UndisturbedKeeps(cfg, Next(cfg, w, run[0]), run[1..]);
    }
  }

  function ActiveJobsOf(jobs: Jobs, u: nat): set<nat> {
    set i | i in jobs && JobOf(jobs, i, u) && ActiveJob(jobs[i].status)
  }

  lemma ExclusiveCounts(w: World, host: Host, u: nat)
    requires HostExclusive(w.db) && JobsMatchRows(w)
    ensures |RunningRows(w.db.updates, host)| <= 1
    ensures RunningRow(w.db, u) ==> |ActiveJobsOf(w.db.jobs, u)| == 1
  {
    AtMostOne(RunningRows(w.db.updates, host));
    if RunningRow(w.db, u) {
      var i: nat :| JobOf(w.db.jobs, i, u);
      assert ActiveJobsOf(w.db.jobs, u) == {i};
    }
  }

  /** The empty portal with its worker just started. */
  ghost function Launched(cfg: Config, now: nat): World {
    Next(cfg, START, Reap(now))
  }

  lemma LaunchedInv(cfg: Config, now: nat)
    ensures Inv(cfg, Launched(cfg, now))
  {
  }

  lemma LaunchedExclusive(cfg: Config, now: nat)
    ensures HostExclusive(Launched(cfg, now).db) && JobsMatchRows(Launched(cfg, now))
  {
  }

  /** From the worker's first start, with no restart and no failed write: each host has at most one running
      update, and each running update has exactly one queued or running job. */
  lemma OneUpdatePerHost(cfg: Config, now: nat, run: seq<Event>, host: Host, u: nat)
    requires Legal(cfg, Launched(cfg, now), run) && UndisturbedRun(cfg, Launched(cfg, now), run)
    ensures |RunningRows(After(cfg, Launched(cfg, now), run).db.updates, host)| <= 1
    ensures RunningRow(After(cfg, Launched(cfg, now), run).db, u) ==>
      |ActiveJobsOf(After(cfg, Launched(cfg, now), run).db.jobs, u)| == 1
  {
    LaunchedInv(cfg, now);
    LaunchedExclusive(cfg, now);
    UndisturbedKeeps(cfg, Launched(cfg, now), run);
    ExclusiveCounts(After(cfg, Launched(cfg, now), run), host, u);
  }

  // --- With restarts ----------------------------------------------------------------

  /** The exact step that puts two running updates on a host: the worker opens a row that the reaper had
      already closed while another update of that host is running. */
  lemma OverlapExactly(cfg: Config, w: World, e: Event)
    requires Enabled(w, e) && Ids(w) && OneRunning(w) && HostExclusive(w.db)
    ensures HostExclusive(Next(cfg, w, e).db) <==>
      !(&& e.OpenUpdate? && w.worker.work.run in w.db.updates && !RunningRow(w.db, w.worker.work.run)
        && HostBusy(w.db.updates, w.db.updates[w.worker.work.run].host))
  {
    if e.Tick? {
      TickSpecification(w.db, cfg.interval, e.now, e.rows);
    } else if e.OpenUpdate? && w.worker.work.run in w.db.updates {
      var w', u := Next(cfg, w, e), w.worker.work.run;
      var host := w.db.updates[u].host;
      if !RunningRow(w.db, u) && HostBusy(w.db.updates, host) {
        var v :| v in w.db.updates && w.db.updates[v].host == host && w.db.updates[v].status == InProgress;
        assert RunningRow(w'.db, v) && RunningRow(w'.db, u);
      }
    }
  }

  /** Two requests for VM1, the first made while the worker was down. */
  ghost predicate OverlapReady(w: World) {
    && w.worker == Idle && w.clock == 0 && w.db.jobs.Keys == {0, 1}
    && w.db.jobs[0] == NewJob(SystemUpdate(0, Vm1), 10, 0, 1) && w.db.jobs[1] == NewJob(SystemUpdate(1, Vm1), 10, 0, 1)
    && w.db.updates == map[0 := UpdateRun(Vm1, Failure), 1 := UpdateRun(Vm1, InProgress)]
  }

  lemma OverlapFollows(cfg: Config, w: World)
    requires OverlapReady(w)
    ensures Legal(cfg, w, [Claim(0), OpenUpdate])
    ensures RunningRows(After(cfg, w, [Claim(0), OpenUpdate]).db.updates, Vm1) == {0, 1}
  {
    ClaimsFirstOfTwo(cfg, w);
    var w1 := Next(cfg, w, Claim(0));
    assert w1.worker == Claimed(0, SystemUpdate(0, Vm1));
    var w2 := Next(cfg, w1, OpenUpdate);
    TwoSteps(cfg, w, Claim(0), OpenUpdate);
  }

  lemma OverlapPrepared(cfg: Config) returns (w: World)
    ensures OverlapReady(w)
    ensures Legal(cfg, START, [StartUpdate(0, Vm1), Reap(0), StartUpdate(0, Vm1)])
    ensures w == After(cfg, START, [StartUpdate(0, Vm1), Reap(0), StartUpdate(0, Vm1)])
  {
    var w1 := Next(cfg, START, StartUpdate(0, Vm1));
    assert w1.db.updates == map[0 := UpdateRun(Vm1, InProgress)];
    var w2 := Next(cfg, w1, Reap(0));
    assert w2.db.updates == map[0 := UpdateRun(Vm1, Failure)];
    assert !HostBusy(w2.db.updates, Vm1);
    w := Next(cfg, w2, StartUpdate(0, Vm1));
    Prepend3(cfg, START, StartUpdate(0, Vm1), Reap(0), StartUpdate(0, Vm1), []);
    var run := [StartUpdate(0, Vm1), Reap(0), StartUpdate(0, Vm1)];
    assert run + [] == run;
  }

  lemma Prepend3(cfg: Config, w: World, a: Event, b: Event, c: Event, rest: seq<Event>)
    requires Enabled(w, a) && Enabled(Next(cfg, w, a), b) && Enabled(Next(cfg, Next(cfg, w, a), b), c)
    requires Legal(cfg, Next(cfg, Next(cfg, Next(cfg, w, a), b), c), rest)
    ensures Legal(cfg, w, [a, b, c] + rest)
    ensures After(cfg, w, [a, b, c] + rest) == After(cfg, Next(cfg, Next(cfg, Next(cfg, w, a), b), c), rest)
  {
    Prepend(cfg, Next(cfg, Next(cfg, w, a), b), c, rest);
    Prepend(cfg, Next(cfg, w, a), b, [c] + rest);
    Prepend(cfg, w, a, [b] + ([c] + rest));
    assert [a, b, c] + rest == [a] + ([b] + ([c] + rest));
  }

  /** It does happen: an update requested while the worker is down is closed by the reaper but stays queued;
      a second request is accepted; the worker then reopens the first. */
  lemma {:induction false} OverlapHappens(cfg: Config)
    ensures var before, after := [StartUpdate(0, Vm1), Reap(0), StartUpdate(0, Vm1)], [Claim(0), OpenUpdate];
            && Legal(cfg, START, before) && Legal(cfg, After(cfg, START, before), after)
            && RunningRows(After(cfg, After(cfg, START, before), after).db.updates, Vm1) == {0, 1}
  {
    var w := OverlapPrepared(cfg);
    OverlapFollows(cfg, w);
  }

  lemma ClaimsFirstOfTwo(cfg: Config, w: World)
    requires w.db.jobs.Keys == {0, 1}
    requires w.db.jobs[0] == NewJob(SystemUpdate(0, Vm1), 10, 0, 1)
    requires w.db.jobs[1] == NewJob(SystemUpdate(1, Vm1), 10, 0, 1)
    ensures ClaimTx(w.db, cfg.policy, 0).1 == Some(0)
  {
    FirstDueIsClaimed(cfg, w, 0, 0);
  }

  /** A due row that no due row precedes, and that is no sync, is the one claimed. */
  lemma FirstDueIsClaimed(cfg: Config, w: World, now: int, i: nat)
    requires i in w.db.jobs && Due(w.db.jobs[i], now) && !w.db.jobs[i].work.Sync?
    requires forall j :: j in w.db.jobs && Due(w.db.jobs[j], now) && j != i ==> !Before(w.db.jobs, j, i)
    ensures ClaimTx(w.db, cfg.policy, now).1 == Some(i)
  {
    var throttled := !Throttle.MayStart(w.db.runs, cfg.policy, now);
    ClaimSpecification(w.db.jobs, throttled, now);
    assert Ahead(w.db.jobs, DueRows(w.db.jobs, now), i) == {};
    assert i in FirstFive(w.db.jobs, now) && !Skippable(w.db.jobs[i], throttled);
  }

  // --- Crash loops --------------------------------------------------------------------

  /** A worker that keeps dying while it holds a provision job. */
  function CrashLoop(now: int, rounds: nat): seq<Event> {
    if rounds == 0 then [] else [Claim(now), Crash, Reap(now)] + CrashLoop(now, rounds - 1)
  }

  ghost predicate SoleProvision(w: World, now: int) {
    && w.worker.Idle? && w.clock <= now
    && w.db.jobs.Keys == {0} && w.db.jobs[0].work.Provision? && Due(w.db.jobs[0], now)
  }

  /** Claim, crash and restart lead from w to w'. */
  ghost predicate RoundTo(cfg: Config, w: World, now: int, w': World) {
    && Enabled(w, Claim(now)) && Enabled(Next(cfg, w, Claim(now)), Crash)
    && Enabled(Next(cfg, Next(cfg, w, Claim(now)), Crash), Reap(now))
    && w' == Next(cfg, Next(cfg, Next(cfg, w, Claim(now)), Crash), Reap(now))
  }

  lemma CrashRound(cfg: Config, w: World, now: int) returns (w': World)
    requires SoleProvision(w, now)
    ensures RoundTo(cfg, w, now, w') && OneMoreAttempt(w, w', now)
  {
    FirstDueIsClaimed(cfg, w, now, 0);
    ClaimFacts(cfg, w, now);
    w' := Next(cfg, Next(cfg, Next(cfg, w, Claim(now)), Crash), Reap(now));
  }

  ghost predicate OneMoreAttempt(w: World, w': World, now: int)
    requires SoleProvision(w, now)
  {
    && SoleProvision(w', now) && w'.db.jobs[0].attempts == w.db.jobs[0].attempts + 1
    && w'.db.jobs[0].maxAttempts == w.db.jobs[0].maxAttempts
  }

  /** One more round before `rounds` others. */
  lemma CrashRoundFirst(cfg: Config, w: World, w': World, now: int, rounds: nat)
    requires SoleProvision(w, now) && RoundTo(cfg, w, now, w') && OneMoreAttempt(w, w', now)
    requires Loops(cfg, w', now, rounds)
    ensures Loops(cfg, w, now, rounds + 1)
  {
    Prepend3(cfg, w, Claim(now), Crash, Reap(now), CrashLoop(now, rounds));
  }

  ghost predicate Loops(cfg: Config, w: World, now: int, rounds: nat)
    requires SoleProvision(w, now)
  {
    && Legal(cfg, w, CrashLoop(now, rounds))
    && var w' := After(cfg, w, CrashLoop(now, rounds));
       && SoleProvision(w', now) && w'.db.jobs[0].attempts == w.db.jobs[0].attempts + rounds
       && w'.db.jobs[0].maxAttempts == w.db.jobs[0].maxAttempts
  }

  lemma NoRounds(cfg: Config, w: World, now: int)
    requires SoleProvision(w, now)
    ensures Loops(cfg, w, now, 0)
  {
  }

  lemma {:induction false} CrashLoops(cfg: Config, w: World, now: int, rounds: nat)
    requires SoleProvision(w, now)
    ensures Loops(cfg, w, now, rounds)
    decreases rounds
  {
    if rounds == 0 {
      NoRounds(cfg, w, now);
    } else {
      var w' := CrashRound(cfg, w, now);
      CrashLoops(cfg, w', now, rounds - 1);
      CrashRoundFirst(cfg, w, w', now, rounds - 1);
    }
  }

  /** The reaper requeues whatever `attempts` says, so `attempts <= max_attempts` fails without bound. */
  lemma CrashLoopAttempts(cfg: Config, w: World, now: int, rounds: nat)
    requires SoleProvision(w, now)
    ensures Legal(cfg, w, CrashLoop(now, rounds))
    ensures var w' := After(cfg, w, CrashLoop(now, rounds));
      && SoleProvision(w', now) && w'.db.jobs[0].attempts == w.db.jobs[0].attempts + rounds
      && w'.db.jobs[0].maxAttempts == w.db.jobs[0].maxAttempts
  {
    CrashLoops(cfg, w, now, rounds);
  }

  lemma CrashLoopReachable(cfg: Config, a: Address)
    ensures Legal(cfg, START, [Reap(0), AddMailbox(0, a)])
    ensures var w := After(cfg, START, [Reap(0), AddMailbox(0, a)]);
            SoleProvision(w, 0) && w.db.jobs[0].maxAttempts == 5
  {
    var w1 := Next(cfg, START, Reap(0));
    Prepend(cfg, w1, AddMailbox(0, a), []);
    Prepend(cfg, START, Reap(0), [AddMailbox(0, a)]);
    assert [AddMailbox(0, a)] + [] == [AddMailbox(0, a)];
    assert [Reap(0)] + [AddMailbox(0, a)] == [Reap(0), AddMailbox(0, a)];
  }
}
