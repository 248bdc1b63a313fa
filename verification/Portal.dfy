/** The same transactions in the source's own form: methods that update tables in place, each proved equal
    to the function the transition system uses. What a SELECT returns is an in-parameter: the database
    answers it, in an order that is only what the query fixes. */
module Portal {
  import opened Wrappers
  import opened Tables
  import opened Throttle
  import opened Claiming
  import opened Transactions

  /** `rows` is an answer to a query for `s` without ORDER BY. */
  ghost predicate Lists(rows: seq<nat>, s: set<nat>) {
    Distinct(rows) && forall i :: i in rows <==> i in s
  }

  /** The mailboxes a tick at `now` enqueues. */
  function Enqueueable(db: Db, interval: int, now: int): set<nat> {
    set m | m in db.schedule && db.schedule[m].enabled && WillEnqueue(db, interval, now, m)
  }

  class Session {
    var jobs: Jobs
    var nextJob: nat
    var runs: Runs
    var nextRun: nat
    var boxes: map<nat, Mailbox>
    var nextBox: nat
    var schedule: map<nat, SyncJob>
    var updates: map<nat, UpdateRun>
    var nextUpdate: nat

    ghost function State(): Db
      reads this
    {
      Db(jobs, nextJob, runs, nextRun, boxes, nextBox, schedule, updates, nextUpdate)
    }

    constructor ()
      ensures State() == EMPTY_DB
    {
      jobs, nextJob, runs, nextRun := map[], 0, map[], 0;
      boxes, nextBox, schedule, updates, nextUpdate := map[], 0, map[], map[], 0;
    }

    method Insert(job: Job)
      modifies this`jobs, this`nextJob
      ensures State() == AddJob(old(State()), job)
    {
      jobs, nextJob := jobs[nextJob := job], nextJob + 1;
    }

    /** `Throttle.RefusalNamesTheFirst` says what the answer means. */
    method CanStartSyncNow(p: Policy, now: int) returns (refusal: Option<Reason>)
      ensures refusal == Refusal(runs, p, now)
    {
      var running := |RunningRuns(runs)|;
      if running >= p.concurrent {
        return Some(ConcurrentLimit);
      }
      var lastMinute := |StartedSince(runs, now - MINUTE)|;
      if lastMinute >= p.perMinute {
        return Some(MinuteLimit);
      }
      var lastHour := |StartedSince(runs, now - HOUR)|;
      if lastHour >= p.perHour {
        return Some(HourLimit);
      }
      var lastDay := |StartedSince(runs, now - DAY)|;
      return if lastDay >= p.perDay then Some(DayLimit) else None;
    }

    method ClaimNextJob(p: Policy, now: int, candidates: seq<nat>) returns (claimed: Option<nat>)
      requires candidates == Candidates(jobs, now)
      modifies this`jobs
      ensures (State(), claimed) == ClaimTx(old(State()), p, now)
      ensures ClaimMeets(old(jobs), !MayStart(runs, p, now), now, jobs, claimed)
    {
      ClaimSpecification(jobs, !MayStart(runs, p, now), now);
      ghost var throttled := !MayStart(runs, p, now);
      for k := 0 to |candidates|
        invariant forall i :: i in candidates ==> i in jobs
        invariant Scan(jobs, candidates[k..], throttled, now) == Scan(old(jobs), candidates, throttled, now)
      {
        var i := candidates[k];
        assert candidates[k..][0] == i && candidates[k..][1..] == candidates[k + 1..];
        if jobs[i].work.Sync? {
          var refusal := CanStartSyncNow(p, now);
          if refusal.Some? {
            jobs := jobs[i := jobs[i].(runAfter := now + 30 * SECOND)];
            continue;
          }
        }
        jobs := jobs[i := jobs[i].(status := Running, lockedAt := Some(now), attempts := jobs[i].attempts + 1)];
        return Some(i);
      }
      return None;
    }

    /** The row leaves the queue: no claim will see it again. Nothing else changes. */
    method FinishJob(job: nat, success: bool, now: int)
      modifies this`jobs
      ensures jobs.Keys == old(jobs).Keys && forall i :: i in jobs && i != job ==> jobs[i] == old(jobs)[i]
      ensures job in jobs ==> KeptButOutcome(old(jobs)[job], jobs[job]) && forall t :: !Due(jobs[job], t)
      ensures job in jobs ==> (jobs[job].status == Done <==> success)
      ensures job in jobs ==>
        (jobs[job].status == Failed <==> !success && jobs[job].attempts >= jobs[job].maxAttempts)
      ensures job in jobs && !(jobs[job].status in {Done, Failed}) ==>
        jobs[job].status == Retrying && now + MINUTE <= jobs[job].runAfter <= now + HOUR
      ensures State() == FinishTx(old(State()), job, success, now)
    {
      if job !in jobs {
        return;
      }
      BackoffRange(jobs[job].attempts);
      if success {
        jobs := jobs[job := jobs[job].(status := Done)];
      } else if jobs[job].attempts >= jobs[job].maxAttempts {
        jobs := jobs[job := jobs[job].(status := Failed)];
      } else {
        jobs := jobs[job := jobs[job].(status := Retrying, runAfter := now + Backoff(jobs[job].attempts))];
      }
    }

    method ReapRuns(now: int, stuck: seq<nat>)
      requires Lists(stuck, set r | r in runs && runs[r].status == InProgress)
      modifies this`runs
      ensures runs == map r | r in old(runs) :: ReapedRun(old(runs)[r], now)
    {
      for k := 0 to |stuck|
        invariant runs.Keys == old(runs).Keys
        invariant forall r :: r in runs ==>
          runs[r] == if r in stuck[..k] then ReapedRun(old(runs)[r], now) else old(runs)[r]
      {
        var r := stuck[k];
        assert r in stuck && r !in stuck[..k];
        runs := runs[r := runs[r].(status := Failure, finishedAt := Some(now))];
      }
      assert stuck[..|stuck|] == stuck;
    }

    method ReapJobs(now: int, stuck: seq<nat>)
      requires Lists(stuck, set i | i in jobs && jobs[i].status == Running)
      modifies this`jobs
      ensures jobs == map i | i in old(jobs) :: ReapedJob(old(jobs)[i], now)
    {
      for k := 0 to |stuck|
        invariant jobs.Keys == old(jobs).Keys
        invariant forall i :: i in jobs ==>
          jobs[i] == if i in stuck[..k] then ReapedJob(old(jobs)[i], now) else old(jobs)[i]
      {
        var i := stuck[k];
        assert i in stuck && i !in stuck[..k];
        if jobs[i].work.SystemUpdate? {
          jobs := jobs[i := jobs[i].(status := Failed)];
        } else {
          jobs := jobs[i := jobs[i].(status := Queued, lockedAt := None, runAfter := now)];
        }
      }
      assert stuck[..|stuck|] == stuck;
    }

    method ReapUpdates(stuck: seq<nat>)
      requires Lists(stuck, set u | u in updates && updates[u].status == InProgress)
      modifies this`updates
      ensures updates == map u | u in old(updates) :: ReapedUpdate(old(updates)[u])
    {
      for k := 0 to |stuck|
        invariant updates.Keys == old(updates).Keys
        invariant forall u :: u in updates ==>
          updates[u] == if u in stuck[..k] then ReapedUpdate(old(updates)[u]) else old(updates)[u]
      {
        var u := stuck[k];
        assert u in stuck && u !in stuck[..k];
        updates := updates[u := updates[u].(status := Failure)];
      }
      assert stuck[..|stuck|] == stuck;
    }

    method ReapOrphans(now: int, stuckRuns: seq<nat>, stuckJobs: seq<nat>, stuckUpdates: seq<nat>)
      requires Lists(stuckRuns, set r | r in runs && runs[r].status == InProgress)
      requires Lists(stuckJobs, set i | i in jobs && jobs[i].status == Running)
      requires Lists(stuckUpdates, set u | u in updates && updates[u].status == InProgress)
      modifies this`runs, this`jobs, this`updates
      ensures State() == ReapTx(old(State()), now)
    {
      ReapRuns(now, stuckRuns);
      ReapJobs(now, stuckJobs);
      ReapUpdates(stuckUpdates);
    }

    /** One turn of the scheduler's loop. */
    method EnqueueIfDue(interval: int, now: int, m: nat) returns (enqueued: bool)
      requires m in schedule
      modifies this`jobs, this`nextJob, this`schedule
      ensures enqueued == WillEnqueue(old(State()), interval, now, m)
      ensures State() == TickOne(old(State()), interval, now, m)
    {
      if schedule[m].lastEnqueuedAt.Some? && now - schedule[m].lastEnqueuedAt.value < interval {
        return false;
      }
      if exists i :: i in jobs && PendingSync(jobs[i], m) {
        assert HasPendingSync(jobs, m);
        return false;
      }
      Insert(QueuedSync(m, Scheduled, now));
      schedule := schedule[m := schedule[m].(lastEnqueuedAt := Some(now))];
      return true;
    }

    /** The scheduler's tick over the enabled sync rows, in the order the database returned them. */
    method RunOnce(configured: Option<int>, now: int, rows: seq<nat>) returns (enqueued: nat)
      requires ListsEnabled(State(), rows) && Fresh(State())
      modifies this`jobs, this`nextJob, this`schedule
      ensures State() == TickTx(old(State()), Interval(configured), now, rows).0
      ensures enqueued == |Enqueueable(old(State()), Interval(configured), now)|
    {
      var interval := Interval(configured);
      enqueued := 0;
      ghost var added: seq<nat> := [];
      assert rows[0..] == rows;
      for k := 0 to |rows|
        invariant schedule.Keys == old(schedule).Keys
        invariant enqueued == |added|
        invariant TickTx(old(State()), interval, now, rows).0 == TickTx(State(), interval, now, rows[k..]).0
        invariant TickTx(old(State()), interval, now, rows).1 == added + TickTx(State(), interval, now, rows[k..]).1
      {
        assert rows[k] in rows;
        assert rows[k..][1..] == rows[k + 1..];
        Regroup(added, [rows[k]], TickTx(TickOne(State(), interval, now, rows[k]), interval, now, rows[k + 1..]).1);
        var more := EnqueueIfDue(interval, now, rows[k]);
        if more {
          added := added + [rows[k]];
          enqueued := enqueued + 1;
        }
      }
      assert rows[|rows|..] == [];
      TickCount(old(State()), interval, now, rows);
    }

    /** Afterwards the mailbox has an unfinished sync, however often the button is pressed. */
    method SyncNow(mailbox: nat, now: int)
      requires Fresh(State())
      modifies this`jobs, this`nextJob
      ensures mailbox in boxes ==> HasPendingSync(jobs, mailbox)
      ensures forall t :: SyncNowTx(State(), mailbox, t) == State()
      ensures forall i :: i in old(jobs) ==> i in jobs && jobs[i] == old(jobs)[i]
      ensures forall i :: i in jobs && i !in old(jobs) ==>
        SyncOf(jobs[i].work, mailbox) && Due(jobs[i], now) && !HasPendingSync(old(jobs), mailbox)
      ensures State() == SyncNowTx(old(State()), mailbox, now)
    {
      if mailbox !in boxes {
        return;
      }
      if exists i :: i in jobs && PendingSync(jobs[i], mailbox) {
        return;
      }
      Insert(QueuedSync(mailbox, Manual, now));
      assert PendingSync(jobs[old(nextJob)], mailbox);
    }

    method StartRun(host: Host, now: int) returns (run: nat, alreadyRunning: bool)
      modifies this`jobs, this`nextJob, this`updates, this`nextUpdate
      ensures alreadyRunning ==> State() == old(State())
      ensures !alreadyRunning ==>
        && updates == old(updates)[run := UpdateRun(host, InProgress)]
        && jobs == old(jobs)[old(nextJob) := Job(SystemUpdate(run, host), Queued, 10, now, None, 0, 1)]
      ensures State() == StartUpdateTx(old(State()), host, now)
      ensures alreadyRunning == HostBusy(old(updates), host)
      ensures run in RunningRows(updates, host)
      ensures alreadyRunning ==> forall u :: u in RunningRows(updates, host) ==> u <= run
    {
      var busy := RunningRows(updates, host);
      BusyMeansRows(updates, host);
      alreadyRunning := busy != {};
      if alreadyRunning {
        ghost var newest := NewestExists(busy);
        run :| run in busy && forall u :: u in busy ==> u <= run;
        return;
      }
      run := nextUpdate;
      updates, nextUpdate := updates[run := UpdateRun(host, InProgress)], run + 1;
      Insert(NewJob(SystemUpdate(run, host), 10, now, 1));
    }

    /** The local half of `delete_mailbox`, by query and by cascade: no trace of the mailbox is left but its
        provision jobs, and nothing of any other mailbox is touched. */
    method DeleteMailbox(mailbox: nat)
      modifies this`jobs, this`runs, this`boxes, this`schedule
      ensures mailbox !in boxes && mailbox !in schedule
      ensures forall r :: r in runs ==> runs[r].mailbox != mailbox
      ensures forall i :: i in jobs ==> !SyncOf(jobs[i].work, mailbox)
      ensures forall m :: m in old(boxes) && m != mailbox ==> m in boxes && boxes[m] == old(boxes)[m]
      ensures forall m :: m in old(schedule) && m != mailbox ==> m in schedule && schedule[m] == old(schedule)[m]
      ensures forall r :: r in old(runs) && old(runs)[r].mailbox != mailbox ==> r in runs && runs[r] == old(runs)[r]
      ensures forall i :: i in old(jobs) && !SyncOf(old(jobs)[i].work, mailbox) ==> i in jobs && jobs[i] == old(jobs)[i]
      ensures boxes.Keys <= old(boxes).Keys && schedule.Keys <= old(schedule).Keys
      ensures runs.Keys <= old(runs).Keys && jobs.Keys <= old(jobs).Keys
      ensures State() == DeleteMailboxTx(old(State()), mailbox)
    {
      jobs := map i | i in jobs && !(jobs[i].work.Sync? && jobs[i].work.mailbox == mailbox) :: jobs[i];
      boxes := boxes - {mailbox};
      runs := map r | r in runs && runs[r].mailbox != mailbox :: runs[r];
      schedule := schedule - {mailbox};
    }

    /** The sync handler's first transaction; None is one of its early returns. A run opened while the policy
        permits one leaves the table within the policy. */
    method OpenRun(mailbox: nat, vm2Configured: bool, now: int) returns (run: Option<nat>)
      requires forall r :: r in runs ==> r < nextRun
      modifies this`runs, this`nextRun
      ensures run.Some? <==> SyncProceeds(old(State()), mailbox, vm2Configured)
      ensures run.None? ==> State() == old(State())
      ensures run.Some? ==>
        && run.value !in old(runs) && run.value in runs
        && runs[run.value] == JobRun(mailbox, InProgress, now, None)
        && RunningRuns(runs) == RunningRuns(old(runs)) + {run.value}
      ensures forall r :: r in old(runs) ==> r in runs && runs[r] == old(runs)[r]
      ensures forall p :: PermittedOpening(old(runs), p, now) ==> WithinPolicy(runs, p)
      ensures State() == if run.Some? then OpenRunTx(old(State()), mailbox, now) else old(State())
    {
      if mailbox !in boxes || !boxes[mailbox].active {
        return None;
      }
      if mailbox !in schedule || !schedule[mailbox].enabled || !vm2Configured {
        return None;
      }
      forall p | PermittedOpening(runs, p, now)
        ensures WithinPolicy(runs[nextRun := JobRun(mailbox, InProgress, now, None)], p)
      {
        OpeningStaysWithin(runs, nextRun, JobRun(mailbox, InProgress, now, None), p);
      }
      runs := runs[nextRun := JobRun(mailbox, InProgress, now, None)];
      run := Some(nextRun);
      nextRun := nextRun + 1;
    }

    /** The sync handler's second transaction; it raises when the run row is gone. Closing a run ends it for the
        concurrency limit and for no window, and takes back no permission. */
    method CloseRun(run: nat, ok: bool, now: int) returns (raised: bool)
      modifies this`runs
      ensures raised <==> run !in old(runs)
      ensures raised ==> runs == old(runs)
      ensures !raised ==>
        runs.Keys == old(runs).Keys && runs[run].finishedAt == Some(now)
        && runs[run].status == if ok then Success else Failure
      ensures RunningRuns(runs) == RunningRuns(old(runs)) - {run}
      ensures forall from, width :: StartedWithin(runs, from, width) == StartedWithin(old(runs), from, width)
      ensures forall p, t :: MayStart(old(runs), p, t) ==> MayStart(runs, p, t)
      ensures forall r :: r in runs && r != run ==> r in old(runs) && runs[r] == old(runs)[r]
      ensures State() == CloseRunTx(old(State()), run, ok, now)
    {
      if run !in runs {
        return true;
      }
      ghost var before := runs;
      runs := runs[run := runs[run].(status := if ok then Success else Failure, finishedAt := Some(now))];
      forall p, t | MayStart(before, p, t) ensures MayStart(runs, p, t) {
        StaysAllowed(before, runs, p, t, t);
      }
      return false;
    }

    /** The provision handler's writes once VM2 has answered with its id: the mailbox is what a later provision
        job returns early on, and one inventory is queued. */
    method Activate(mailbox: nat, vm2Id: nat, now: int) returns (raised: bool)
      requires Fresh(State())
      modifies this`boxes, this`jobs, this`nextJob
      ensures raised <==> mailbox !in old(boxes)
      ensures raised ==> State() == old(State())
      ensures boxes.Keys == old(boxes).Keys && forall m :: m in boxes && m != mailbox ==> boxes[m] == old(boxes)[m]
      ensures !raised ==>
        && boxes[mailbox].active && boxes[mailbox].vm2Id == Some(vm2Id)
        && boxes[mailbox].domain == old(boxes)[mailbox].domain && boxes[mailbox].local == old(boxes)[mailbox].local
        && |AssessRows(jobs, mailbox)| == |AssessRows(old(jobs), mailbox)| + 1
      ensures forall i :: i in old(jobs) ==> i in jobs && jobs[i] == old(jobs)[i]
      ensures forall i :: i in jobs && i !in old(jobs) ==>
        jobs[i] == Job(Sync(mailbox, Assess), Queued, 100, now, None, 0, 5)
      ensures State() == ActivateTx(old(State()), mailbox, vm2Id, now)
    {
      if mailbox !in boxes {
        return true;
      }
      boxes := boxes[mailbox := boxes[mailbox].(vm2Id := Some(vm2Id), active := true)];
      Insert(QueuedSync(mailbox, Assess, now));
      assert AssessRows(jobs, mailbox) == AssessRows(old(jobs), mailbox) + {old(nextJob)};
      return false;
    }
  }

  /** Status and `run_after` are all that finishing a job may change. */
  predicate KeptButOutcome(was: Job, is_: Job) {
    is_ == was.(status := is_.status, runAfter := is_.runAfter)
  }

  /** The policy holds, permits a start now, and no recorded run starts later. */
  ghost predicate PermittedOpening(runs: Runs, p: Policy, now: int) {
    WithinPolicy(runs, p) && MayStart(runs, p, now) && forall r :: r in runs ==> runs[r].startedAt <= now
  }

  lemma BusyMeansRows(updates: map<nat, UpdateRun>, host: Host)
    ensures HostBusy(updates, host) <==> RunningRows(updates, host) != {}
  {
    if HostBusy(updates, host) {
      var u :| u in updates && updates[u].host == host && updates[u].status == InProgress;
      assert u in RunningRows(updates, host);
    }
  }

  /** A tick enqueues exactly the enabled mailboxes that are due with nothing pending, whatever the order. */
  lemma TickCount(db: Db, interval: int, now: int, rows: seq<nat>)
    requires ListsEnabled(db, rows) && Fresh(db)
    ensures Lists(TickTx(db, interval, now, rows).1, Enqueueable(db, interval, now))
    ensures |TickTx(db, interval, now, rows).1| == |Enqueueable(db, interval, now)|
  {
    TickSpecification(db, interval, now, rows);
    CountDistinct(TickTx(db, interval, now, rows).1, Enqueueable(db, interval, now));
  }

  lemma Regroup<T>(a: seq<T>, b: seq<T>, c: seq<T>)
    ensures a + (b + c) == a + b + c && a + ([] + c) == a + c
  {
  }

  lemma {:induction false} NewestExists(s: set<nat>) returns (m: nat)
    requires s != {}
    ensures m in s && forall u :: u in s ==> u <= m
    decreases s
  {
    var x :| x in s;
    m := x;
    if s != {x} {
      var other := NewestExists(s - {x});
      m := if other < x then x else other;
      forall u | u in s ensures u <= m {
        assert u == x || u in s - {x};
      }
    }
  }

  lemma CountDistinct(c: seq<nat>, s: set<nat>)
    requires Lists(c, s)
    ensures |s| == |c|
  {
    if c == [] {
      assert s == {};
    } else {
      var last := |c| - 1;
      assert c == c[..last] + [c[last]];
      assert forall i :: i in c[..last] <==> i in s - {c[last]};
      CountDistinct(c[..last], s - {c[last]});
    }
  }
}
