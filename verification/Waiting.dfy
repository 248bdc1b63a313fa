/** How long a due row that is not a sync waits in the running portal behind syncs that are refused. */
module Waiting {
  import opened Wrappers
  import opened Tables
  import opened Throttle
  import opened Claiming
  import opened Transactions
  import opened Protocol
  import opened Invariants

  /** The queued rows that come before row p. */
  function QueuedAhead(jobs: Jobs, p: nat): set<nat>
    requires p in jobs
  {
    set i | i in jobs && jobs[i].status == Queued && Before(jobs, i, p)
  }

  function DueAhead(jobs: Jobs, p: nat, now: int): set<nat>
    requires p in jobs
  {
    set i | i in QueuedAhead(jobs, p) && jobs[i].runAfter <= now
  }

  /** Row p is due, is no sync, and everything queued before it is a sync. */
  ghost predicate BehindSyncs(jobs: Jobs, p: nat, now: int) {
    && p in jobs && Due(jobs[p], now) && !jobs[p].work.Sync?
    && forall i :: i in QueuedAhead(jobs, p) ==> jobs[i].work.Sync?
  }

  /** No queued row ahead of p that is not due yet becomes due by `last`. */
  ghost predicate Quiet(jobs: Jobs, p: nat, now: int, last: int)
    requires p in jobs
  {
    forall i :: i in QueuedAhead(jobs, p) && i !in DueAhead(jobs, p, now) ==> jobs[i].runAfter > last
  }

  /** A pass over at least five due rows ahead of p takes five of them and claims nothing. */
  lemma FruitlessPass(jobs: Jobs, p: nat, now: int) returns (batch: set<nat>)
    requires BehindSyncs(jobs, p, now) && |DueAhead(jobs, p, now)| >= BATCH
    ensures batch <= DueAhead(jobs, p, now) && |batch| == BATCH
    ensures var (jobs', claimed) := ClaimPass(jobs, true, now);
            && claimed.None? && jobs'.Keys == jobs.Keys
            && forall i :: i in jobs ==> jobs'[i] == if i in batch then Postponed(jobs[i], now) else jobs[i]
  {
    ClaimSpecification(jobs, true, now);
    batch := FirstFive(jobs, now);
    forall i | i in batch ensures i in DueAhead(jobs, p, now) {
      AheadOfAll(jobs, p, now, i);
    }
    CardinalityMonotone(DueAhead(jobs, p, now), DueRows(jobs, now));
    FirstFiveCardinality(jobs, now);
  }

  /** A row with fewer than five due rows before it precedes p, when five due rows do. */
  lemma AheadOfAll(jobs: Jobs, p: nat, now: int, i: nat)
    requires p in jobs && i in FirstFive(jobs, now) && |DueAhead(jobs, p, now)| >= BATCH
    ensures i in DueAhead(jobs, p, now)
  {
    if !Before(jobs, i, p) {
      CardinalityMonotone(DueAhead(jobs, p, now), Ahead(jobs, DueRows(jobs, now), i));
      assert false;
    }
  }

  lemma FirstFiveCardinality(jobs: Jobs, now: int)
    ensures |FirstFive(jobs, now)| == if |DueRows(jobs, now)| < BATCH then |DueRows(jobs, now)| else BATCH
  {
    var c := Candidates(jobs, now);
    CandidatesAreFirstFive(jobs, now);
    assert FirstFive(jobs, now) == Elements(c);
    FrontCardinality(jobs, DueRows(jobs, now), BATCH);
  }

  function Elements(c: seq<nat>): set<nat> {
    set i | i in c
  }

  lemma ElementsCons(m: nat, tail: seq<nat>)
    ensures Elements([m] + tail) == {m} + Elements(tail)
  {}

  lemma {:induction false} FrontCardinality(jobs: Jobs, s: set<nat>, limit: nat)
    requires s <= jobs.Keys
    ensures |Elements(Front(jobs, s, limit))| == if |s| < limit then |s| else limit
    decreases limit
  {
    if limit == 0 || s == {} {
      assert Elements([]) == {};
    } else {
      var m := First(jobs, s);
      var tail := Front(jobs, s - {m}, limit - 1);
      FrontCardinality(jobs, s - {m}, limit - 1);
      ElementsCons(m, tail);
      assert m !in Elements(tail);
    }
  }

  /** A pass with fewer than five due rows ahead of p reaches p. */
  lemma LastPass(jobs: Jobs, p: nat, now: int)
    requires BehindSyncs(jobs, p, now) && |DueAhead(jobs, p, now)| < BATCH
    ensures ClaimPass(jobs, true, now).1 == Some(p)
  {
    ClaimSpecification(jobs, true, now);
    var due := DueRows(jobs, now);
    assert Ahead(jobs, due, p) == DueAhead(jobs, p, now);
    assert p in FirstFive(jobs, now) && !Skippable(jobs[p], true);
    var claimed := ClaimPass(jobs, true, now).1;
    if {
      case claimed.None? =>
      case claimed == Some(p) =>
      case claimed.Some? && claimed.value != p =>
        assert false;
    }
  }

  // --- Runs during which p waits ------------------------------------------------------

  /** Nothing arrives ahead of p: it is as it was, and what is queued ahead of it was so before, unchanged. */
  ghost predicate NothingAhead(jobs: Jobs, jobs': Jobs, p: nat)
    requires p in jobs
  {
    && p in jobs' && jobs'[p] == jobs[p]
    && forall i :: i in QueuedAhead(jobs', p) ==> i in QueuedAhead(jobs, p) && jobs'[i] == jobs[i]
  }

  /** Every claim of the run finds syncs refused, and no other step puts a row ahead of p. */
  ghost predicate Held(cfg: Config, w: World, run: seq<Event>, p: nat)
    requires Legal(cfg, w, run)
    decreases |run|
  {
    && p in w.db.jobs
    && (run == [] || (HeldStep(cfg, w, run[0], p) && Held(cfg, Next(cfg, w, run[0]), run[1..], p)))
  }

  ghost predicate HeldStep(cfg: Config, w: World, e: Event, p: nat)
    requires Enabled(w, e) && p in w.db.jobs
  {
    if e.Claim? then !MayStart(w.db.runs, cfg.policy, e.now)
    else NothingAhead(w.db.jobs, Next(cfg, w, e).db.jobs, p)
  }

  function ClaimTimes(run: seq<Event>): seq<int> {
    if run == [] then [] else When(run[0].Claim?, run[0].Time(0)) + ClaimTimes(run[1..])
  }

  predicate Taken(w: World, p: nat) {
    p in w.db.jobs && w.db.jobs[p].status != Queued
  }

  /** The steps other than claims that put a row ahead of p: an update is requested on a free host and p is
      less urgent, or the reaper requeues a row that precedes p. */
  ghost predicate Arrives(w: World, e: Event, p: nat)
    requires p in w.db.jobs
  {
    || (e.StartUpdate? && !HostBusy(w.db.updates, e.host) && w.db.jobs[p].priority > 10)
    || (e.Reap? && exists i :: Interrupted(w.db.jobs, i) && Before(w.db.jobs, i, p))
  }

  predicate Interrupted(jobs: Jobs, i: nat) {
    i in jobs && jobs[i].status == Running && !jobs[i].work.SystemUpdate?
  }

  /** Ticks, manual syncs, imports, switches and deletions never put a row ahead of one that waits, since new
      rows have larger ids and no producer but an update's uses a priority below 100. */
  lemma ArrivesExactly(cfg: Config, w: World, e: Event, p: nat)
    requires Fresh(w.db) && !w.worker.Busy() && Enabled(w, e) && !e.Claim?
    requires p in w.db.jobs && w.db.jobs[p].status == Queued && !w.db.jobs[p].work.Sync?
    requires w.db.jobs[p].priority <= 100
    ensures NothingAhead(w.db.jobs, Next(cfg, w, e).db.jobs, p) <==> !Arrives(w, e, p)
  {
    if e.Tick? {
      TickSpecification(w.db, cfg.interval, e.now, e.rows);
    } else if e.Reap? {
      ReaperArrives(cfg, w, e, p);
    } else if e.StartUpdate? {
      UpdateArrives(cfg, w, e, p);
    }
  }

  lemma ReaperArrives(cfg: Config, w: World, e: Event, p: nat)
    requires Enabled(w, e) && e.Reap? && p in w.db.jobs && w.db.jobs[p].status == Queued
    ensures NothingAhead(w.db.jobs, Next(cfg, w, e).db.jobs, p) <==> !Arrives(w, e, p)
  {
    var jobs' := Next(cfg, w, e).db.jobs;
    if i :| Interrupted(w.db.jobs, i) && Before(w.db.jobs, i, p) {
      assert i in QueuedAhead(jobs', p);
    } else {
      forall i | i in QueuedAhead(jobs', p) ensures i in QueuedAhead(w.db.jobs, p) && jobs'[i] == w.db.jobs[i] {
        assert !Interrupted(w.db.jobs, i);
      }
    }
  }

  lemma UpdateArrives(cfg: Config, w: World, e: Event, p: nat)
    requires Fresh(w.db) && Enabled(w, e) && e.StartUpdate? && p in w.db.jobs
    ensures NothingAhead(w.db.jobs, Next(cfg, w, e).db.jobs, p) <==> !Arrives(w, e, p)
  {
    if Arrives(w, e, p) {
      assert w.db.nextJob in QueuedAhead(Next(cfg, w, e).db.jobs, p);
    }
  }

  // --- What such a run keeps ------------------------------------------------------------

  lemma HeldStepShrinks(cfg: Config, w: World, e: Event, p: nat)
    requires Enabled(w, e) && p in w.db.jobs && HeldStep(cfg, w, e, p)
    ensures var w' := Next(cfg, w, e);
      && p in w'.db.jobs && QueuedAhead(w'.db.jobs, p) <= QueuedAhead(w.db.jobs, p)
      && (Taken(w, p) ==> Taken(w', p))
  {
    if e.Claim? {
      ClaimFacts(cfg, w, e.now);
    }
  }

  /** The queue ahead of p only shrinks, and once taken p does not come back. */
  lemma {:induction false} HeldShrinks(cfg: Config, w: World, run: seq<Event>, p: nat)
    requires Legal(cfg, w, run) && Held(cfg, w, run, p)
    ensures var w' := After(cfg, w, run);
      && p in w'.db.jobs && QueuedAhead(w'.db.jobs, p) <= QueuedAhead(w.db.jobs, p)
      && (Taken(w, p) ==> Taken(w', p))
    decreases |run|
  {
    if run != [] {
      HeldStepShrinks(cfg, w, run[0], p);
      HeldShrinks(cfg, Next(cfg, w, run[0]), run[1..], p);
    }
  }

  /** The worker is not at work; p is due from `now` on behind syncs only, and of those not due then none becomes
      due by `last`. */
  ghost predicate Waits(w: World, p: nat, now: int, last: int) {
    !w.worker.Busy() && BehindSyncs(w.db.jobs, p, now) && Quiet(w.db.jobs, p, now, last)
  }

  lemma WaitsOn(cfg: Config, w: World, e: Event, p: nat, now: int, last: int)
    requires Waits(w, p, now, last) && Enabled(w, e) && !e.Claim? && HeldStep(cfg, w, e, p)
    ensures var w' := Next(cfg, w, e);
      && Waits(w', p, now, last) && DueAhead(w'.db.jobs, p, now) <= DueAhead(w.db.jobs, p, now)
      && (QueuedAhead(w'.db.jobs, p) == QueuedAhead(w.db.jobs, p) ==>
          DueAhead(w'.db.jobs, p, now) == DueAhead(w.db.jobs, p, now))
  {
  }

  lemma SameDue(jobs: Jobs, p: nat, now: int, last: int, t: int)
    requires BehindSyncs(jobs, p, now) && Quiet(jobs, p, now, last) && now <= t <= last
    ensures BehindSyncs(jobs, p, t) && DueAhead(jobs, p, t) == DueAhead(jobs, p, now)
  {
  }

  /** A refused pass while p waits takes p exactly when fewer than five rows ahead are due; else five of them
      leave for the rest of the time and nothing else changes. */
  lemma RefusedPass(cfg: Config, w: World, p: nat, now: int, last: int, t: int)
    requires Waits(w, p, now, last) && now <= t <= last < now + POSTPONE
    requires Enabled(w, Claim(t)) && !MayStart(w.db.runs, cfg.policy, t)
    ensures var n, w' := |DueAhead(w.db.jobs, p, now)|, Next(cfg, w, Claim(t));
      if n < BATCH then w'.worker == Claimed(p, w.db.jobs[p].work) && Taken(w', p)
      else
        && Waits(w', p, now, last) && w'.worker.Idle? && w'.db.jobs[p] == w.db.jobs[p]
        && QueuedAhead(w'.db.jobs, p) == QueuedAhead(w.db.jobs, p)
        && |DueAhead(w'.db.jobs, p, now)| == n - BATCH
  {
    SameDue(w.db.jobs, p, now, last, t);
    if |DueAhead(w.db.jobs, p, now)| < BATCH {
      LastPass(w.db.jobs, p, t);
      ClaimFacts(cfg, w, t);
    } else {
      var batch := FruitlessPass(w.db.jobs, p, t);
      FiveFewer(w.db.jobs, p, now, last, t, Next(cfg, w, Claim(t)).db.jobs, batch);
    }
  }

  lemma FiveFewer(jobs: Jobs, p: nat, now: int, last: int, t: int, jobs': Jobs, batch: set<nat>)
    requires BehindSyncs(jobs, p, now) && Quiet(jobs, p, now, last) && now <= t <= last < now + POSTPONE
    requires batch <= DueAhead(jobs, p, now) && |batch| == BATCH && jobs'.Keys == jobs.Keys
    requires forall i :: i in jobs ==> jobs'[i] == if i in batch then Postponed(jobs[i], t) else jobs[i]
    ensures BehindSyncs(jobs', p, now) && Quiet(jobs', p, now, last) && jobs'[p] == jobs[p]
    ensures QueuedAhead(jobs', p) == QueuedAhead(jobs, p)
    ensures |DueAhead(jobs', p, now)| == |DueAhead(jobs, p, now)| - BATCH
  {
    assert forall i :: i in jobs ==> Before(jobs', i, p) == Before(jobs, i, p);
    assert QueuedAhead(jobs', p) == QueuedAhead(jobs, p);
    assert DueAhead(jobs', p, now) == DueAhead(jobs, p, now) - batch;
  }

  predicate Within(times: seq<int>, now: int, last: int) {
    forall t :: t in times ==> now <= t <= last
  }

  /** As long as p has not been taken, every pass has removed five due rows from before it; rows that were
      deleted count for themselves. */
  lemma {:induction false} FivePerPass(cfg: Config, w: World, run: seq<Event>, p: nat, now: int, last: int)
    requires Waits(w, p, now, last) && last < now + POSTPONE
    requires Legal(cfg, w, run) && Held(cfg, w, run, p) && Within(ClaimTimes(run), now, last)
    requires !Taken(After(cfg, w, run), p)
    ensures var w', passes := After(cfg, w, run), |ClaimTimes(run)|;
      && Waits(w', p, now, last)
      && BATCH * passes + |DueAhead(w'.db.jobs, p, now)| <= |DueAhead(w.db.jobs, p, now)|
      && (QueuedAhead(w'.db.jobs, p) == QueuedAhead(w.db.jobs, p) ==>
          BATCH * passes + |DueAhead(w'.db.jobs, p, now)| == |DueAhead(w.db.jobs, p, now)|)
    decreases |run|
  {
    if run != [] {
      var e, w1 := run[0], Next(cfg, w, run[0]);
      assert forall t :: t in ClaimTimes(run[1..]) ==> t in ClaimTimes(run);
      HeldShrinks(cfg, w1, run[1..], p);
      HeldStepShrinks(cfg, w, e, p);
      if e.Claim? {
        assert e.now in ClaimTimes(run);
        RefusedPass(cfg, w, p, now, last, e.now);
      } else {
        WaitsOn(cfg, w, e, p, now, last);
        CardinalityMonotone(DueAhead(w1.db.jobs, p, now), DueAhead(w.db.jobs, p, now));
      }
      FivePerPass(cfg, w1, run[1..], p, now, last);
    }
  }

  lemma Rounds(n: nat, passes: nat, rest: nat)
    requires BATCH * passes + rest <= n
    ensures passes <= n / BATCH && (passes == n / BATCH ==> rest < BATCH)
    ensures BATCH * passes + rest == n && passes < n / BATCH ==> rest >= BATCH
  {
  }

  lemma {:induction false} UntakenIsKept(cfg: Config, w: World, run: seq<Event>, p: nat)
    requires Legal(cfg, w, run) && Held(cfg, w, run, p) && !Taken(After(cfg, w, run), p)
    ensures p in After(cfg, w, run).db.jobs && After(cfg, w, run).db.jobs[p].work == w.db.jobs[p].work
    decreases |run|
  {
    if run != [] {
      HeldShrinks(cfg, Next(cfg, w, run[0]), run[1..], p);
      if run[0].Claim? {
        ClaimFacts(cfg, w, run[0].now);
      }
      UntakenIsKept(cfg, Next(cfg, w, run[0]), run[1..], p);
    }
  }

  /** With n syncs due ahead of it, all of them refused, and nothing arriving ahead, row p is claimed in pass
      floor(n / 5) + 1 at the latest, provided the passes fall within the 30 seconds of a postponement; in that
      pass exactly if no row ahead was deleted. Here `run` is what happened before pass t, p not yet taken. */
  lemma BoundedWait(cfg: Config, w: World, run: seq<Event>, p: nat, now: int, last: int, t: int)
    requires Waits(w, p, now, last) && last < now + POSTPONE
    requires Legal(cfg, w, run) && Held(cfg, w, run, p) && Within(ClaimTimes(run), now, last)
    requires var w' := After(cfg, w, run);
      && !Taken(w', p) && Enabled(w', Claim(t)) && now <= t <= last && !MayStart(w'.db.runs, cfg.policy, t)
    ensures var n, passes := |DueAhead(w.db.jobs, p, now)|, |ClaimTimes(run)|;
      var before, after := After(cfg, w, run), Next(cfg, After(cfg, w, run), Claim(t));
      && passes <= n / BATCH
      && (after.worker == Claimed(p, w.db.jobs[p].work) || (after.worker.Idle? && !Taken(after, p)))
      && (passes == n / BATCH ==> after.worker == Claimed(p, w.db.jobs[p].work))
      && p in before.db.jobs
      && (QueuedAhead(before.db.jobs, p) == QueuedAhead(w.db.jobs, p) && passes < n / BATCH ==> after.worker.Idle?)
  {
    FivePerPass(cfg, w, run, p, now, last);
    UntakenIsKept(cfg, w, run, p);
    RefusedPass(cfg, After(cfg, w, run), p, now, last, t);
    Rounds(|DueAhead(w.db.jobs, p, now)|, |ClaimTimes(run)|, |DueAhead(After(cfg, w, run).db.jobs, p, now)|);
  }

  // --- Thirty refused syncs starve the row ------------------------------------------------

  function LateAhead(jobs: Jobs, p: nat, after: int): set<nat>
    requires p in jobs
  {
    set i | i in QueuedAhead(jobs, p) && jobs[i].runAfter > after
  }

  /** Of the rows ahead, at most 25 are postponed, at most 20 for another 5 seconds, and so on. */
  ghost predicate FewLate(jobs: Jobs, p: nat, now: int)
    requires p in jobs
  {
    forall k: nat :: k <= 5 ==> |LateAhead(jobs, p, now + k * (5 * SECOND))| <= 25 - 5 * k
  }

  lemma FewLateAfterPass(jobs: Jobs, p: nat, now: int, next: int, jobs': Jobs, batch: set<nat>)
    requires p in jobs && FewLate(jobs, p, now) && now + 5 * SECOND <= next
    requires jobs'.Keys == jobs.Keys && |batch| == BATCH && batch <= jobs.Keys
    requires forall i :: i in jobs ==> jobs'[i] == if i in batch then Postponed(jobs[i], now) else jobs[i]
    ensures FewLate(jobs', p, next)
  {
    forall k: nat | k <= 5 ensures |LateAhead(jobs', p, next + k * (5 * SECOND))| <= 25 - 5 * k {
      var late' := LateAhead(jobs', p, next + k * (5 * SECOND));
      if k < 5 {
        var late := LateAhead(jobs, p, now + (k + 1) * (5 * SECOND));
        CardinalityMonotone(late', late + batch);
      } else {
        CardinalityMonotone(late', LateAhead(jobs, p, now + 5 * (5 * SECOND)));
      }
    }
  }

  lemma FiveStillDue(jobs: Jobs, p: nat, now: int)
    requires p in jobs && |QueuedAhead(jobs, p)| >= 30 && FewLate(jobs, p, now)
    ensures |DueAhead(jobs, p, now)| >= BATCH
  {
    var ahead, late := QueuedAhead(jobs, p), LateAhead(jobs, p, now + 0 * (5 * SECOND));
    assert DueAhead(jobs, p, now) == ahead - late;
    assert |ahead - late| == |ahead| - |late|;
  }

  /** p is due, the worker is not at work, and thirty syncs are queued ahead, few of them postponed past `at`. */
  ghost predicate Crowded(w: World, p: nat, at: int) {
    !w.worker.Busy() && BehindSyncs(w.db.jobs, p, at) && Thirty(w, p) && FewLate(w.db.jobs, p, at)
  }

  predicate Thirty(w: World, p: nat) {
    p in w.db.jobs && |QueuedAhead(w.db.jobs, p)| >= 30
  }

  lemma LaterIsFewer(jobs: Jobs, p: nat, at: int, t: int)
    requires p in jobs && FewLate(jobs, p, at) && at <= t
    ensures FewLate(jobs, p, t)
  {
    forall k: nat | k <= 5 ensures |LateAhead(jobs, p, t + k * (5 * SECOND))| <= 25 - 5 * k {
      CardinalityMonotone(LateAhead(jobs, p, t + k * (5 * SECOND)), LateAhead(jobs, p, at + k * (5 * SECOND)));
    }
  }

  lemma CrowdedOn(cfg: Config, w: World, e: Event, p: nat, at: int)
    requires Crowded(w, p, at) && Enabled(w, e) && !e.Claim? && HeldStep(cfg, w, e, p)
    requires Thirty(Next(cfg, w, e), p)
    ensures Crowded(Next(cfg, w, e), p, at) && Next(cfg, w, e).db.jobs[p] == w.db.jobs[p]
  {
    var jobs, jobs' := w.db.jobs, Next(cfg, w, e).db.jobs;
    forall k: nat | k <= 5 ensures |LateAhead(jobs', p, at + k * (5 * SECOND))| <= 25 - 5 * k {
      CardinalityMonotone(LateAhead(jobs', p, at + k * (5 * SECOND)), LateAhead(jobs, p, at + k * (5 * SECOND)));
    }
  }

  /** A refused pass leaves it so for the pass five seconds later. */
  lemma CrowdedPass(cfg: Config, w: World, p: nat, at: int, t: int)
    requires Crowded(w, p, at) && at <= t && Enabled(w, Claim(t)) && !MayStart(w.db.runs, cfg.policy, t)
    ensures var w' := Next(cfg, w, Claim(t));
      Crowded(w', p, t + 5 * SECOND) && w'.worker.Idle? && w'.db.jobs[p] == w.db.jobs[p] && w'.db.runs == w.db.runs
  {
    LaterIsFewer(w.db.jobs, p, at, t);
    FiveStillDue(w.db.jobs, p, t);
    var batch := FruitlessPass(w.db.jobs, p, t);
    var jobs' := Next(cfg, w, Claim(t)).db.jobs;
    FewLateAfterPass(w.db.jobs, p, t, t + 5 * SECOND, jobs', batch);
    assert QueuedAhead(jobs', p) == QueuedAhead(w.db.jobs, p);
  }

  /** Passes at least the 5-second poll apart, the first not before `at`. */
  predicate Spaced(at: int, times: seq<int>)
    decreases |times|
  {
    times == [] || (at <= times[0] && Spaced(times[0] + 5 * SECOND, times[1..]))
  }

  function NextPoll(at: int, times: seq<int>): int {
    if times == [] then at else times[|times| - 1] + 5 * SECOND
  }

  /** The earliest time of the poll after step e. */
  function NextDue(at: int, e: Event): int {
    if e.Claim? then e.now + 5 * SECOND else at
  }

  lemma PollsAfter(at: int, run: seq<Event>)
    requires run != [] && Spaced(at, ClaimTimes(run))
    ensures run[0].Claim? ==> at <= run[0].now
    ensures var next := NextDue(at, run[0]);
      && Spaced(next, ClaimTimes(run[1..]))
      && NextPoll(next, ClaimTimes(run[1..])) == NextPoll(at, ClaimTimes(run))
  {
    var rest := ClaimTimes(run[1..]);
    if run[0].Claim? {
      assert ([run[0].now] + rest)[1..] == rest;
    } else {
      assert [] + rest == rest;
    }
  }

  lemma CrowdedStep(cfg: Config, w: World, e: Event, p: nat, at: int)
    requires Crowded(w, p, at) && Enabled(w, e) && HeldStep(cfg, w, e, p) && Thirty(Next(cfg, w, e), p)
    requires e.Claim? ==> at <= e.now
    ensures Crowded(Next(cfg, w, e), p, NextDue(at, e)) && Next(cfg, w, e).db.jobs[p] == w.db.jobs[p]
  {
    if e.Claim? {
      CrowdedPass(cfg, w, p, at, e.now);
    } else {
      CrowdedOn(cfg, w, e, p, at);
    }
  }

  /** As long as thirty refused syncs are queued ahead, row p is not claimed, however many passes run and
      whatever else happens: the bound 29 above cannot be raised. */
  lemma {:induction false} Starvation(cfg: Config, w: World, run: seq<Event>, p: nat, at: int)
    requires Crowded(w, p, at) && Legal(cfg, w, run) && Held(cfg, w, run, p) && Spaced(at, ClaimTimes(run))
    requires Thirty(After(cfg, w, run), p)
    ensures var w' := After(cfg, w, run);
      w'.db.jobs[p] == w.db.jobs[p] && Crowded(w', p, NextPoll(at, ClaimTimes(run)))
    decreases |run|
  {
    if run != [] {
      var e, w1 := run[0], Next(cfg, w, run[0]);
      HeldStepShrinks(cfg, w, e, p);
      HeldShrinks(cfg, w1, run[1..], p);
      CardinalityMonotone(QueuedAhead(After(cfg, w, run).db.jobs, p), QueuedAhead(w1.db.jobs, p));
      PollsAfter(at, run);
      CrowdedStep(cfg, w, e, p, at);
      Starvation(cfg, w1, run[1..], p, NextDue(at, e));
    }
  }

  /** Everything queued ahead of p is due at `now`. */
  ghost predicate AllDue(w: World, p: nat, now: int) {
    && !w.worker.Busy() && BehindSyncs(w.db.jobs, p, now)
    && DueAhead(w.db.jobs, p, now) == QueuedAhead(w.db.jobs, p)
  }

  lemma AllDueIsCrowded(w: World, p: nat, now: int)
    requires AllDue(w, p, now) && Thirty(w, p)
    ensures Crowded(w, p, now)
  {
    forall k: nat | k <= 5 ensures LateAhead(w.db.jobs, p, now + k * (5 * SECOND)) == {} {
      assert forall i :: i in QueuedAhead(w.db.jobs, p) ==> i in DueAhead(w.db.jobs, p, now);
    }
  }

  /** The two halves joined: with n syncs due ahead, refused in passes 5 seconds and more apart within half a
      minute, until p is taken or six passes were made: p is taken exactly if n is below thirty. */
  lemma StarvedExactly(cfg: Config, w: World, run: seq<Event>, p: nat, now: int, last: int)
    requires AllDue(w, p, now) && last < now + POSTPONE
    requires Legal(cfg, w, run) && Held(cfg, w, run, p)
    requires Spaced(now, ClaimTimes(run)) && Within(ClaimTimes(run), now, last)
    requires Taken(After(cfg, w, run), p) || |ClaimTimes(run)| >= 6
    requires var w' := After(cfg, w, run); p in w'.db.jobs && QueuedAhead(w'.db.jobs, p) == QueuedAhead(w.db.jobs, p)
    ensures Taken(After(cfg, w, run), p) <==> |QueuedAhead(w.db.jobs, p)| < 30
  {
    if Thirty(w, p) {
      AllDueIsCrowded(w, p, now);
      Starvation(cfg, w, run, p, now);
    } else if !Taken(After(cfg, w, run), p) {
      FivePerPass(cfg, w, run, p, now, last);
    }
  }
}
