/** Concurrency limit and three sliding windows over `job_runs`. */
module Throttle {
  import opened Wrappers
  import opened Tables

  datatype Policy = Policy(concurrent: int, perMinute: int, perHour: int, perDay: int)

  datatype Reason = ConcurrentLimit | MinuteLimit | HourLimit | DayLimit

  function RunningRuns(runs: Runs): set<nat> {
    set r | r in runs && runs[r].status == InProgress
  }

  function StartedSince(runs: Runs, since: int): set<nat> {
    set r | r in runs && since <= runs[r].startedAt
  }

  /** The runs started inside the closed interval [from, from + width]. */
  function StartedWithin(runs: Runs, from: int, width: int): set<nat> {
    set r | r in runs && from <= runs[r].startedAt <= from + width
  }

  function Refusal(runs: Runs, p: Policy, now: int): Option<Reason> {
    if |RunningRuns(runs)| >= p.concurrent then Some(ConcurrentLimit)
    else if |StartedSince(runs, now - MINUTE)| >= p.perMinute then Some(MinuteLimit)
    else if |StartedSince(runs, now - HOUR)| >= p.perHour then Some(HourLimit)
    else if |StartedSince(runs, now - DAY)| >= p.perDay then Some(DayLimit)
    else None
  }

  predicate MayStart(runs: Runs, p: Policy, now: int) {
    Refusal(runs, p, now).None?
  }

  function Bound(limit: int): nat {
    if limit < 0 then 0 else limit
  }

  ghost predicate WindowHolds(runs: Runs, width: int, limit: int) {
    forall from :: |StartedWithin(runs, from, width)| <= Bound(limit)
  }

  /** What the policy promises of the table: concurrency, and all three windows in every position. */
  ghost predicate WithinPolicy(runs: Runs, p: Policy) {
    && |RunningRuns(runs)| <= Bound(p.concurrent)
    && WindowHolds(runs, MINUTE, p.perMinute)
    && WindowHolds(runs, HOUR, p.perHour)
    && WindowHolds(runs, DAY, p.perDay)
  }

  /** Whatever `can_start_sync_now` allowed stays allowed while time passes and rows only close or vanish. */
  lemma StaysAllowed(runs: Runs, runs': Runs, p: Policy, now: int, now': int)
    requires MayStart(runs, p, now) && now <= now'
    requires forall r :: r in runs' ==> r in runs && runs'[r].startedAt == runs[r].startedAt
    requires forall r :: r in runs' && runs'[r].status == InProgress ==> runs[r].status == InProgress
    ensures MayStart(runs', p, now')
  {
    CardinalityMonotone(RunningRuns(runs'), RunningRuns(runs));
    CardinalityMonotone(StartedSince(runs', now' - MINUTE), StartedSince(runs, now - MINUTE));
    CardinalityMonotone(StartedSince(runs', now' - HOUR), StartedSince(runs, now - HOUR));
    CardinalityMonotone(StartedSince(runs', now' - DAY), StartedSince(runs, now - DAY));
  }

  lemma FewerRunsStayWithin(runs: Runs, runs': Runs, p: Policy)
    requires WithinPolicy(runs, p)
    requires forall r :: r in runs' ==> r in runs && runs'[r].startedAt == runs[r].startedAt
    requires forall r :: r in runs' && runs'[r].status == InProgress ==> runs[r].status == InProgress
    ensures WithinPolicy(runs', p)
  {
    CardinalityMonotone(RunningRuns(runs'), RunningRuns(runs));
    FewerRunsKeepWindow(runs, runs', MINUTE, p.perMinute);
    FewerRunsKeepWindow(runs, runs', HOUR, p.perHour);
    FewerRunsKeepWindow(runs, runs', DAY, p.perDay);
  }

  lemma FewerRunsKeepWindow(runs: Runs, runs': Runs, width: int, limit: int)
    requires WindowHolds(runs, width, limit)
    requires forall r :: r in runs' ==> r in runs && runs'[r].startedAt == runs[r].startedAt
    ensures WindowHolds(runs', width, limit)
  {
    forall from ensures |StartedWithin(runs', from, width)| <= Bound(limit) {
      CardinalityMonotone(StartedWithin(runs', from, width), StartedWithin(runs, from, width));
    }
  }

  /** Opening a run at the newest instant, after the check passed, keeps one window everywhere. */
  lemma OpeningKeepsWindow(runs: Runs, id: nat, run: JobRun, width: int, limit: int)
    requires id !in runs && 0 <= width
    requires WindowHolds(runs, width, limit)
    requires forall r :: r in runs ==> runs[r].startedAt <= run.startedAt
    requires |StartedSince(runs, run.startedAt - width)| < limit
    ensures WindowHolds(runs[id := run], width, limit)
  {
    var runs' := runs[id := run];
    forall from ensures |StartedWithin(runs', from, width)| <= Bound(limit) {
      var before, after := StartedWithin(runs, from, width), StartedWithin(runs', from, width);
      if from <= run.startedAt <= from + width {
        assert after == before + {id};
        CardinalityMonotone(before, StartedSince(runs, run.startedAt - width));
      } else {
        assert after == before;
      }
    }
  }

  lemma OpeningStaysWithin(runs: Runs, id: nat, run: JobRun, p: Policy)
    requires id !in runs && run.status == InProgress
    requires WithinPolicy(runs, p) && MayStart(runs, p, run.startedAt)
    requires forall r :: r in runs ==> runs[r].startedAt <= run.startedAt
    ensures WithinPolicy(runs[id := run], p)
  {
    assert RunningRuns(runs[id := run]) == RunningRuns(runs) + {id};
    OpeningKeepsWindow(runs, id, run, MINUTE, p.perMinute);
    OpeningKeepsWindow(runs, id, run, HOUR, p.perHour);
    OpeningKeepsWindow(runs, id, run, DAY, p.perDay);
  }

  // --- Refused is what would break the policy ---------------------------------------------

  function Opened(runs: Runs, id: nat, mailbox: nat, now: int): Runs {
    runs[id := JobRun(mailbox, InProgress, now, None)]
  }

  ghost predicate ConcurrencyKept(runs: Runs, p: Policy) {
    |RunningRuns(runs)| <= Bound(p.concurrent)
  }

  /** A refusing count means a window that the start would overfill: the one that ends with it. */
  lemma RefusedWindowBreaks(runs: Runs, id: nat, mailbox: nat, now: int, width: int, limit: int)
    requires id !in runs && 0 <= width && forall r :: r in runs ==> runs[r].startedAt <= now
    requires WindowHolds(runs, width, limit)
    ensures WindowHolds(Opened(runs, id, mailbox, now), width, limit) <==> |StartedSince(runs, now - width)| < limit
  {
    var runs' := Opened(runs, id, mailbox, now);
    assert StartedWithin(runs', now - width, width) == StartedSince(runs, now - width) + {id};
    if |StartedSince(runs, now - width)| < limit {
      OpeningKeepsWindow(runs, id, runs'[id], width, limit);
    }
  }

  lemma RefusedConcurrencyBreaks(runs: Runs, id: nat, mailbox: nat, now: int, p: Policy)
    requires id !in runs
    ensures ConcurrencyKept(Opened(runs, id, mailbox, now), p) <==> |RunningRuns(runs)| < p.concurrent
  {
    assert RunningRuns(Opened(runs, id, mailbox, now)) == RunningRuns(runs) + {id};
  }

  /** A start is refused exactly when it would break the policy, and the reason given is the first limit, in the
      order concurrent, minute, hour, day, that it would break. */
  lemma RefusalNamesTheFirst(runs: Runs, id: nat, mailbox: nat, now: int, p: Policy)
    requires WithinPolicy(runs, p) && id !in runs && forall r :: r in runs ==> runs[r].startedAt <= now
    ensures var runs' := Opened(runs, id, mailbox, now);
      match Refusal(runs, p, now)
      case None => WithinPolicy(runs', p)
      case Some(ConcurrentLimit) => !ConcurrencyKept(runs', p)
      case Some(MinuteLimit) => ConcurrencyKept(runs', p) && !WindowHolds(runs', 60 * SECOND, p.perMinute)
      case Some(HourLimit) =>
        && ConcurrencyKept(runs', p) && WindowHolds(runs', 60 * SECOND, p.perMinute)
        && !WindowHolds(runs', 3600 * SECOND, p.perHour)
      case Some(DayLimit) =>
        && ConcurrencyKept(runs', p) && WindowHolds(runs', 60 * SECOND, p.perMinute)
        && WindowHolds(runs', 3600 * SECOND, p.perHour) && !WindowHolds(runs', 86400 * SECOND, p.perDay)
  {
    RefusedConcurrencyBreaks(runs, id, mailbox, now, p);
    RefusedWindowBreaks(runs, id, mailbox, now, MINUTE, p.perMinute);
    RefusedWindowBreaks(runs, id, mailbox, now, HOUR, p.perHour);
    RefusedWindowBreaks(runs, id, mailbox, now, DAY, p.perDay);
  }

  /** With the policy kept so far, a start is permitted if and only if it keeps the policy. */
  lemma PermittedExactly(runs: Runs, id: nat, mailbox: nat, now: int, p: Policy)
    requires WithinPolicy(runs, p) && id !in runs && forall r :: r in runs ==> runs[r].startedAt <= now
    ensures MayStart(runs, p, now) <==> WithinPolicy(Opened(runs, id, mailbox, now), p)
  {
    RefusalNamesTheFirst(runs, id, mailbox, now, p);
  }
}
