/** The rate limit on all syncs ever started, not only on the run rows that are kept. */
module Starts {
  import opened Tables
  import opened Throttle
  import opened Transactions
  import opened Protocol
  import opened Invariants
  import opened Guarantees

  /** Run id to the time its sync started, deleted rows included. */
  type Started = map<nat, int>

  function StartsWithin(starts: Started, from: int, width: int): set<nat> {
    set r | r in starts && from <= starts[r] <= from + width
  }

  function StartsSince(starts: Started, since: int): set<nat> {
    set r | r in starts && since <= starts[r]
  }

  ghost predicate StartsHold(starts: Started, width: int, limit: int) {
    forall from :: |StartsWithin(starts, from, width)| <= Bound(limit)
  }

  /** With the limit kept so far and the clock at or past every start, one more start keeps it exactly when
      fewer than `limit` starts, deleted ones included, lie within `width` before it. */
  lemma OneMoreFits(starts: Started, id: nat, now: int, width: int, limit: int)
    requires id !in starts && 0 <= width && StartsHold(starts, width, limit)
    requires forall r :: r in starts ==> starts[r] <= now
    ensures StartsHold(starts[id := now], width, limit) <==> |StartsSince(starts, now - width)| < Bound(limit)
  {
    var starts', recent := starts[id := now], StartsSince(starts, now - width);
    assert StartsWithin(starts', now - width, width) == recent + {id};
    if |recent| < Bound(limit) {
      forall from ensures |StartsWithin(starts', from, width)| <= Bound(limit) {
        OneMoreInWindow(starts, id, now, from, width, limit);
      }
    }
  }

  lemma OneMoreInWindow(starts: Started, id: nat, now: int, from: int, width: int, limit: int)
    requires id !in starts && 0 <= width && StartsHold(starts, width, limit)
    requires forall r :: r in starts ==> starts[r] <= now
    requires |StartsSince(starts, now - width)| < Bound(limit)
    ensures |StartsWithin(starts[id := now], from, width)| <= Bound(limit)
  {
    var before, after := StartsWithin(starts, from, width), StartsWithin(starts[id := now], from, width);
    if from <= now <= from + width {
      assert after == before + {id};
      CardinalityMonotone(before, StartsSince(starts, now - width));
    } else {
      assert after == before;
    }
  }

  lemma FewerStartsHold(starts: Started, starts': Started, width: int, limit: int)
    requires StartsHold(starts', width, limit)
    requires forall r :: r in starts ==> r in starts' && starts'[r] == starts[r]
    ensures StartsHold(starts, width, limit)
  {
    forall from ensures |StartsWithin(starts, from, width)| <= Bound(limit) {
      CardinalityMonotone(StartsWithin(starts, from, width), StartsWithin(starts', from, width));
    }
  }

  // --- The exact condition, over whole runs -------------------------------------------------

  /** This step starts a sync. */
  predicate Opens(w: World, e: Event) {
    e.OpenRun? && w.worker.Claimed? && w.worker.work.Sync? && SyncProceeds(w.db, w.worker.work.mailbox, e.vm2Configured)
  }

  ghost predicate StartsKnown(w: World) {
    forall r :: r in w.log.starts ==> r < w.db.nextRun && w.log.starts[r] <= w.clock
  }

  lemma StartsAtOpening(cfg: Config, w: World, e: Event)
    requires Enabled(w, e) && e.OpenRun? && StartsKnown(w)
    ensures StartsKnown(Next(cfg, w, e))
    ensures Next(cfg, w, e).log.starts == if Opens(w, e) then w.log.starts[w.db.nextRun := e.now] else w.log.starts
  {
  }

  lemma StartsAtClaim(cfg: Config, w: World, e: Event)
    requires Enabled(w, e) && e.Claim?
    ensures Next(cfg, w, e).log.starts == w.log.starts && Next(cfg, w, e).db.nextRun == w.db.nextRun
  {
  }

  lemma StartsElsewhere(cfg: Config, w: World, e: Event)
    requires Enabled(w, e) && !e.OpenRun?
    ensures Next(cfg, w, e).log.starts == w.log.starts && Next(cfg, w, e).db.nextRun == w.db.nextRun
  {
    if e.Tick? {
      TickFrame(w.db, cfg.interval, e.now, e.rows);
    } else if e.Claim? {
      StartsAtClaim(cfg, w, e);
    }
  }

  lemma StartsStep(cfg: Config, w: World, e: Event)
    requires Enabled(w, e) && StartsKnown(w)
    ensures StartsKnown(Next(cfg, w, e))
    ensures Next(cfg, w, e).log.starts == if Opens(w, e) then w.log.starts[w.db.nextRun := e.now] else w.log.starts
  {
    if e.OpenRun? {
      StartsAtOpening(cfg, w, e);
    } else {
      StartsElsewhere(cfg, w, e);
    }
  }

  lemma {:induction false} StartsOnlyGrow(cfg: Config, w: World, run: seq<Event>)
    requires Legal(cfg, w, run) && StartsKnown(w)
    ensures forall r :: r in w.log.starts ==>
      r in After(cfg, w, run).log.starts && After(cfg, w, run).log.starts[r] == w.log.starts[r]
    decreases |run|
  {
    if run != [] {
      StartsStep(cfg, w, run[0]);
      StartsOnlyGrow(cfg, Next(cfg, w, run[0]), run[1..]);
    }
  }

  predicate StartFits(w: World, e: Event, width: int, limit: int) {
    Opens(w, e) ==> |StartsSince(w.log.starts, e.now - width)| < Bound(limit)
  }

  /** Every start of the run finds fewer than `limit` starts, deleted ones included, within `width` before it. */
  ghost predicate EveryStartFits(cfg: Config, w: World, run: seq<Event>, width: int, limit: int)
    requires Legal(cfg, w, run)
    decreases |run|
  {
    run == [] ||
    (StartFits(w, run[0], width, limit) && EveryStartFits(cfg, Next(cfg, w, run[0]), run[1..], width, limit))
  }

  lemma {:induction false} StartsHoldFrom(cfg: Config, w: World, run: seq<Event>, width: int, limit: int)
    requires Legal(cfg, w, run) && StartsKnown(w) && 0 <= width && StartsHold(w.log.starts, width, limit)
    ensures StartsHold(After(cfg, w, run).log.starts, width, limit) <==> EveryStartFits(cfg, w, run, width, limit)
    decreases |run|
  {
    if run != [] {
      var w1, tail := Next(cfg, w, run[0]), run[1..];
      StartsStep(cfg, w, run[0]);
      if Opens(w, run[0]) {
        OneMoreFits(w.log.starts, w.db.nextRun, run[0].now, width, limit);
      }
      if StartsHold(w1.log.starts, width, limit) {
        StartsHoldFrom(cfg, w1, tail, width, limit);
      } else {
        StartsOnlyGrow(cfg, w1, tail);
        if StartsHold(After(cfg, w1, tail).log.starts, width, limit) {
          FewerStartsHold(w1.log.starts, After(cfg, w1, tail).log.starts, width, limit);
        }
      }
    }
  }

  /** Over every run, for every width and limit: no closed interval of that width holds more than `limit` starts
      if and only if every start passed the look-back count that also counts deleted runs. */
  lemma StartsLimitedExactly(cfg: Config, run: seq<Event>, width: int, limit: int)
    requires Legal(cfg, START, run) && 0 <= width
    ensures StartsHold(After(cfg, START, run).log.starts, width, limit)
      <==> EveryStartFits(cfg, START, run, width, limit)
  {
    assert START.log.starts == map[];
    StartsHoldFrom(cfg, START, run, width, limit);
  }

  // --- What deletions may drop --------------------------------------------------------------

  /** One of the three windows of the policy. */
  predicate Window(p: Policy, width: int, limit: int) {
    || (width == MINUTE && limit == p.perMinute)
    || (width == HOUR && limit == p.perHour)
    || (width == DAY && limit == p.perDay)
  }

  predicate DropsOlder(w: World, w': World, width: int) {
    forall r :: r in w.db.runs && r !in w'.db.runs ==> w.db.runs[r].startedAt < w.clock - width
  }

  /** Deletions drop only runs that started more than `width` ago. */
  ghost predicate DropsOnlyOlder(cfg: Config, w: World, run: seq<Event>, width: int)
    requires Legal(cfg, w, run)
    decreases |run|
  {
    run == [] ||
    (DropsOlder(w, Next(cfg, w, run[0]), width) && DropsOnlyOlder(cfg, Next(cfg, w, run[0]), run[1..], width))
  }

  ghost predicate RecentKept(w: World, width: int) {
    forall r :: r in w.log.starts && w.log.starts[r] >= w.clock - width ==> r in w.db.runs
  }

  lemma RecentKeptStep(cfg: Config, w: World, e: Event, width: int)
    requires Enabled(w, e) && StartsKnown(w) && StartsRecorded(w) && RecentKept(w, width)
    requires DropsOlder(w, Next(cfg, w, e), width)
    ensures RecentKept(Next(cfg, w, e), width)
  {
    StartsStep(cfg, w, e);
    if Opens(w, e) {
      assert w.db.nextRun in Next(cfg, w, e).db.runs;
    }
  }

  /** A permitted start passes the count of all recent starts, since their rows are still there. */
  lemma OpeningFits(cfg: Config, w: World, e: Event, width: int, limit: int)
    requires Inv(cfg, w) && Enabled(w, e) && Opens(w, e) && RecentKept(w, width) && Window(cfg.policy, width, limit)
    ensures |StartsSince(w.log.starts, e.now - width)| < Bound(limit)
  {
    StaysAllowed(w.db.runs, w.db.runs, cfg.policy, w.clock, e.now);
    CardinalityMonotone(StartsSince(w.log.starts, e.now - width), StartedSince(w.db.runs, e.now - width));
  }

  ghost predicate Counted(cfg: Config, w: World, width: int) {
    Inv(cfg, w) && StartsKnown(w) && RecentKept(w, width)
  }

  lemma CountedStep(cfg: Config, w: World, e: Event, width: int, limit: int)
    requires Counted(cfg, w, width) && Enabled(w, e) && Window(cfg.policy, width, limit)
    requires DropsOlder(w, Next(cfg, w, e), width)
    ensures StartFits(w, e, width, limit)
    ensures Counted(cfg, Next(cfg, w, e), width)
  {
    if Opens(w, e) {
      OpeningFits(cfg, w, e, width, limit);
    }
    StartsStep(cfg, w, e);
    RecentKeptStep(cfg, w, e, width);
    InvStep(cfg, w, e);
  }

  lemma {:induction false} OldDropsFit(cfg: Config, w: World, run: seq<Event>, width: int, limit: int)
    requires Counted(cfg, w, width) && Legal(cfg, w, run)
    requires Window(cfg.policy, width, limit) && DropsOnlyOlder(cfg, w, run, width)
    ensures EveryStartFits(cfg, w, run, width, limit)
    decreases |run|
  {
    if run != [] {
      CountedStep(cfg, w, run[0], width, limit);
      OldDropsFit(cfg, Next(cfg, w, run[0]), run[1..], width, limit);
    }
  }

  /** Over every run whose deletions drop only runs older than a window, that window's limit holds of every sync
      ever started. */
  lemma StartsLimited(cfg: Config, run: seq<Event>, width: int, limit: int)
    requires Legal(cfg, START, run) && Window(cfg.policy, width, limit) && DropsOnlyOlder(cfg, START, run, width)
    ensures StartsHold(After(cfg, START, run).log.starts, width, limit)
  {
    InvStart(cfg);
    OldDropsFit(cfg, START, run, width, limit);
    StartsLimitedExactly(cfg, run, width, limit);
  }
}
