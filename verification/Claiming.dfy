/** One claim pass of the worker: the candidate query and the loop over its answer. */
module Claiming {
  import opened Wrappers
  import opened Tables
  import opened Throttle

  const BATCH := 5
  const POSTPONE := 30 * SECOND

  predicate Due(j: Job, now: int) {
    j.status == Queued && j.runAfter <= now
  }

  function DueRows(jobs: Jobs, now: int): set<nat> {
    set i | i in jobs && Due(jobs[i], now)
  }

  /** ORDER BY priority, id. */
  predicate Before(jobs: Jobs, a: nat, b: nat)
    requires a in jobs && b in jobs
  {
    jobs[a].priority < jobs[b].priority || (jobs[a].priority == jobs[b].priority && a < b)
  }

  ghost predicate IsFirst(jobs: Jobs, s: set<nat>, m: nat)
    requires s <= jobs.Keys
  {
    m in s && forall x :: x in s && x != m ==> Before(jobs, m, x)
  }

  lemma {:induction false} FirstExists(jobs: Jobs, s: set<nat>) returns (m: nat)
    requires s != {} && s <= jobs.Keys
    ensures IsFirst(jobs, s, m)
    decreases s
  {
    var y :| y in s;
    m := y;
    if s != {y} {
      m := FirstExists(jobs, s - {y});
      if Before(jobs, y, m) {
        forall x | x in s && x != y ensures Before(jobs, y, x) {
          assert x == m || Before(jobs, m, x);
        }
        m := y;
      }
    }
  }

  ghost function First(jobs: Jobs, s: set<nat>): (m: nat)
    requires s != {} && s <= jobs.Keys
    ensures m in s && forall x :: x in s && x != m ==> Before(jobs, m, x)
  {
    assert exists m :: IsFirst(jobs, s, m) by {
      var m := FirstExists(jobs, s);
    }
    var m :| IsFirst(jobs, s, m);
    m
  }

  /** The first `limit` rows of `s` in (priority, id) order. */
  ghost function Front(jobs: Jobs, s: set<nat>, limit: nat): (c: seq<nat>)
    requires s <= jobs.Keys
    ensures forall i :: i in c ==> i in s
    ensures |c| <= limit
    decreases limit
  {
    if limit == 0 || s == {} then []
    else
      var m := First(jobs, s);
      [m] + Front(jobs, s - {m}, limit - 1)
  }

  /** What the candidate query returns. */
  ghost function Candidates(jobs: Jobs, now: int): (c: seq<nat>)
    ensures forall i :: i in c ==> i in jobs && Due(jobs[i], now)
  {
    Front(jobs, DueRows(jobs, now), BATCH)
  }

  function Postponed(j: Job, now: int): Job {
    j.(runAfter := now + POSTPONE)
  }

  function ClaimedRow(j: Job, now: int): Job {
    j.(status := Running, lockedAt := Some(now), attempts := j.attempts + 1)
  }

  /** The loop over the candidates: throttled syncs are pushed back, the first other row is taken. */
  function Scan(jobs: Jobs, c: seq<nat>, throttled: bool, now: int): (r: (Jobs, Option<nat>))
    requires forall i :: i in c ==> i in jobs
    decreases |c|
  {
    if c == [] then (jobs, None)
    else if jobs[c[0]].work.Sync? && throttled then
      Scan(jobs[c[0] := Postponed(jobs[c[0]], now)], c[1..], throttled, now)
    else (jobs[c[0] := ClaimedRow(jobs[c[0]], now)], Some(c[0]))
  }

  ghost function ClaimPass(jobs: Jobs, throttled: bool, now: int): (Jobs, Option<nat>) {
    Scan(jobs, Candidates(jobs, now), throttled, now)
  }

  ghost function ClaimTx(db: Db, p: Policy, now: int): (Db, Option<nat>) {
    var (jobs, claimed) := ClaimPass(db.jobs, !MayStart(db.runs, p, now), now);
    (db.(jobs := jobs), claimed)
  }

  // --- The pass, restated without the loop -------------------------------------

  function Ahead(jobs: Jobs, s: set<nat>, i: nat): set<nat>
    requires s <= jobs.Keys && i in jobs
  {
    set x | x in s && Before(jobs, x, i)
  }

  /** The first five due rows, as a set: fewer than five due rows come before each. */
  function FirstFive(jobs: Jobs, now: int): set<nat> {
    set i | i in DueRows(jobs, now) && |Ahead(jobs, DueRows(jobs, now), i)| < BATCH
  }

  ghost predicate Ascending(jobs: Jobs, c: seq<nat>) {
    && (forall i :: i in c ==> i in jobs)
    && forall a, b :: 0 <= a < b < |c| ==> Before(jobs, c[a], c[b])
  }

  lemma AscendingCons(jobs: Jobs, m: nat, tail: seq<nat>)
    requires Ascending(jobs, tail) && m in jobs
    requires forall i :: i in tail ==> Before(jobs, m, i)
    ensures Ascending(jobs, [m] + tail)
  {
  }

  lemma {:induction false} FrontAscending(jobs: Jobs, s: set<nat>, limit: nat)
    requires s <= jobs.Keys
    ensures Ascending(jobs, Front(jobs, s, limit))
    ensures |Front(jobs, s, limit)| == if |s| < limit then |s| else limit
    decreases limit
  {
    if limit != 0 && s != {} {
      var m := First(jobs, s);
      FrontAscending(jobs, s - {m}, limit - 1);
      AscendingCons(jobs, m, Front(jobs, s - {m}, limit - 1));
    }
  }

  lemma {:induction false} FrontByRank(jobs: Jobs, s: set<nat>, limit: nat, i: nat)
    requires s <= jobs.Keys && i in s
    ensures i in Front(jobs, s, limit) <==> |Ahead(jobs, s, i)| < limit
    decreases limit
  {
    if limit != 0 {
      var m := First(jobs, s);
      if i == m {
        assert Ahead(jobs, s, m) == {};
      } else {
        FrontByRank(jobs, s - {m}, limit - 1, i);
        assert Ahead(jobs, s, i) == Ahead(jobs, s - {m}, i) + {m};
      }
    }
  }

  lemma CandidatesAreFirstFive(jobs: Jobs, now: int)
    ensures forall i :: i in Candidates(jobs, now) <==> i in FirstFive(jobs, now)
    ensures Ascending(jobs, Candidates(jobs, now))
    ensures |Candidates(jobs, now)| == if |DueRows(jobs, now)| < BATCH then |DueRows(jobs, now)| else BATCH
  {
    FrontAscending(jobs, DueRows(jobs, now), BATCH);
    forall i | i in DueRows(jobs, now)
      ensures i in Candidates(jobs, now) <==> |Ahead(jobs, DueRows(jobs, now), i)| < BATCH
    {
      FrontByRank(jobs, DueRows(jobs, now), BATCH, i);
    }
  }

  function RowAfter(jobs: Jobs, c: seq<nat>, k: nat, now: int, i: nat): Job
    requires i in jobs && k <= |c|
  {
    if i in c[..k] then Postponed(jobs[i], now)
    else if k < |c| && i == c[k] then ClaimedRow(jobs[i], now)
    else jobs[i]
  }

  /** Everything the loop does, row by row, in terms of where it stopped. */
  lemma {:induction false} ScanStops(jobs: Jobs, c: seq<nat>, throttled: bool, now: int) returns (k: nat)
    requires forall i :: i in c ==> i in jobs
    requires forall a, b :: 0 <= a < b < |c| ==> c[a] != c[b]
    ensures k <= |c|
    ensures forall a :: 0 <= a < k ==> jobs[c[a]].work.Sync? && throttled
    ensures k < |c| ==> !(jobs[c[k]].work.Sync? && throttled)
    ensures Scan(jobs, c, throttled, now).1 == if k < |c| then Some(c[k]) else None
    ensures Scan(jobs, c, throttled, now).0.Keys == jobs.Keys
    ensures forall i :: i in jobs ==> Scan(jobs, c, throttled, now).0[i] == RowAfter(jobs, c, k, now, i)
    decreases |c|
  {
    k := 0;
    if c != [] && jobs[c[0]].work.Sync? && throttled {
      var jobs' := jobs[c[0] := Postponed(jobs[c[0]], now)];
      var tail := c[1..];
      var k' := ScanStops(jobs', tail, throttled, now);
      k := k' + 1;
      assert c[..k] == [c[0]] + tail[..k'];
      assert forall i :: i in c[..k] <==> i == c[0] || i in tail[..k'];
      forall a | 0 <= a < k ensures jobs[c[a]].work.Sync? {
        if a > 0 {
          assert c[a] == tail[a - 1];
        }
      }
    }
  }

  predicate Skippable(j: Job, throttled: bool) {
    j.work.Sync? && throttled
  }

  /** The claimed row is the least (priority, id) among the first five due rows that is not a throttled
      sync; the throttled syncs of the five that precede it, and nothing else, move 30 seconds back. */
  ghost predicate ClaimMeets(jobs: Jobs, throttled: bool, now: int, jobs': Jobs, claimed: Option<nat>) {
    var five := FirstFive(jobs, now);
    && jobs'.Keys == jobs.Keys
    && (claimed.None? <==> forall i :: i in five ==> Skippable(jobs[i], throttled))
    && (claimed.Some? ==>
          && claimed.value in five && !Skippable(jobs[claimed.value], throttled)
          && forall i :: i in five && !Skippable(jobs[i], throttled) && i != claimed.value ==>
              Before(jobs, claimed.value, i))
    && forall i :: i in jobs ==>
         jobs'[i] == if claimed == Some(i) then ClaimedRow(jobs[i], now)
                     else if i in five && (claimed.None? || Before(jobs, i, claimed.value)) then Postponed(jobs[i], now)
                     else jobs[i]
  }

  lemma PrefixByOrder(jobs: Jobs, c: seq<nat>, k: nat, i: nat)
    requires Ascending(jobs, c) && k < |c| && i in c
    ensures i in c[..k] <==> Before(jobs, i, c[k])
  {
  }

  lemma ClaimSpecification(jobs: Jobs, throttled: bool, now: int)
    ensures ClaimMeets(jobs, throttled, now, ClaimPass(jobs, throttled, now).0, ClaimPass(jobs, throttled, now).1)
  {
    var c, five := Candidates(jobs, now), FirstFive(jobs, now);
    CandidatesAreFirstFive(jobs, now);
    var k := ScanStops(jobs, c, throttled, now);
    assert forall i :: i in c <==> i in five;
    if k < |c| {
      assert c[k] in five;
      forall i | i in c ensures i in c[..k] <==> Before(jobs, i, c[k]) {
        PrefixByOrder(jobs, c, k, i);
      }
      forall i | i in five && !Skippable(jobs[i], throttled) && i != c[k] ensures Before(jobs, c[k], i) {
        assert i !in c[..k];
      }
    } else {
      assert c[..k] == c;
    }
  }

  // --- The pass in terms of the rows themselves ---------------------------------------------

  /** The due rows that are more urgent than row i, or as urgent and older. */
  function DueBefore(jobs: Jobs, now: int, i: nat): set<nat>
    requires i in jobs
  {
    set x | x in jobs && jobs[x].status == Queued && jobs[x].runAfter <= now
      && (jobs[x].priority < jobs[i].priority || (jobs[x].priority == jobs[i].priority && x < i))
  }

  /** Row i is due, at most four due rows come before it, and all of them are syncs that are refused. */
  ghost predicate Reached(jobs: Jobs, refused: bool, now: int, i: nat) {
    && i in jobs && jobs[i].status == Queued && jobs[i].runAfter <= now && |DueBefore(jobs, now, i)| <= 4
    && forall x :: x in DueBefore(jobs, now, i) ==> refused && jobs[x].work.Sync?
  }

  lemma ReachedIsInFive(jobs: Jobs, refused: bool, now: int, i: nat)
    requires i in jobs
    ensures Reached(jobs, refused, now, i) <==>
      && i in FirstFive(jobs, now)
      && forall x :: x in FirstFive(jobs, now) && Before(jobs, x, i) ==> Skippable(jobs[x], refused)
  {
    if i in DueRows(jobs, now) {
      assert Ahead(jobs, DueRows(jobs, now), i) == DueBefore(jobs, now, i);
      forall x | x in DueBefore(jobs, now, i) && i in FirstFive(jobs, now) ensures x in FirstFive(jobs, now) {
        CardinalityMonotone(Ahead(jobs, DueRows(jobs, now), x), Ahead(jobs, DueRows(jobs, now), i));
      }
    }
  }

  /** The row claimed is the one reached that is not itself a refused sync: it runs, locked now, with one attempt
      more. The refused syncs reached are due again in 30 seconds. Nothing else changes. */
  lemma ClaimedExactly(jobs: Jobs, refused: bool, now: int, i: nat)
    requires i in jobs
    ensures var jobs', claimed := ClaimPass(jobs, refused, now).0, ClaimPass(jobs, refused, now).1;
      var isRefused := refused && jobs[i].work.Sync?;
      && jobs'.Keys == jobs.Keys
      && (claimed == Some(i) <==> Reached(jobs, refused, now, i) && !isRefused)
      && jobs'[i] ==
         if !Reached(jobs, refused, now, i) then jobs[i]
         else if isRefused then jobs[i].(runAfter := now + 30_000_000)
         else jobs[i].(status := Running, lockedAt := Some(now), attempts := jobs[i].attempts + 1)
  {
    var jobs', claimed := ClaimPass(jobs, refused, now).0, ClaimPass(jobs, refused, now).1;
    ClaimSpecification(jobs, refused, now);
    ReachedIsInFive(jobs, refused, now, i);
    if claimed.Some? {
      ReachedIsInFive(jobs, refused, now, claimed.value);
      assert i == claimed.value || Before(jobs, i, claimed.value) || Before(jobs, claimed.value, i);
    }
  }
}
