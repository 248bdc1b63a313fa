/** The dashboard's "next synchronisation" against what the scheduler will do. */
module Prediction {
  import opened Wrappers
  import opened Tables
  import opened Transactions
  import opened Portal

  /** When this row next becomes due, seen from `now`. */
  function NextOf(s: SyncJob, interval: int, now: int): int {
    if s.lastEnqueuedAt.None? || s.lastEnqueuedAt.value + interval < now then now
    else s.lastEnqueuedAt.value + interval
  }

  function EnabledRows(schedule: map<nat, SyncJob>): set<nat> {
    set m | m in schedule && schedule[m].enabled
  }

  ghost predicate IsSoonest(schedule: map<nat, SyncJob>, interval: int, now: int, soonest: Option<int>) {
    && (soonest.None? <==> EnabledRows(schedule) == {})
    && (soonest.Some? ==>
          && (exists m :: m in EnabledRows(schedule) && NextOf(schedule[m], interval, now) == soonest.value)
          && forall m :: m in EnabledRows(schedule) ==> soonest.value <= NextOf(schedule[m], interval, now))
  }

  /** `configured`: the minutes in the settings row, if there is one; the scheduler reads them alike. */
  method NextSync(schedule: map<nat, SyncJob>, configured: Option<int>, now: int, rows: seq<nat>)
    returns (soonest: Option<int>)
    requires Lists(rows, EnabledRows(schedule))
    ensures IsSoonest(schedule, Interval(configured), now, soonest)
  {
    var interval := Interval(configured);
    soonest := None;
    for k := 0 to |rows|
      invariant soonest.None? <==> k == 0
      invariant soonest.Some? ==>
        exists a :: 0 <= a < k && rows[a] in schedule && NextOf(schedule[rows[a]], interval, now) == soonest.value
      invariant soonest.Some? ==>
        forall a :: 0 <= a < k ==> rows[a] in schedule && soonest.value <= NextOf(schedule[rows[a]], interval, now)
    {
      assert rows[k] in rows;
      var s := schedule[rows[k]];
      var next := now;
      if s.lastEnqueuedAt.Some? {
        next := s.lastEnqueuedAt.value + interval;
        if next < now {
          next := now;
        }
      }
      if soonest.None? || next < soonest.value {
        soonest := Some(next);
      }
    }
    if |rows| > 0 {
      assert rows[0] in rows;
    }
    assert forall m :: m in EnabledRows(schedule) ==> m in rows;
    assert forall a :: 0 <= a < |rows| ==> rows[a] in EnabledRows(schedule);
  }

  /** No tick can enqueue before the prediction; a tick at or after it enqueues unless every mailbox that is
      due by then still has an unfinished sync. */
  lemma PredictionNeverLate(db: Db, interval: int, now: int, t: int, soonest: Option<int>, rows: seq<nat>)
    requires IsSoonest(db.schedule, interval, now, soonest) && now <= t
    requires ListsEnabled(db, rows) && Fresh(db)
    ensures TickTx(db, interval, t, rows).1 != [] ==> soonest.Some? && soonest.value <= t
    ensures soonest.Some? && soonest.value <= t && TickTx(db, interval, t, rows).1 == [] ==>
      forall m :: m in db.schedule && db.schedule[m].enabled && IsDue(db.schedule[m], interval, t) ==>
        HasPendingSync(db.jobs, m)
  {
    TickSpecification(db, interval, t, rows);
    var added := TickTx(db, interval, t, rows).1;
    if added != [] {
      assert added[0] in added;
      assert added[0] in EnabledRows(db.schedule);
    }
    forall m | m in db.schedule && db.schedule[m].enabled && IsDue(db.schedule[m], interval, t) && added == []
      ensures HasPendingSync(db.jobs, m)
    {
      assert m in rows && m !in added;
    }
  }

  /** With nothing pending and nothing changed in between, a tick at t enqueues something if and only if the
      prediction made at `now` is at most t. */
  lemma PredictionExact(db: Db, interval: int, now: int, t: int, soonest: Option<int>, rows: seq<nat>)
    requires IsSoonest(db.schedule, interval, now, soonest) && now <= t
    requires ListsEnabled(db, rows) && Fresh(db)
    requires forall m :: m in db.schedule && db.schedule[m].enabled ==> !HasPendingSync(db.jobs, m)
    ensures TickTx(db, interval, t, rows).1 != [] <==> soonest.Some? && soonest.value <= t
  {
    PredictionNeverLate(db, interval, now, t, soonest, rows);
    if soonest.Some? && soonest.value <= t {
      var m :| m in EnabledRows(db.schedule) && NextOf(db.schedule[m], interval, now) == soonest.value;
      assert IsDue(db.schedule[m], interval, t);
    }
  }
}
