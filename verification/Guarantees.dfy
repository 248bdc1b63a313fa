/** What holds over whole runs of the portal, from an empty database. */
module Guarantees {
  import opened Wrappers
  import opened Tables
  import opened Throttle
  import opened Claiming
  import opened Transactions
  import opened Protocol
  import opened Invariants

  ghost predicate QueueInv(cfg: Config, w: World) {
    && RateLimited(cfg, w) && StartsRecorded(w)
    && OnePending(w) && AttemptsCountClaims(w) && UpdatesOnce(w) && Spread(cfg, w)
  }

  ghost predicate MailboxInv(w: World) {
    OneAssess(w) && ActiveMeansId(w) && MailAgrees(w)
  }

  ghost predicate Inv(cfg: Config, w: World) {
    Ids(w) && OneRunning(w) && QueueInv(cfg, w) && MailboxInv(w)
  }

  lemma InvStart(cfg: Config)
    ensures Inv(cfg, START)
  {
  }

  lemma QueueInvStep(cfg: Config, w: World, e: Event)
    requires Ids(w) && OneRunning(w) && QueueInv(cfg, w) && Enabled(w, e)
    ensures QueueInv(cfg, Next(cfg, w, e))
  {
    RateLimitedStep(cfg, w, e);
    StartsRecordedStep(cfg, w, e);
    OnePendingStep(cfg, w, e);
    AttemptsStep(cfg, w, e);
    UpdatesOnceStep(cfg, w, e);
    SpreadStep(cfg, w, e);
  }

  lemma MailboxInvStep(cfg: Config, w: World, e: Event)
    requires Ids(w) && MailboxInv(w) && Enabled(w, e)
    ensures MailboxInv(Next(cfg, w, e))
  {
    OneAssessStep(cfg, w, e);
    MailAgreesStep(cfg, w, e);
  }

  lemma InvStep(cfg: Config, w: World, e: Event)
    requires Inv(cfg, w) && Enabled(w, e)
    ensures Inv(cfg, Next(cfg, w, e))
  {
    IdsStep(cfg, w, e);
    OneRunningStep(cfg, w, e);
    QueueInvStep(cfg, w, e);
    MailboxInvStep(cfg, w, e);
  }

  lemma {:induction false} InvAlways(cfg: Config, w: World, run: seq<Event>)
    requires Inv(cfg, w) && Legal(cfg, w, run)
    ensures Inv(cfg, After(cfg, w, run))
    decreases |run|
  {
    if run != [] {
      InvStep(cfg, w, run[0]);
      InvAlways(cfg, Next(cfg, w, run[0]), run[1..]);
    }
  }

  ghost predicate Reachable(cfg: Config, w: World) {
    exists run :: Legal(cfg, START, run) && After(cfg, START, run) == w
  }

  lemma ReachableInv(cfg: Config, w: World)
    requires Reachable(cfg, w)
    ensures Inv(cfg, w)
  {
    var run :| Legal(cfg, START, run) && After(cfg, START, run) == w;
    InvStart(cfg);
    InvAlways(cfg, START, run);
  }

  // --- Throttling ---------------------------------------------------------------------

  /** Under any interleaving of ticks, manual syncs, imports, crashes, reaps, aborted transactions and
      deletions, no closed interval of 60 s, 3600 s or 86400 s holds more run rows than the policy allows,
      and no more than `concurrent_job_limit` rows are in progress. */
  lemma RateLimitAlways(cfg: Config, w: World, from: int)
    requires Reachable(cfg, w)
    ensures |RunningRuns(w.db.runs)| <= Bound(cfg.policy.concurrent)
    ensures |StartedWithin(w.db.runs, from, 60 * SECOND)| <= Bound(cfg.policy.perMinute)
    ensures |StartedWithin(w.db.runs, from, 3600 * SECOND)| <= Bound(cfg.policy.perHour)
    ensures |StartedWithin(w.db.runs, from, 86400 * SECOND)| <= Bound(cfg.policy.perDay)
  {
    ReachableInv(cfg, w);
  }

  // --- Pending syncs ------------------------------------------------------------------

  function PlainPending(jobs: Jobs, m: nat): set<nat> {
    set i | i in jobs && PendingPlain(jobs, i, m)
  }

  function PendingSyncs(jobs: Jobs, m: nat): set<nat> {
    set i | i in jobs && PendingSync(jobs[i], m)
  }

  function RunningJobs(jobs: Jobs): set<nat> {
    set i | i in jobs && jobs[i].status == Running
  }

  lemma AtMostOne<T>(s: set<T>)
    requires forall a, b :: a in s && b in s ==> a == b
    ensures |s| <= 1
  {
    if s != {} {
      var x :| x in s;
      assert s == {x};
    }
  }

  lemma PendingAlways(cfg: Config, w: World, m: nat)
    requires Reachable(cfg, w)
    ensures |PlainPending(w.db.jobs, m)| <= 1
    ensures |AssessRows(w.db.jobs, m)| <= 1
    ensures |PendingSyncs(w.db.jobs, m)| <= 2
    ensures |RunningJobs(w.db.jobs)| <= 1
  {
    ReachableInv(cfg, w);
    AtMostOne(PlainPending(w.db.jobs, m));
    AtMostOne(AssessRows(w.db.jobs, m));
    AtMostOne(RunningJobs(w.db.jobs));
    CardinalityMonotone(PendingSyncs(w.db.jobs, m), PlainPending(w.db.jobs, m) + AssessRows(w.db.jobs, m));
  }

  // --- Provisioning -------------------------------------------------------------------

  /** However many provision jobs ran and wherever a crash fell: VM2 has one row per address, and exactly the
      active mailboxes have had exactly one assess job created. */
  lemma ProvisionedOnce(cfg: Config, w: World)
    requires Reachable(cfg, w)
    ensures forall u, v :: u in w.mail.rows && v in w.mail.rows && w.mail.rows[u] == w.mail.rows[v] ==> u == v
    ensures forall a :: w.log.created[a] <= w.log.removed[a] + 1
    ensures forall m :: m in w.db.boxes ==> w.log.assessed[m] == if w.db.boxes[m].active then 1 else 0
    ensures forall m :: w.log.assessed[m] <= 1
    ensures forall m :: m in w.db.boxes ==> (w.db.boxes[m].active <==> w.db.boxes[m].vm2Id.Some?)
  {
    ReachableInv(cfg, w);
  }

  lemma BoxesKeptElsewhere(cfg: Config, w: World, e: Event)
    requires Enabled(w, e)
    requires !e.Tick? && !e.Claim? && !e.AddMailbox? && !e.DeleteMailbox? && !e.Activate?
    ensures Next(cfg, w, e).db.boxes == w.db.boxes
  {
  }

  lemma IdKeptStep(cfg: Config, w: World, e: Event, m: nat)
    requires Ids(w) && OneAssess(w) && ActiveMeansId(w) && Enabled(w, e) && m in w.db.boxes
    ensures m in Next(cfg, w, e).db.boxes && w.db.boxes[m].vm2Id.Some? ==>
      Next(cfg, w, e).db.boxes[m].vm2Id == w.db.boxes[m].vm2Id
    ensures m !in Next(cfg, w, e).db.boxes ==> e.DeleteMailbox? && e.mailbox == m
  {
    if e.Tick? {
      BoxesKeptByTick(cfg, w, e);
    } else if e.Claim? {
      BoxesKeptByClaim(cfg, w, e);
    } else if e.Activate? {
      IdKeptByActivate(cfg, w, e, m);
    } else if !e.AddMailbox? && !e.DeleteMailbox? {
      BoxesKeptElsewhere(cfg, w, e);
    }
  }

  lemma BoxesKeptByTick(cfg: Config, w: World, e: Event)
    requires Ids(w) && Enabled(w, e) && e.Tick?
    ensures Next(cfg, w, e).db.boxes == w.db.boxes && Next(cfg, w, e).mail == w.mail
  {
    TickFrame(w.db, cfg.interval, e.now, e.rows);
  }

  lemma IdKeptByActivate(cfg: Config, w: World, e: Event, m: nat)
    requires Ids(w) && OneAssess(w) && ActiveMeansId(w) && Enabled(w, e) && e.Activate? && m in w.db.boxes
    ensures m in Next(cfg, w, e).db.boxes
    ensures w.db.boxes[m].vm2Id.Some? ==> Next(cfg, w, e).db.boxes[m].vm2Id == w.db.boxes[m].vm2Id
  {
  }

  lemma BoxIdsNotReusedStep(cfg: Config, w: World, e: Event, m: nat)
    requires Enabled(w, e) && Ids(w) && m !in w.db.boxes && m < w.db.nextBox
    ensures m !in Next(cfg, w, e).db.boxes && m < Next(cfg, w, e).db.nextBox
  {
    if e.Tick? {
      TickSpecification(w.db, cfg.interval, e.now, e.rows);
    }
  }

  lemma {:induction false} BoxIdsNotReused(cfg: Config, w: World, run: seq<Event>, m: nat)
    requires Inv(cfg, w) && Legal(cfg, w, run) && m !in w.db.boxes && m < w.db.nextBox
    ensures m !in After(cfg, w, run).db.boxes
    decreases |run|
  {
    if run != [] {
      BoxIdsNotReusedStep(cfg, w, run[0], m);
      InvStep(cfg, w, run[0]);
      BoxIdsNotReused(cfg, Next(cfg, w, run[0]), run[1..], m);
    }
  }

  /** `vm2_mailbox_id` never changes once set, until the mailbox itself is deleted. */
  lemma {:induction false} IdNeverChanges(cfg: Config, w: World, run: seq<Event>, m: nat)
    requires Inv(cfg, w) && Legal(cfg, w, run)
    requires m in w.db.boxes && w.db.boxes[m].vm2Id.Some?
    ensures var w' := After(cfg, w, run); m in w'.db.boxes ==> w'.db.boxes[m].vm2Id == w.db.boxes[m].vm2Id
    decreases |run|
  {
    if run != [] {
      var w1 := Next(cfg, w, run[0]);
      IdKeptStep(cfg, w, run[0], m);
      InvStep(cfg, w, run[0]);
      if m in w1.db.boxes {
        IdNeverChanges(cfg, w1, run[1..], m);
      } else {
        BoxIdsNotReused(cfg, w1, run[1..], m);
      }
    }
  }

  /** Two provisioned mailboxes share one VM2 row exactly when they have the same destination address. */
  lemma SharedRow(cfg: Config, w: World, m: nat, n: nat)
    requires Reachable(cfg, w) && m in w.db.boxes && n in w.db.boxes
    requires w.db.boxes[m].vm2Id.Some? && w.db.boxes[m].vm2Id.value in w.mail.rows
    requires w.db.boxes[n].vm2Id.Some? && w.db.boxes[n].vm2Id.value in w.mail.rows
    ensures w.db.boxes[m].vm2Id == w.db.boxes[n].vm2Id <==> AddressOf(w.db.boxes[m]) == AddressOf(w.db.boxes[n])
  {
    ReachableInv(cfg, w);
  }

  ghost predicate Dangling(w: World, m: nat) {
    m in w.db.boxes && w.db.boxes[m].vm2Id.Some? && w.db.boxes[m].vm2Id.value !in w.mail.rows
  }

  /** A deletion takes away the VM2 row that n has recorded, and n itself stays. */
  predicate RowTaken(w: World, e: Event, n: nat) {
    && e.DeleteMailbox? && e.vm2Configured && e.mailbox in w.db.boxes && n in w.db.boxes
    && w.db.boxes[n].vm2Id.Some? && w.db.boxes[n].vm2Id.value in w.mail.rows
    && w.db.boxes[e.mailbox].vm2Id == w.db.boxes[n].vm2Id
    && (n != e.mailbox || !e.commits)
  }

  /** The worker records for n the id of a row that was deleted since VM2 gave it out. */
  predicate RowOutdated(w: World, e: Event, n: nat) {
    e.Activate? && w.worker.Creating? && w.worker.mailbox == n && n in w.db.boxes && w.worker.vm2Id !in w.mail.rows
  }

  lemma DanglingElsewhere(cfg: Config, w: World, e: Event, n: nat)
    requires Inv(cfg, w) && Enabled(w, e) && !e.DeleteMailbox? && !e.Activate? && !Dangling(w, n)
    ensures !Dangling(Next(cfg, w, e), n)
  {
    if e.Tick? {
      BoxesKeptByTick(cfg, w, e);
    } else if e.Claim? {
      BoxesKeptByClaim(cfg, w, e);
    }
  }

  lemma BoxesKeptByClaim(cfg: Config, w: World, e: Event)
    requires Enabled(w, e) && e.Claim?
    ensures Next(cfg, w, e).db.boxes == w.db.boxes && Next(cfg, w, e).mail == w.mail
  {
  }

  lemma DanglingAtActivation(cfg: Config, w: World, e: Event, n: nat)
    requires Inv(cfg, w) && Enabled(w, e) && e.Activate? && !Dangling(w, n)
    ensures Dangling(Next(cfg, w, e), n) <==> RowOutdated(w, e, n)
  {
  }

  /** The only two steps that leave a mailbox without its VM2 row: the deletion, even a rolled-back one, of a
      mailbox with the same id, and an activation with an outdated id. */
  lemma DanglingExactly(cfg: Config, w: World, e: Event, n: nat)
    requires Inv(cfg, w) && Enabled(w, e) && !Dangling(w, n)
    ensures Dangling(Next(cfg, w, e), n) <==> RowTaken(w, e, n) || RowOutdated(w, e, n)
  {
    if e.Activate? {
      DanglingAtActivation(cfg, w, e, n);
    } else if !e.DeleteMailbox? {
      DanglingElsewhere(cfg, w, e, n);
    }
  }

  /** Deleting m on VM2 leaves another provisioned mailbox without its row exactly when they share the address. */
  lemma DeletionSpares(cfg: Config, w: World, m: nat, n: nat, commits: bool)
    requires Reachable(cfg, w) && m in w.db.boxes && n in w.db.boxes && m != n
    requires w.db.boxes[m].vm2Id.Some? && w.db.boxes[m].vm2Id.value in w.mail.rows
    requires w.db.boxes[n].vm2Id.Some? && w.db.boxes[n].vm2Id.value in w.mail.rows
    ensures Dangling(Next(cfg, w, DeleteMailbox(m, true, commits)), n)
      <==> AddressOf(w.db.boxes[m]) == AddressOf(w.db.boxes[n])
  {
    SharedRow(cfg, w, m, n);
  }

  lemma MailIdsNotReusedStep(cfg: Config, w: World, e: Event, v: nat)
    requires Enabled(w, e) && v !in w.mail.rows && v < w.mail.next
    ensures v !in Next(cfg, w, e).mail.rows
  {}

  lemma DanglingStep(cfg: Config, w: World, e: Event, m: nat)
    requires Enabled(w, e) && Inv(cfg, w) && Dangling(w, m)
    ensures Dangling(Next(cfg, w, e), m)
  {
    assert IdFits(w, w.db.boxes[m], w.db.boxes[m].vm2Id.value);
    IdKeptStep(cfg, w, e, m);
    MailIdsNotReusedStep(cfg, w, e, w.db.boxes[m].vm2Id.value);
    if e.DeleteMailbox? && e.mailbox == m {
      assert Next(cfg, w, e).db == w.db;
    }
  }

  /** VM2 forgetting the row while VM1 keeps the mailbox is a trap: the delete endpoint asks VM2 first, VM2
      answers "not found", and the mailbox can never be removed again. */
  lemma {:induction false} DanglingForever(cfg: Config, w: World, run: seq<Event>, m: nat)
    requires Inv(cfg, w) && Legal(cfg, w, run) && Dangling(w, m)
    ensures Dangling(After(cfg, w, run), m)
    decreases |run|
  {
    if run != [] {
      DanglingStep(cfg, w, run[0], m);
      InvStep(cfg, w, run[0]);
      DanglingForever(cfg, Next(cfg, w, run[0]), run[1..], m);
    }
  }

  // --- Rows that VM2 keeps and VM1 has forgotten ------------------------------------------

  /** VM2 holds a row for an address that no mailbox has. */
  ghost predicate Orphaned(w: World, a: Address) {
    Holds(w.mail, a) && forall m :: m in w.db.boxes ==> AddressOf(w.db.boxes[m]) != a
  }

  /** The last mailbox with that address is deleted before the id of its VM2 row is recorded. */
  predicate RowForgotten(w: World, e: Event, a: Address) {
    && Holds(w.mail, a)
    && e.DeleteMailbox? && e.commits && e.mailbox in w.db.boxes
    && AddressOf(w.db.boxes[e.mailbox]) == a && w.db.boxes[e.mailbox].vm2Id.None?
    && forall m :: m in w.db.boxes && m != e.mailbox ==> AddressOf(w.db.boxes[m]) != a
  }

  /** Only a deletion takes an address from VM2, that of the mailbox deleted; only a provisioning adds one. */
  lemma HoldsStep(cfg: Config, w: World, e: Event, a: Address)
    requires Inv(cfg, w) && Enabled(w, e)
    ensures Holds(w.mail, a) && !Holds(Next(cfg, w, e).mail, a) ==>
      e.DeleteMailbox? && w.db.boxes[e.mailbox].vm2Id.Some? && AddressOf(w.db.boxes[e.mailbox]) == a
    ensures !Holds(w.mail, a) && Holds(Next(cfg, w, e).mail, a) ==>
      e.CreateRemote? && exists m :: m in w.db.boxes && AddressOf(w.db.boxes[m]) == a
  {
    var mail' := Next(cfg, w, e).mail;
    if v :| v in w.mail.rows && w.mail.rows[v] == a && !Holds(mail', a) {
      assert v !in mail'.rows || mail'.rows[v] != a;
      RowLeaves(cfg, w, e, v);
    }
    if v :| v in mail'.rows && mail'.rows[v] == a && !Holds(w.mail, a) {
      assert v !in w.mail.rows || w.mail.rows[v] != a;
      RowArrives(cfg, w, e, v);
    }
  }

  lemma RowLeaves(cfg: Config, w: World, e: Event, v: nat)
    requires Inv(cfg, w) && Enabled(w, e) && v in w.mail.rows
    requires v !in Next(cfg, w, e).mail.rows || Next(cfg, w, e).mail.rows[v] != w.mail.rows[v]
    ensures e.DeleteMailbox? && w.db.boxes[e.mailbox].vm2Id == Some(v)
    ensures AddressOf(w.db.boxes[e.mailbox]) == w.mail.rows[v]
  {
    if e.DeleteMailbox? && w.db.boxes[e.mailbox].vm2Id == Some(v) {
      assert IdFits(w, w.db.boxes[e.mailbox], v);
    }
  }

  lemma RowArrives(cfg: Config, w: World, e: Event, v: nat)
    requires Enabled(w, e) && v in Next(cfg, w, e).mail.rows
    requires v !in w.mail.rows || Next(cfg, w, e).mail.rows[v] != w.mail.rows[v]
    ensures e.CreateRemote? && w.worker.work.mailbox in w.db.boxes
    ensures Next(cfg, w, e).mail.rows[v] == AddressOf(w.db.boxes[w.worker.work.mailbox])
  {
  }

  /** Imports add a mailbox with their address, committed deletions drop theirs, and no address changes. */
  ghost predicate AddressesFollow(boxes: map<nat, Mailbox>, boxes': map<nat, Mailbox>, e: Event) {
    && (forall m :: m in boxes && m !in boxes' ==> e.DeleteMailbox? && e.mailbox == m && e.commits)
    && (forall m :: m in boxes && m in boxes' ==> AddressOf(boxes'[m]) == AddressOf(boxes[m]))
    && (forall m :: m in boxes' && m !in boxes ==> e.AddMailbox? && AddressOf(boxes'[m]) == e.address)
    && (e.AddMailbox? ==> exists m :: m in boxes' && AddressOf(boxes'[m]) == e.address)
  }

  lemma AddressStep(cfg: Config, w: World, e: Event)
    requires Inv(cfg, w) && Enabled(w, e)
    ensures AddressesFollow(w.db.boxes, Next(cfg, w, e).db.boxes, e)
  {
    if e.Tick? {
      BoxesKeptByTick(cfg, w, e);
    } else if e.Claim? {
      BoxesKeptByClaim(cfg, w, e);
    } else if e.AddMailbox? || e.DeleteMailbox? || e.Activate? {
      AddressChange(cfg, w, e);
    } else {
      BoxesKeptElsewhere(cfg, w, e);
    }
  }

  lemma AddressChange(cfg: Config, w: World, e: Event)
    requires Ids(w) && Enabled(w, e) && (e.AddMailbox? || e.DeleteMailbox? || e.Activate?)
    ensures AddressesFollow(w.db.boxes, Next(cfg, w, e).db.boxes, e)
  {
    if e.AddMailbox? {
      AddressAdded(cfg, w, e);
    }
  }

  lemma AddressAdded(cfg: Config, w: World, e: Event)
    requires Ids(w) && Enabled(w, e) && e.AddMailbox?
    ensures AddressesFollow(w.db.boxes, Next(cfg, w, e).db.boxes, e)
  {
    var boxes' := Next(cfg, w, e).db.boxes;
    assert w.db.nextBox !in w.db.boxes;
    assert boxes' == w.db.boxes[w.db.nextBox := Mailbox(e.address.domain, e.address.local, false, None)];
    assert w.db.nextBox in boxes' && AddressOf(boxes'[w.db.nextBox]) == e.address;
  }

  /** A mailbox without an id goes at once; one with an id goes only together with its row. */
  lemma DeletionStep(cfg: Config, w: World, e: Event)
    requires Inv(cfg, w) && Enabled(w, e) && e.DeleteMailbox?
    ensures var w', box := Next(cfg, w, e), w.db.boxes[e.mailbox];
      && (box.vm2Id.None? && e.commits ==> e.mailbox !in w'.db.boxes)
      && (box.vm2Id.Some? && e.mailbox !in w'.db.boxes ==> !Holds(w'.mail, AddressOf(box)))
  {
    if w.db.boxes[e.mailbox].vm2Id.Some? {
      assert IdFits(w, w.db.boxes[e.mailbox], w.db.boxes[e.mailbox].vm2Id.value);
    }
  }

  /** VM2 is left with a row that no mailbox stands for exactly when a mailbox is deleted between VM2's commit
      and VM1's: it is the last with its address, and has no id yet. */
  lemma OrphanedExactly(cfg: Config, w: World, e: Event, a: Address)
    requires Inv(cfg, w) && Enabled(w, e) && !Orphaned(w, a)
    ensures Orphaned(Next(cfg, w, e), a) <==> RowForgotten(w, e, a)
  {
    HoldsStep(cfg, w, e, a);
    AddressStep(cfg, w, e);
    if e.DeleteMailbox? {
      DeletionStep(cfg, w, e);
    }
    OrphansFollow(w, Next(cfg, w, e), e, a);
  }

  lemma OrphansFollow(w: World, w': World, e: Event, a: Address)
    requires AddressesFollow(w.db.boxes, w'.db.boxes, e) && !Orphaned(w, a)
    requires e.DeleteMailbox? ==>
      && e.mailbox in w.db.boxes
      && (w.db.boxes[e.mailbox].vm2Id.None? && e.commits ==> e.mailbox !in w'.db.boxes)
      && (w.db.boxes[e.mailbox].vm2Id.Some? && e.mailbox !in w'.db.boxes ==>
          !Holds(w'.mail, AddressOf(w.db.boxes[e.mailbox])))
    requires Holds(w.mail, a) && !Holds(w'.mail, a) ==> e.DeleteMailbox? && w.db.boxes[e.mailbox].vm2Id.Some?
    requires !Holds(w.mail, a) && Holds(w'.mail, a) ==>
      e.CreateRemote? && exists m :: m in w.db.boxes && AddressOf(w.db.boxes[m]) == a
    ensures Orphaned(w', a) <==> RowForgotten(w, e, a)
  {
  }

  /** Such a row stays until a mailbox with its address is imported again. */
  lemma OrphanedUntil(cfg: Config, w: World, e: Event, a: Address)
    requires Inv(cfg, w) && Enabled(w, e) && Orphaned(w, a)
    ensures Orphaned(Next(cfg, w, e), a) <==> !(e.AddMailbox? && e.address == a)
  {
    HoldsStep(cfg, w, e, a);
    AddressStep(cfg, w, e);
  }

  // --- Life of a queue row --------------------------------------------------------------

  predicate Settled(s: Status) {
    s == Done || s == Failed || s == Retrying
  }

  lemma SettledClaim(cfg: Config, w: World, e: Event, i: nat)
    requires Enabled(w, e) && e.Claim? && i in w.db.jobs && Settled(w.db.jobs[i].status)
    ensures i in Next(cfg, w, e).db.jobs && Next(cfg, w, e).db.jobs[i] == w.db.jobs[i]
  {
    ClaimFacts(cfg, w, e.now);
  }

  lemma SettledStep(cfg: Config, w: World, e: Event, i: nat)
    requires Ids(w) && OneRunning(w) && Enabled(w, e) && i in w.db.jobs && Settled(w.db.jobs[i].status)
    ensures i in Next(cfg, w, e).db.jobs ==> Next(cfg, w, e).db.jobs[i] == w.db.jobs[i]
    ensures i !in Next(cfg, w, e).db.jobs ==> e.DeleteMailbox? && SyncOf(w.db.jobs[i].work, e.mailbox)
  {
    if e.Tick? {
      TickSpecification(w.db, cfg.interval, e.now, e.rows);
    } else if e.Claim? {
      SettledClaim(cfg, w, e, i);
    }
  }

  predicate Deletes(run: seq<Event>, m: nat) {
    exists k :: 0 <= k < |run| && run[k].DeleteMailbox? && run[k].mailbox == m
  }

  lemma JobIdsNotReusedStep(cfg: Config, w: World, e: Event, i: nat)
    requires Enabled(w, e) && Ids(w) && i !in w.db.jobs && i < w.db.nextJob
    ensures i !in Next(cfg, w, e).db.jobs && i < Next(cfg, w, e).db.nextJob
  {
    if e.Tick? {
      TickSpecification(w.db, cfg.interval, e.now, e.rows);
    } else if e.Claim? {
      ClaimFacts(cfg, w, e.now);
    }
  }

  lemma {:induction false} JobIdsNotReused(cfg: Config, w: World, run: seq<Event>, i: nat)
    requires Inv(cfg, w) && Legal(cfg, w, run) && i !in w.db.jobs && i < w.db.nextJob
    ensures i !in After(cfg, w, run).db.jobs
    decreases |run|
  {
    if run != [] {
      JobIdsNotReusedStep(cfg, w, run[0], i);
      InvStep(cfg, w, run[0]);
      JobIdsNotReused(cfg, Next(cfg, w, run[0]), run[1..], i);
    }
  }

  lemma DeletesLater(run: seq<Event>)
    requires run != []
    ensures forall m :: Deletes(run[1..], m) ==> Deletes(run, m)
  {
  }

  /** `done` and `failed` are final, and so, as written, is `retrying`: whatever happens, such a row stays
      exactly as it is, and only deleting its mailbox removes it. */
  lemma {:induction false} SettledForever(cfg: Config, w: World, run: seq<Event>, i: nat)
    requires Inv(cfg, w) && Legal(cfg, w, run) && i in w.db.jobs && Settled(w.db.jobs[i].status)
    ensures var w' := After(cfg, w, run);
            && (i in w'.db.jobs ==> w'.db.jobs[i] == w.db.jobs[i])
            && (i !in w'.db.jobs ==> w.db.jobs[i].work.Sync? && Deletes(run, w.db.jobs[i].work.mailbox))
    decreases |run|
  {
    if run != [] {
      var w1, tail := Next(cfg, w, run[0]), run[1..];
      SettledStep(cfg, w, run[0], i);
      InvStep(cfg, w, run[0]);
      if i in w1.db.jobs {
        SettledForever(cfg, w1, tail, i);
        DeletesLater(run);
      } else {
        JobIdsNotReused(cfg, w1, tail, i);
        assert run[0].DeleteMailbox?;
      }
    }
  }

  lemma BlockedTick(cfg: Config, w: World, e: Event, m: nat, j: nat)
    requires Ids(w) && e.Tick? && Enabled(w, e) && HasPendingSync(w.db.jobs, m)
    requires j in Next(cfg, w, e).db.jobs && PlainSync(Next(cfg, w, e).db.jobs[j].work, m)
    ensures j in w.db.jobs && PlainSync(w.db.jobs[j].work, m)
  {
    TickSpecification(w.db, cfg.interval, e.now, e.rows);
    var added := TickTx(w.db, cfg.interval, e.now, e.rows).1;
    assert forall k :: 0 <= k < |added| ==> added[k] in added;
  }

  lemma BlockedClaim(cfg: Config, w: World, e: Event, m: nat, j: nat)
    requires Enabled(w, e) && e.Claim?
    requires j in Next(cfg, w, e).db.jobs && PlainSync(Next(cfg, w, e).db.jobs[j].work, m)
    ensures j in w.db.jobs && PlainSync(w.db.jobs[j].work, m)
  {
    ClaimFacts(cfg, w, e.now);
  }

  lemma BlockedStep(cfg: Config, w: World, e: Event, i: nat, m: nat, j: nat)
    requires Ids(w) && Enabled(w, e)
    requires i in w.db.jobs && w.db.jobs[i].status == Retrying && SyncOf(w.db.jobs[i].work, m)
    requires j in Next(cfg, w, e).db.jobs && PlainSync(Next(cfg, w, e).db.jobs[j].work, m)
    ensures j in w.db.jobs && PlainSync(w.db.jobs[j].work, m)
  {
    assert PendingSync(w.db.jobs[i], m);
    assert HasPendingSync(w.db.jobs, m);
    if e.Tick? {
      BlockedTick(cfg, w, e, m, j);
    } else if e.Claim? {
      BlockedClaim(cfg, w, e, m, j);
    }
  }

  /** While a sync row of a mailbox is `retrying`, no tick and no sync-now ever enqueues that mailbox. */
  lemma {:induction false} RetryingBlocks(cfg: Config, w: World, run: seq<Event>, i: nat, m: nat, j: nat)
    requires Inv(cfg, w) && Legal(cfg, w, run)
    requires i in w.db.jobs && w.db.jobs[i].status == Retrying && SyncOf(w.db.jobs[i].work, m)
    requires i in After(cfg, w, run).db.jobs
    requires j in After(cfg, w, run).db.jobs && PlainSync(After(cfg, w, run).db.jobs[j].work, m)
    ensures j in w.db.jobs && PlainSync(w.db.jobs[j].work, m)
    decreases |run|
  {
    if run != [] {
      var w1, tail := Next(cfg, w, run[0]), run[1..];
      SettledStep(cfg, w, run[0], i);
      InvStep(cfg, w, run[0]);
      if i !in w1.db.jobs {
        JobIdsNotReused(cfg, w1, tail, i);
      }
      RetryingBlocks(cfg, w1, tail, i, m, j);
      BlockedStep(cfg, w, run[0], i, m, j);
    }
  }

  /** `attempts` is the number of times the row was claimed; a system update is claimed at most once. */
  lemma AttemptsAlways(cfg: Config, w: World, i: nat)
    requires Reachable(cfg, w) && i in w.db.jobs
    ensures w.db.jobs[i].attempts == w.log.claims[i]
    ensures w.db.jobs[i].work.SystemUpdate? ==> w.log.claims[i] <= 1
  {
    ReachableInv(cfg, w);
  }

  // --- Crash recovery -----------------------------------------------------------------

  /** What the reaper makes of the rows it finds: nothing is `running` in the three tables, no row came or went,
      running updates have failed and other running rows are due, with their attempts; other queue rows are
      untouched, finished runs and updates too. */
  ghost predicate Recovered(before: Db, after: Db, now: int) {
    && (forall i :: i in after.jobs ==> after.jobs[i].status != Running)
    && (forall r :: r in before.runs && before.runs[r].status == InProgress ==>
        r in after.runs && after.runs[r].status == Failure && after.runs[r].finishedAt == Some(now))
    && (forall u :: u in before.updates && before.updates[u].status == InProgress ==>
        u in after.updates && after.updates[u].status == Failure)
    && after.jobs.Keys == before.jobs.Keys && after.runs.Keys == before.runs.Keys
    && after.updates.Keys == before.updates.Keys && after.boxes == before.boxes && after.schedule == before.schedule
    && (forall i :: i in before.jobs && before.jobs[i].status == Running ==>
        Resumed(before.jobs[i], after.jobs[i], now))
    && (forall i :: i in before.jobs && before.jobs[i].status != Running ==> after.jobs[i] == before.jobs[i])
    && (forall r :: r in before.runs && before.runs[r].status != InProgress ==> after.runs[r] == before.runs[r])
    && (forall u :: u in before.updates && before.updates[u].status != InProgress ==>
        after.updates[u] == before.updates[u])
  }

  predicate Resumed(was: Job, is_: Job, now: int) {
    && is_.work == was.work && is_.attempts == was.attempts
    && if was.work.SystemUpdate? then is_.status == Failed
       else is_.status == Queued && is_.runAfter == now && is_.lockedAt == None
  }

  lemma ReapRecovers(db: Db, now: int)
    ensures Recovered(db, ReapTx(db, now), now)
  {
  }

  /** Whatever happened between the worker's death and its restart, ticks, manual syncs, imports and deletions
      included: at most the row claimed last is still `running`, and the reaper recovers it. */
  lemma RestartRecovers(cfg: Config, w: World, now: int)
    requires Reachable(cfg, w) && w.worker.Down? && now >= w.clock
    ensures Enabled(w, Reap(now)) && Next(cfg, w, Reap(now)).worker.Idle?
    ensures Recovered(w.db, Next(cfg, w, Reap(now)).db, now)
    ensures forall i :: i in w.db.jobs && w.db.jobs[i].status == Running ==> w.log.lastClaimed == Some(i)
    ensures |RunningJobs(w.db.jobs)| <= 1
  {
    ReachableInv(cfg, w);
    ReapRecovers(w.db, now);
    AtMostOne(RunningJobs(w.db.jobs));
  }

  /** In particular directly after a crash, wherever the worker stood: the row it held, and no other, is requeued
      or failed. */
  lemma CrashRecovery(cfg: Config, w: World, now: int)
    requires Reachable(cfg, w) && !w.worker.Down? && now >= w.clock
    ensures Legal(cfg, w, [Crash, Reap(now)])
    ensures var w' := After(cfg, w, [Crash, Reap(now)]);
            && Recovered(w.db, w'.db, now)
            && (w.worker.Busy() && w.worker.job in w.db.jobs ==>
                Resumed(w.db.jobs[w.worker.job], w'.db.jobs[w.worker.job], now))
            && (forall i :: i in w.db.jobs && !(w.worker.Busy() && i == w.worker.job) ==> w'.db.jobs[i] == w.db.jobs[i])
  {
    ReachableInv(cfg, w);
    ReapRecovers(w.db, now);
    TwoSteps(cfg, w, Crash, Reap(now));
  }

  // --- The scheduler over time ----------------------------------------------------------

  lemma ScheduledApart(cfg: Config, w: World, a: nat, b: nat)
    requires Reachable(cfg, w) && a < b < |w.log.scheduled| && w.log.scheduled[a].0 == w.log.scheduled[b].0
    ensures w.log.scheduled[b].1 - w.log.scheduled[a].1 >= cfg.interval
  {
    ReachableInv(cfg, w);
  }
}
