/** Runs from the empty portal, built step by step: the states that the guarantees are careful about are reached. */
module Scenarios {
  import opened Wrappers
  import opened Tables
  import opened Throttle
  import opened Claiming
  import opened Transactions
  import opened Protocol
  import opened Guarantees
  import opened Starts

  ghost predicate At(cfg: Config, run: seq<Event>, w: World) {
    Legal(cfg, START, run) && After(cfg, START, run) == w
  }

  lemma AtIsReachable(cfg: Config, run: seq<Event>, w: World)
    requires At(cfg, run, w)
    ensures Reachable(cfg, w) && Inv(cfg, w)
  {
    ReachableInv(cfg, w);
  }

  lemma Go(cfg: Config, run: seq<Event>, w: World, e: Event) returns (run': seq<Event>, w': World)
    requires At(cfg, run, w) && Enabled(w, e)
    ensures run' == run + [e] && w' == Next(cfg, w, e) && At(cfg, run', w')
  {
    run', w' := run + [e], Next(cfg, w, e);
    Snoc(cfg, START, run, e);
  }

  // --- Building blocks, all at time 0 ------------------------------------------------------

  /** No sync was started in between, and no time has passed. */
  predicate SameStarts(w: World, w': World) {
    w'.log.starts == w.log.starts && w'.clock == w.clock
  }

  lemma Launch(cfg: Config) returns (run: seq<Event>, w: World)
    ensures At(cfg, run, w) && w == START.(worker := Idle)
  {
    run, w := Go(cfg, [], START, Reap(0));
    assert w.db == EMPTY_DB;
  }

  lemma Import(cfg: Config, run: seq<Event>, w: World, a: Address) returns (run': seq<Event>, w': World)
    requires At(cfg, run, w) && w.clock == 0
    ensures At(cfg, run', w') && w' == w.(db := AddMailboxTx(w.db, a.domain, a.local, 0))
  {
    run', w' := Go(cfg, run, w, AddMailbox(0, a));
  }

  /** Row k is due now, and before every other row that is. */
  ghost predicate FirstDue(jobs: Jobs, k: nat) {
    && k in jobs && Due(jobs[k], 0)
    && forall j :: j in jobs && Due(jobs[j], 0) && j != k ==> Before(jobs, k, j)
  }

  lemma FirstDueOnly(jobs: Jobs, throttled: bool, k: nat)
    requires FirstDue(jobs, k) && !Skippable(jobs[k], throttled)
    ensures ClaimPass(jobs, throttled, 0) == (jobs[k := ClaimedRow(jobs[k], 0)], Some(k))
  {
    ClaimSpecification(jobs, throttled, 0);
    assert Ahead(jobs, DueRows(jobs, 0), k) == {};
    assert k in FirstFive(jobs, 0);
    var jobs', claimed := ClaimPass(jobs, throttled, 0).0, ClaimPass(jobs, throttled, 0).1;
    assert claimed == Some(k);
    assert jobs' == jobs[k := ClaimedRow(jobs[k], 0)];
  }

  lemma ClaimFirst(cfg: Config, run: seq<Event>, w: World, k: nat) returns (run': seq<Event>, w': World)
    requires At(cfg, run, w) && w.worker == Idle && w.clock == 0 && FirstDue(w.db.jobs, k)
    requires w.db.jobs[k].work.Sync? ==> MayStart(w.db.runs, cfg.policy, 0)
    ensures At(cfg, run', w') && SameStarts(w, w')
    ensures w' == w.(db := w.db.(jobs := w.db.jobs[k := ClaimedRow(w.db.jobs[k], 0)]),
                     worker := Claimed(k, w.db.jobs[k].work), log := w'.log)
  {
    FirstDueOnly(w.db.jobs, !MayStart(w.db.runs, cfg.policy, 0), k);
    run', w' := Go(cfg, run, w, Claim(0));
  }

  lemma CreateRow(cfg: Config, run: seq<Event>, w: World, k: nat, m: nat) returns (run': seq<Event>, w': World)
    requires At(cfg, run, w) && w.worker == Claimed(k, Provision(m)) && w.clock == 0
    requires m in w.db.boxes && !w.db.boxes[m].active
    ensures At(cfg, run', w') && SameStarts(w, w')
    ensures var a := AddressOf(w.db.boxes[m]);
      w' == w.(mail := EnsureRow(w.mail, a), worker := Creating(k, m, RowFor(w.mail, a)), log := w'.log)
  {
    run', w' := Go(cfg, run, w, CreateRemote(true));
  }

  lemma ActivateBox(cfg: Config, run: seq<Event>, w: World, k: nat, m: nat, v: nat)
    returns (run': seq<Event>, w': World)
    requires At(cfg, run, w) && w.worker == Creating(k, m, v) && w.clock == 0 && m in w.db.boxes
    ensures At(cfg, run', w') && SameStarts(w, w')
    ensures w' == w.(db := ActivateTx(w.db, m, v, 0), worker := Handled(k, true), log := w'.log)
  {
    run', w' := Go(cfg, run, w, Activate(0));
  }

  lemma FinishAs(cfg: Config, run: seq<Event>, w: World, k: nat, ok: bool) returns (run': seq<Event>, w': World)
    requires At(cfg, run, w) && w.worker == Handled(k, ok) && w.clock == 0
    ensures At(cfg, run', w')
    ensures w' == w.(db := FinishTx(w.db, k, ok, 0), worker := Idle)
  {
    run', w' := Go(cfg, run, w, Finish(0, ok));
  }

  /** From the claim of a mailbox's provision job to the end of that job. */
  lemma ProvisionBox(cfg: Config, run: seq<Event>, w: World, k: nat, m: nat) returns (run': seq<Event>, w': World)
    requires At(cfg, run, w) && w.worker == Idle && w.clock == 0 && FirstDue(w.db.jobs, k) && k < w.db.nextJob
    requires w.db.jobs[k].work == Provision(m) && m in w.db.boxes && !w.db.boxes[m].active
    ensures At(cfg, run', w') && SameStarts(w, w') && w'.worker == Idle
    ensures var a := AddressOf(w.db.boxes[m]);
      && w'.mail == EnsureRow(w.mail, a)
      && w'.db == w.db.(
           jobs := w.db.jobs[k := ClaimedRow(w.db.jobs[k], 0).(status := Done)]
                            [w.db.nextJob := QueuedSync(m, Assess, 0)],
           nextJob := w.db.nextJob + 1,
           boxes := w.db.boxes[m := w.db.boxes[m].(active := true, vm2Id := Some(RowFor(w.mail, a)))])
  {
    var v := RowFor(w.mail, AddressOf(w.db.boxes[m]));
    run', w' := ClaimFirst(cfg, run, w, k);
    run', w' := CreateRow(cfg, run', w', k, m);
    run', w' := ActivateBox(cfg, run', w', k, m, v);
    run', w' := FinishAs(cfg, run', w', k, true);
    assert w'.db.jobs == w.db.jobs[k := ClaimedRow(w.db.jobs[k], 0).(status := Done)]
                                  [w.db.nextJob := QueuedSync(m, Assess, 0)];
  }

  /** Claiming a sync and opening its run. */
  lemma OpenSync(cfg: Config, run: seq<Event>, w: World, k: nat, m: nat) returns (run': seq<Event>, w': World)
    requires At(cfg, run, w) && w.worker == Idle && w.clock == 0 && FirstDue(w.db.jobs, k)
    requires SyncOf(w.db.jobs[k].work, m) && SyncProceeds(w.db, m, true) && MayStart(w.db.runs, cfg.policy, 0)
    ensures At(cfg, run', w') && w'.clock == 0 && w'.mail == w.mail && w'.worker == Syncing(k, m, w.db.nextRun)
    ensures w'.log.starts == w.log.starts[w.db.nextRun := 0]
    ensures w'.db == OpenRunTx(w.db.(jobs := w.db.jobs[k := ClaimedRow(w.db.jobs[k], 0)]), m, 0)
  {
    run', w' := ClaimFirst(cfg, run, w, k);
    run', w' := Go(cfg, run', w', OpenRun(0, true));
  }

  // --- The `retrying` trap ------------------------------------------------------------------

  /** A provision job that fails once is parked: here because VM2 is not configured yet. */
  lemma ProvisionParked(cfg: Config, a: Address) returns (run: seq<Event>, w: World)
    ensures At(cfg, run, w) && 0 in w.db.boxes
    ensures 0 in w.db.jobs && w.db.jobs[0].status == Retrying && w.db.jobs[0].work == Provision(0)
  {
    run, w := Launch(cfg);
    run, w := Import(cfg, run, w, a);
    run, w := ClaimFirst(cfg, run, w, 0);
    run, w := Go(cfg, run, w, CreateRemote(false));
    run, w := FinishAs(cfg, run, w, 0, false);
  }

  /** So is a sync whose transaction raises, under every policy that lets a first sync start. */
  lemma SyncParked(cfg: Config, a: Address) returns (run: seq<Event>, w: World)
    requires MayStart(map[], cfg.policy, 0)
    ensures At(cfg, run, w) && 0 in w.db.boxes
    ensures 1 in w.db.jobs && w.db.jobs[1].status == Retrying && SyncOf(w.db.jobs[1].work, 0)
  {
    run, w := Launch(cfg);
    run, w := Import(cfg, run, w, a);
    run, w := ProvisionBox(cfg, run, w, 0, 0);
    run, w := OpenSync(cfg, run, w, 1, 0);
    run, w := Go(cfg, run, w, Abort);
    run, w := FinishAs(cfg, run, w, 1, false);
  }

  // --- Mailboxes without their VM2 row --------------------------------------------------------

  predicate Provisioned(w: World, m: nat, v: nat) {
    m in w.db.boxes && w.db.boxes[m].active && w.db.boxes[m].vm2Id == Some(v) && v in w.mail.rows
  }

  lemma FirstBox(cfg: Config, a: Address) returns (run: seq<Event>, w: World)
    ensures At(cfg, run, w) && w.clock == 0 && w.worker == Idle && Provisioned(w, 0, 0)
  {
    run, w := Launch(cfg);
    run, w := Import(cfg, run, w, a);
    run, w := ProvisionBox(cfg, run, w, 0, 0);
  }

  /** VM2 has deleted the row and VM1's half of the deletion is rolled back. */
  lemma DanglingByRollback(cfg: Config, a: Address) returns (run: seq<Event>, w: World)
    ensures At(cfg, run, w) && Dangling(w, 0)
  {
    run, w := FirstBox(cfg, a);
    run, w := Go(cfg, run, w, DeleteMailbox(0, true, false));
  }

  /** Two mailboxes with one destination address, the first provisioned, the second about to be. */
  lemma TwoImported(cfg: Config, a: Address) returns (run: seq<Event>, w: World)
    ensures At(cfg, run, w) && w.clock == 0 && w.worker == Idle && Provisioned(w, 0, 0)
    ensures w.mail.rows == map[0 := a] && 1 in w.db.boxes && !w.db.boxes[1].active && AddressOf(w.db.boxes[1]) == a
    ensures FirstDue(w.db.jobs, 1) && w.db.jobs[1].work == Provision(1) && 1 < w.db.nextJob
  {
    run, w := Launch(cfg);
    run, w := Import(cfg, run, w, a);
    run, w := Import(cfg, run, w, a);
    run, w := ProvisionBox(cfg, run, w, 0, 0);
  }

  lemma OnlyRowIsFound(mail: MailDb, a: Address)
    requires mail.rows == map[0 := a]
    ensures RowFor(mail, a) == 0 && EnsureRow(mail, a) == mail
  {
    assert mail.rows[0] == a;
  }

  /** Both provisioned: they share a row, and deleting the first leaves the second without it. */
  lemma DanglingByShare(cfg: Config, a: Address)
    returns (run: seq<Event>, shared: World, run': seq<Event>, w: World)
    ensures At(cfg, run, shared) && Provisioned(shared, 0, 0) && Provisioned(shared, 1, 0)
    ensures run' == run + [DeleteMailbox(0, true, true)] && At(cfg, run', w) && Dangling(w, 1)
  {
    run, shared := TwoImported(cfg, a);
    OnlyRowIsFound(shared.mail, a);
    run, shared := ProvisionBox(cfg, run, shared, 1, 1);
    run', w := Go(cfg, run, shared, DeleteMailbox(0, true, true));
  }

  /** The first is deleted while the worker holds the row's id for the second. */
  lemma DanglingByRace(cfg: Config, a: Address) returns (run: seq<Event>, w: World)
    ensures At(cfg, run, w) && Dangling(w, 1)
  {
    run, w := TwoImported(cfg, a);
    OnlyRowIsFound(w.mail, a);
    run, w := ClaimFirst(cfg, run, w, 1);
    run, w := CreateRow(cfg, run, w, 1, 1);
    run, w := Go(cfg, run, w, DeleteMailbox(0, true, true));
    run, w := ActivateBox(cfg, run, w, 1, 1, 0);
  }

  /** VM2 has made the row, and the mailbox is deleted before VM1 records it. */
  lemma OrphanedByDeletion(cfg: Config, a: Address) returns (run: seq<Event>, w: World)
    ensures At(cfg, run, w) && Orphaned(w, a)
  {
    run, w := Launch(cfg);
    run, w := Import(cfg, run, w, a);
    run, w := ClaimFirst(cfg, run, w, 0);
    run, w := CreateRow(cfg, run, w, 0, 0);
    assert w.mail.rows[0] == a;
    run, w := Go(cfg, run, w, DeleteMailbox(0, true, true));
  }

  // --- Starts without limit -------------------------------------------------------------------

  /** Nothing due, no mailbox, no run row, and n syncs started, all at time 0. */
  ghost predicate Emptied(w: World, n: nat) {
    && w.worker == Idle && w.clock == 0 && w.db.runs == map[] && w.db.boxes == map[]
    && (forall j :: j in w.db.jobs ==> !Due(w.db.jobs[j], 0))
    && |w.log.starts| == n && forall r :: r in w.log.starts ==> w.log.starts[r] == 0
  }

  lemma EmptiedFacts(cfg: Config, run: seq<Event>, w: World, n: nat)
    requires At(cfg, run, w) && Emptied(w, n)
    ensures w.db.schedule == map[] && w.db.nextRun !in w.log.starts
    ensures forall j :: j in w.db.jobs ==> j < w.db.nextJob
  {
    AtIsReachable(cfg, run, w);
    assert w.db.schedule.Keys == {};
  }

  /** One mailbox imported: its provision row is the only one due. */
  lemma OneMoreImport(cfg: Config, run: seq<Event>, w: World, n: nat, a: Address) returns (run': seq<Event>, w': World)
    requires At(cfg, run, w) && Emptied(w, n)
    ensures At(cfg, run', w') && w' == w.(db := AddMailboxTx(w.db, a.domain, a.local, 0))
    ensures FirstDue(w'.db.jobs, w.db.nextJob)
    ensures forall j :: j in w'.db.jobs && Due(w'.db.jobs[j], 0) ==> j == w.db.nextJob
  {
    EmptiedFacts(cfg, run, w, n);
    run', w' := Import(cfg, run, w, a);
  }

  /** And provisioned: its assess row is the only one due. */
  lemma OneMoreBox(cfg: Config, run: seq<Event>, w: World, n: nat, a: Address) returns (run': seq<Event>, w': World)
    requires At(cfg, run, w) && Emptied(w, n)
    ensures At(cfg, run', w') && SameStarts(w, w') && w'.worker == Idle
    ensures w'.db.runs == map[] && w'.db.nextRun == w.db.nextRun
    ensures w'.db.boxes.Keys == {w.db.nextBox} && Provisioned(w', w.db.nextBox, RowFor(w.mail, a))
    ensures SyncProceeds(w'.db, w.db.nextBox, true)
    ensures FirstDue(w'.db.jobs, w.db.nextJob + 1) && SyncOf(w'.db.jobs[w.db.nextJob + 1].work, w.db.nextBox)
    ensures forall j :: j in w'.db.jobs && Due(w'.db.jobs[j], 0) ==> j == w.db.nextJob + 1
  {
    run', w' := OneMoreImport(cfg, run, w, n, a);
    run', w' := ProvisionBox(cfg, run', w', w.db.nextJob, w.db.nextBox);
  }

  /** And one more start. */
  lemma OneMoreStart(cfg: Config, run: seq<Event>, w: World, n: nat, a: Address)
    returns (run': seq<Event>, w': World, m: nat, k: nat)
    requires At(cfg, run, w) && Emptied(w, n) && MayStart(map[], cfg.policy, 0)
    ensures At(cfg, run', w') && w'.clock == 0 && w'.worker == Syncing(k, m, w.db.nextRun)
    ensures w'.db.boxes.Keys == {m} && w'.db.boxes[m].vm2Id.Some? && w'.db.boxes[m].vm2Id.value in w'.mail.rows
    ensures w'.db.runs.Keys == {w.db.nextRun} && w'.db.runs[w.db.nextRun].mailbox == m
    ensures forall j :: j in w'.db.jobs ==> !Due(w'.db.jobs[j], 0)
    ensures w'.log.starts == w.log.starts[w.db.nextRun := 0] && |w'.log.starts| == n + 1
  {
    EmptiedFacts(cfg, run, w, n);
    m, k := w.db.nextBox, w.db.nextJob + 1;
    run', w' := OneMoreBox(cfg, run, w, n, a);
    run', w' := OpenSync(cfg, run', w', k, m);
  }

  /** The sync ends and the mailbox is deleted, and its run row with it. */
  lemma ForgetIt(cfg: Config, run: seq<Event>, w: World, n: nat, m: nat, k: nat, r: nat)
    returns (run': seq<Event>, w': World)
    requires At(cfg, run, w) && w.clock == 0 && w.worker == Syncing(k, m, r)
    requires w.db.boxes.Keys == {m} && w.db.boxes[m].vm2Id.Some? && w.db.boxes[m].vm2Id.value in w.mail.rows
    requires w.db.runs.Keys == {r} && w.db.runs[r].mailbox == m
    requires forall j :: j in w.db.jobs ==> !Due(w.db.jobs[j], 0)
    requires |w.log.starts| == n && forall s :: s in w.log.starts ==> w.log.starts[s] == 0
    ensures At(cfg, run', w') && Emptied(w', n) && w'.log.starts == w.log.starts
  {
    run', w' := CloseSync(cfg, run, w, m, k, r);
    run', w' := Go(cfg, run', w', DeleteMailbox(m, true, true));
  }

  lemma CloseSync(cfg: Config, run: seq<Event>, w: World, m: nat, k: nat, r: nat) returns (run': seq<Event>, w': World)
    requires At(cfg, run, w) && w.clock == 0 && w.worker == Syncing(k, m, r) && r in w.db.runs
    requires forall j :: j in w.db.jobs ==> !Due(w.db.jobs[j], 0)
    ensures At(cfg, run', w') && w'.clock == 0 && w'.worker == Idle && w'.log.starts == w.log.starts
    ensures w'.db.boxes == w.db.boxes && w'.mail == w.mail
    ensures w'.db.runs.Keys == w.db.runs.Keys && w'.db.runs[r].mailbox == w.db.runs[r].mailbox
    ensures forall j :: j in w'.db.jobs ==> !Due(w'.db.jobs[j], 0)
  {
    run', w' := Go(cfg, run, w, CloseRun(0, true));
    run', w' := FinishAs(cfg, run', w', k, true);
  }

  lemma {:induction false} StartsAndDeletions(cfg: Config, n: nat, a: Address) returns (run: seq<Event>, w: World)
    requires MayStart(map[], cfg.policy, 0)
    ensures At(cfg, run, w) && Emptied(w, n)
    decreases n
  {
    if n == 0 {
      run, w := Launch(cfg);
    } else {
      var m, k, r: nat;
      run, w := StartsAndDeletions(cfg, n - 1, a);
      r := w.db.nextRun;
      run, w, m, k := OneMoreStart(cfg, run, w, n - 1, a);
      run, w := ForgetIt(cfg, run, w, n, m, k, r);
    }
  }

  /** Under every policy that lets one sync start, and for every n, some run starts n syncs in one instant:
      each mailbox is deleted before the next one starts. */
  lemma DeletionsDefeatTheLimit(cfg: Config, n: nat, a: Address) returns (run: seq<Event>, w: World)
    requires MayStart(map[], cfg.policy, 0)
    ensures At(cfg, run, w) && |StartsWithin(w.log.starts, 0, 0)| == n
  {
    run, w := StartsAndDeletions(cfg, n, a);
    assert StartsWithin(w.log.starts, 0, 0) == w.log.starts.Keys;
  }
}
