/** When the handlers go ahead, when they fail, and what deletions, imports and switches leave: said of the rows. */
module Handlers {
  import opened Wrappers
  import opened Tables
  import opened Transactions
  import opened Protocol
  import opened Guarantees

  // --- Syncs --------------------------------------------------------------------------------

  /** imapsync starts exactly when the claimed sync's mailbox is still there and active, its schedule is switched on
      and VM2 is configured; and a run of it is recorded as in progress from that moment. */
  lemma StartsExactly(cfg: Config, w: World, e: Event)
    requires Inv(cfg, w) && Enabled(w, e) && !w.worker.Syncing?
    ensures var w' := Next(cfg, w, e);
      && (w'.worker.Syncing? <==>
          && e.OpenRun? && e.vm2Configured
          && w.worker.work.mailbox in w.db.boxes && w.db.boxes[w.worker.work.mailbox].active
          && w.db.schedule[w.worker.work.mailbox].enabled)
      && (w'.worker.Syncing? ==>
          && w'.worker.run !in w.db.runs
          && w'.db.runs == w.db.runs[w'.worker.run := JobRun(w.worker.work.mailbox, InProgress, e.now, None)])
  {
  }

  /** It ends with its outcome and time in that run, if the run is still there, and in no other. */
  lemma EndsExactly(cfg: Config, w: World, now: int, ok: bool)
    requires Enabled(w, CloseRun(now, ok))
    ensures var w', run := Next(cfg, w, CloseRun(now, ok)), w.worker.run;
      w'.db.runs == if run !in w.db.runs then w.db.runs
                    else w.db.runs[run := JobRun(w.db.runs[run].mailbox, if ok then Success else Failure,
                                                 w.db.runs[run].startedAt, Some(now))]
  {
  }

  // --- Provisioning -------------------------------------------------------------------------

  /** VM2 is asked for a row exactly when the mailbox is there without being provisioned, and VM2 is configured. It
      answers with the row that holds the address, made if there was none. */
  lemma ProvisionsExactly(cfg: Config, w: World, vm2Configured: bool)
    requires Inv(cfg, w) && Enabled(w, CreateRemote(vm2Configured))
    ensures var w', m := Next(cfg, w, CreateRemote(vm2Configured)), w.worker.work.mailbox;
      && (w'.worker.Creating? <==> m in w.db.boxes && !w.db.boxes[m].active && vm2Configured)
      && (w'.worker.Creating? ==>
          && w'.worker.mailbox == m && w'.worker.vm2Id in w'.mail.rows
          && w'.mail.rows[w'.worker.vm2Id] == Address(w.db.boxes[m].domain, w.db.boxes[m].local)
          && w'.mail.rows.Keys == w.mail.rows.Keys + {w'.worker.vm2Id})
      && forall v :: v in w.mail.rows ==> v in w'.mail.rows && w'.mail.rows[v] == w.mail.rows[v]
  {
  }

  // --- Failures -----------------------------------------------------------------------------

  /** A handler raises exactly when its transaction is aborted, its run or mailbox has been deleted meanwhile, VM2
      is needed and not configured for a provisioning, or the update itself raises. Early returns count as success. */
  lemma RaisesExactly(cfg: Config, w: World, e: Event)
    requires Inv(cfg, w) && Enabled(w, e) && !w.worker.Handled? && Next(cfg, w, e).worker.Handled?
    ensures !Next(cfg, w, e).worker.ok <==>
      || e.Abort?
      || (e.CloseRun? && w.worker.run !in w.db.runs)
      || (e.CreateRemote? && w.worker.work.mailbox in w.db.boxes && !w.db.boxes[w.worker.work.mailbox].active)
      || (e.Activate? && w.worker.mailbox !in w.db.boxes)
      || (e.CloseUpdate? && e.raised)
  {
  }

  /** A system update is recorded as successful exactly if it says so and does not raise. */
  lemma UpdateEndsExactly(cfg: Config, w: World, ok: bool, raised: bool)
    requires Enabled(w, CloseUpdate(ok, raised)) && w.worker.run in w.db.updates
    ensures var updates := Next(cfg, w, CloseUpdate(ok, raised)).db.updates;
      && updates.Keys == w.db.updates.Keys && updates[w.worker.run].host == w.db.updates[w.worker.run].host
      && (updates[w.worker.run].status == Success <==> ok && !raised)
      && (updates[w.worker.run].status == Failure <==> !ok || raised)
      && forall u :: u in updates && u != w.worker.run ==> updates[u] == w.db.updates[u]
  {
  }

  // --- The web application --------------------------------------------------------------------

  /** A deletion takes the mailbox exactly if it commits and either VM2 never had the mailbox, or VM2 is configured
      and still knows it; and it takes VM2's row exactly in the latter case, committed or not. */
  lemma DeletesExactly(cfg: Config, w: World, m: nat, vm2Configured: bool, commits: bool)
    requires Enabled(w, DeleteMailbox(m, vm2Configured, commits))
    ensures var w', id := Next(cfg, w, DeleteMailbox(m, vm2Configured, commits)), w.db.boxes[m].vm2Id;
      var known := id.Some? && vm2Configured && id.value in w.mail.rows;
      && (m !in w'.db.boxes <==> commits && (id.None? || known))
      && (w'.mail.rows == if known then map v | v in w.mail.rows && v != id.value :: w.mail.rows[v] else w.mail.rows)
  {
  }

  /** A new mailbox comes inactive and without an id, switched on, with one provision job due at once. */
  lemma ImportsExactly(cfg: Config, w: World, now: int, a: Address)
    requires Inv(cfg, w) && Enabled(w, AddMailbox(now, a))
    ensures var w' := Next(cfg, w, AddMailbox(now, a));
      exists m: nat, i: nat :: m !in w.db.boxes && i !in w.db.jobs
        && w'.db.boxes == w.db.boxes[m := Mailbox(a.domain, a.local, false, None)]
        && w'.db.schedule == w.db.schedule[m := SyncJob(true, None)]
        && w'.db.jobs == w.db.jobs[i := Job(Provision(m), Queued, 100, now, None, 0, 5)]
  {
    var m, i := w.db.nextBox, w.db.nextJob;
    assert m !in w.db.boxes && i !in w.db.jobs;
    assert Next(cfg, w, AddMailbox(now, a)).db.boxes == w.db.boxes[m := Mailbox(a.domain, a.local, false, None)];
  }

  /** Importing an existing one adds another provision job, and nothing else. */
  lemma ReimportsExactly(cfg: Config, w: World, now: int, m: nat)
    requires Inv(cfg, w) && Enabled(w, Reimport(now, m))
    ensures var w' := Next(cfg, w, Reimport(now, m));
      && w'.db == w.db.(jobs := w'.db.jobs, nextJob := w'.db.nextJob)
      && exists i: nat ::
        i !in w.db.jobs && w'.db.jobs == w.db.jobs[i := Job(Provision(m), Queued, 100, now, None, 0, 5)]
  {
    assert w.db.nextJob !in w.db.jobs;
  }

  /** The switch reaches exactly the mailboxes named, and the scheduler's list of the next tick with it. */
  lemma SwitchesExactly(cfg: Config, w: World, mailboxes: set<nat>, on: bool, rows: seq<nat>)
    requires Enabled(w, SetEnabled(mailboxes, on)) && ListsEnabled(Next(cfg, w, SetEnabled(mailboxes, on)).db, rows)
    ensures forall m :: m in rows <==>
      m in w.db.schedule && if m in mailboxes then on else w.db.schedule[m].enabled
    ensures var schedule := Next(cfg, w, SetEnabled(mailboxes, on)).db.schedule;
      forall m :: m in w.db.schedule ==>
        m in schedule && schedule[m].lastEnqueuedAt == w.db.schedule[m].lastEnqueuedAt
  {
  }

  /** An update is queued exactly for a host on which none is recorded as running: ahead of every sync and
      provisioning, and with one attempt. */
  lemma RequestsUpdateExactly(cfg: Config, w: World, now: int, host: Host)
    requires Inv(cfg, w) && Enabled(w, StartUpdate(now, host))
    ensures var w' := Next(cfg, w, StartUpdate(now, host));
      if exists u :: u in w.db.updates && w.db.updates[u].host == host && w.db.updates[u].status == InProgress
      then w'.db == w.db
      else
        exists u: nat, i: nat :: u !in w.db.updates && i !in w.db.jobs
          && w'.db.updates == w.db.updates[u := UpdateRun(host, InProgress)]
          && w'.db.jobs == w.db.jobs[i := Job(SystemUpdate(u, host), Queued, 10, now, None, 0, 1)]
  {
    assert w.db.nextUpdate !in w.db.updates && w.db.nextJob !in w.db.jobs;
  }
}
