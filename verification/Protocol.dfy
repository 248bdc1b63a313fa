/** The portal as a transition system: one worker, any number of web requests and scheduler ticks, VM2's
    mail database, and a crash allowed between any two transactions. Every transaction is atomic. */
module Protocol {
  import opened Wrappers
  import opened Tables
  import opened Throttle
  import opened Claiming
  import opened Transactions

  datatype Config = Config(policy: Policy, interval: nat)

  datatype Address = Address(domain: string, local: string)

  /** Where the single worker process stands between two transactions. */
  datatype Worker =
    | Down
    | Idle
    | Claimed(job: nat, work: Work)
    | Syncing(job: nat, mailbox: nat, run: nat)       // imapsync is running
    | Creating(job: nat, mailbox: nat, vm2Id: nat)    // VM2 has committed, VM1 has not
    | Updating(job: nat, run: nat)
    | Handled(job: nat, ok: bool)                     // the handler returned or raised
  {
    predicate Busy() { !Down? && !Idle? }
  }

  /** What happened so far; no transition reads it. */
  datatype Log = Log(starts: map<nat, int>, claims: multiset<nat>, lastClaimed: Option<nat>,
                     assessed: multiset<nat>, scheduled: seq<(nat, int)>,
                     created: multiset<Address>, removed: multiset<Address>)

  /** VM2's `virtual_mailboxes` with its id sequence. */
  datatype MailDb = MailDb(rows: map<nat, Address>, next: nat)

  datatype World = World(db: Db, mail: MailDb, worker: Worker, clock: int, log: Log)

  const EMPTY_LOG := Log(map[], multiset{}, None, multiset{}, [], multiset{}, multiset{})

  const START := World(EMPTY_DB, MailDb(map[], 0), Down, 0, EMPTY_LOG)

  datatype Event =
    | Tick(now: int, rows: seq<nat>)
    | SyncNow(now: int, mailbox: nat)
    | AddMailbox(now: int, address: Address)
    | Reimport(now: int, mailbox: nat)
    | SetEnabled(mailboxes: set<nat>, on: bool)
    | DeleteMailbox(mailbox: nat, vm2Configured: bool, commits: bool)
    | StartUpdate(now: int, host: Host)
    | Claim(now: int)
    | OpenRun(now: int, vm2Configured: bool)
    | CloseRun(now: int, ok: bool)
    | CreateRemote(vm2Configured: bool)
    | Activate(now: int)
    | OpenUpdate
    | CloseUpdate(ok: bool, raised: bool)
    | Abort                                   // the handler's current transaction raises
    | Finish(now: int, ok: bool)
    | Crash
    | Reap(now: int)
  {
    function Time(default: int): int {
      match this
      case Tick(now, _) => now
      case SyncNow(now, _) => now
      case AddMailbox(now, _) => now
      case Reimport(now, _) => now
      case StartUpdate(now, _) => now
      case Claim(now) => now
      case OpenRun(now, _) => now
      case CloseRun(now, _) => now
      case Activate(now) => now
      case Finish(now, _) => now
      case Reap(now) => now
      case _ => default
    }
  }

  ghost predicate Enabled(w: World, e: Event) {
    && e.Time(w.clock) >= w.clock
    && match e
       case Tick(_, rows) => ListsEnabled(w.db, rows)
       case Reimport(_, mailbox) => mailbox in w.db.boxes
       case DeleteMailbox(mailbox, _, _) => mailbox in w.db.boxes
       case Claim(_) => w.worker.Idle?
       case OpenRun(_, _) => w.worker.Claimed? && w.worker.work.Sync?
       case CloseRun(_, _) => w.worker.Syncing?
       case CreateRemote(_) => w.worker.Claimed? && w.worker.work.Provision?
       case Activate(_) => w.worker.Creating?
       case OpenUpdate => w.worker.Claimed? && w.worker.work.SystemUpdate?
       case CloseUpdate(_, _) => w.worker.Updating?
       case Abort => w.worker.Busy() && !w.worker.Handled?
       case Finish(_, ok) => w.worker.Handled? && (ok ==> w.worker.ok)
       case Crash => !w.worker.Down?
       case Reap(_) => w.worker.Down?
       case _ => true
  }

  // --- Single steps with several outcomes -----------------------------------------

  function AddressOf(m: Mailbox): Address {
    Address(m.domain, m.local)
  }

  /** VM2's select-then-insert, under its unique (domain, local part) constraint. */
  predicate Holds(mail: MailDb, a: Address) {
    exists v :: v in mail.rows && mail.rows[v] == a
  }

  ghost function RowFor(mail: MailDb, a: Address): (v: nat)
    ensures Holds(mail, a) ==> v in mail.rows && mail.rows[v] == a
    ensures !Holds(mail, a) ==> v == mail.next
  {
    if Holds(mail, a) then var v :| v in mail.rows && mail.rows[v] == a; v else mail.next
  }

  ghost function EnsureRow(mail: MailDb, a: Address): MailDb {
    if Holds(mail, a) then mail else MailDb(mail.rows[mail.next := a], mail.next + 1)
  }

  ghost function ClaimStep(cfg: Config, w: World, now: int): World {
    var (db, claimed) := ClaimTx(w.db, cfg.policy, now);
    match claimed
    case None => w.(db := db)
    case Some(i) =>
      w.(db := db, worker := Claimed(i, if i in w.db.jobs then w.db.jobs[i].work else Provision(0)),
         log := w.log.(claims := w.log.claims + multiset{i}, lastClaimed := Some(i)))
  }

  function OpenRunStep(w: World, now: int, vm2Configured: bool): World
    requires w.worker.Claimed? && w.worker.work.Sync?
  {
    var job, mailbox := w.worker.job, w.worker.work.mailbox;
    if !SyncProceeds(w.db, mailbox, vm2Configured) then w.(worker := Handled(job, true))
    else w.(db := OpenRunTx(w.db, mailbox, now), worker := Syncing(job, mailbox, w.db.nextRun),
            log := w.log.(starts := w.log.starts[w.db.nextRun := now]))
  }

  function CloseRunStep(w: World, now: int, ok: bool): World
    requires w.worker.Syncing?
  {
    w.(db := CloseRunTx(w.db, w.worker.run, ok, now), worker := Handled(w.worker.job, w.worker.run in w.db.runs))
  }

  ghost function CreateRemoteStep(w: World, vm2Configured: bool): World
    requires w.worker.Claimed? && w.worker.work.Provision?
  {
    var job, m := w.worker.job, w.worker.work.mailbox;
    if m !in w.db.boxes || (w.db.boxes[m].active && w.db.boxes[m].vm2Id.Some?) then w.(worker := Handled(job, true))
    else if !vm2Configured then w.(worker := Handled(job, false))
    else
      var a := AddressOf(w.db.boxes[m]);
      w.(mail := EnsureRow(w.mail, a), worker := Creating(job, m, RowFor(w.mail, a)),
         log := if Holds(w.mail, a) then w.log else w.log.(created := w.log.created + multiset{a}))
  }

  function ActivateStep(w: World, now: int): World
    requires w.worker.Creating?
  {
    var job, m := w.worker.job, w.worker.mailbox;
    if m !in w.db.boxes then w.(worker := Handled(job, false))
    else w.(db := ActivateTx(w.db, m, w.worker.vm2Id, now), worker := Handled(job, true),
            log := w.log.(assessed := w.log.assessed + multiset{m}))
  }

  /** `delete_mailbox`: VM2 first, refusing when VM2 is not configured or does not know the row; the local
      half may fail to commit after VM2 has deleted. */
  function DeleteStep(w: World, m: nat, vm2Configured: bool, commits: bool): World
    requires m in w.db.boxes
  {
    match w.db.boxes[m].vm2Id
    case None => if commits then DropLocal(w, m) else w
    case Some(v) =>
      if !vm2Configured || v !in w.mail.rows then w
      else
        var w1 := w.(mail := w.mail.(rows := w.mail.rows - {v}),
                     log := w.log.(removed := w.log.removed + multiset{w.mail.rows[v]}));
        if commits then DropLocal(w1, m) else w1
  }

  function DropLocal(w: World, m: nat): World {
    w.(db := DeleteMailboxTx(w.db, m))
  }

  function TickStep(cfg: Config, w: World, now: int, rows: seq<nat>): World {
    var (db, added) := TickTx(w.db, cfg.interval, now, rows);
    w.(db := db, log := w.log.(scheduled := w.log.scheduled
      + seq(|added|, k requires 0 <= k < |added| => (added[k], now))))
  }

  ghost function Effect(cfg: Config, w: World, e: Event): World
    requires Enabled(w, e)
  {
    match e
    case Tick(now, rows) => TickStep(cfg, w, now, rows)
    case SyncNow(now, mailbox) => w.(db := SyncNowTx(w.db, mailbox, now))
    case AddMailbox(now, a) => w.(db := AddMailboxTx(w.db, a.domain, a.local, now))
    case Reimport(now, mailbox) => w.(db := ReimportTx(w.db, mailbox, now))
    case SetEnabled(mailboxes, on) => w.(db := SetEnabledTx(w.db, mailboxes, on))
    case DeleteMailbox(m, vm2Configured, commits) => DeleteStep(w, m, vm2Configured, commits)
    case StartUpdate(now, host) => w.(db := StartUpdateTx(w.db, host, now))
    case Claim(now) => ClaimStep(cfg, w, now)
    case OpenRun(now, vm2Configured) => OpenRunStep(w, now, vm2Configured)
    case CloseRun(now, ok) => CloseRunStep(w, now, ok)
    case CreateRemote(vm2Configured) => CreateRemoteStep(w, vm2Configured)
    case Activate(now) => ActivateStep(w, now)
    case OpenUpdate =>
      w.(db := SetUpdateTx(w.db, w.worker.work.run, InProgress), worker := Updating(w.worker.job, w.worker.work.run))
    case CloseUpdate(ok, raised) =>
      w.(db := SetUpdateTx(w.db, w.worker.run, if ok && !raised then Success else Failure),
         worker := Handled(w.worker.job, !raised))
    case Abort => w.(worker := Handled(w.worker.job, false))
    case Finish(now, ok) => w.(db := FinishTx(w.db, w.worker.job, ok, now), worker := Idle)
    case Crash => w.(worker := Down)
    case Reap(now) => w.(db := ReapTx(w.db, now), worker := Idle)
  }

  ghost function Next(cfg: Config, w: World, e: Event): World
    requires Enabled(w, e)
  {
    Effect(cfg, w, e).(clock := e.Time(w.clock))
  }

  // --- Runs ---------------------------------------------------------------------

  ghost predicate Legal(cfg: Config, w: World, run: seq<Event>)
    decreases |run|
  {
    run == [] || (Enabled(w, run[0]) && Legal(cfg, Next(cfg, w, run[0]), run[1..]))
  }

  ghost function After(cfg: Config, w: World, run: seq<Event>): World
    requires Legal(cfg, w, run)
    decreases |run|
  {
    if run == [] then w else After(cfg, Next(cfg, w, run[0]), run[1..])
  }

  lemma Prepend(cfg: Config, w: World, e: Event, rest: seq<Event>)
    requires Enabled(w, e) && Legal(cfg, Next(cfg, w, e), rest)
    ensures Legal(cfg, w, [e] + rest)
    ensures After(cfg, w, [e] + rest) == After(cfg, Next(cfg, w, e), rest)
  {
  }

  lemma TwoSteps(cfg: Config, w: World, a: Event, b: Event)
    requires Enabled(w, a) && Enabled(Next(cfg, w, a), b)
    ensures Legal(cfg, w, [a, b]) && After(cfg, w, [a, b]) == Next(cfg, Next(cfg, w, a), b)
  {
    assert [a, b][1..] == [b] && [b][1..] == [];
    assert After(cfg, Next(cfg, w, a), [b]) == Next(cfg, Next(cfg, w, a), b);
  }

  lemma {:induction false} Snoc(cfg: Config, w: World, run: seq<Event>, e: Event)
    requires Legal(cfg, w, run) && Enabled(After(cfg, w, run), e)
    ensures Legal(cfg, w, run + [e])
    ensures After(cfg, w, run + [e]) == Next(cfg, After(cfg, w, run), e)
    decreases |run|
  {
    if run == [] {
      assert run + [e] == [e] + [];
      Prepend(cfg, w, e, []);
    } else {
      Snoc(cfg, Next(cfg, w, run[0]), run[1..], e);
      Prepend(cfg, w, run[0], run[1..] + [e]);
      assert run + [e] == [run[0]] + (run[1..] + [e]);
    }
  }
}
