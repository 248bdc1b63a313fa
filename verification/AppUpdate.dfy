/** The application update across two machines: VM1's orchestrator starts VM2's updater through VM2's API,
    watches it through two separate reads, and deploys itself only after VM2's success. */
module AppUpdate {
  import opened Wrappers

  datatype Phase = InProgress | Succeeded | Failed

  /** VM2's state file; a write truncates it first, and each content is marked with the run that wrote it. */
  datatype File = Absent | Truncated | Holds(phase: Phase, run: nat)

  /** run-local and update.sh inside the transient unit. */
  datatype Script =
    | Launched                    // nothing written yet
    | Writing(phase: Phase)       // file truncated, content about to follow
    | Wrote(phase: Phase)

  datatype Unit = Inactive | Active(run: nat, script: Script)

  datatype Orchestrator =
    | Begin
    | Asked(named: bool)          // the query for VM2's address returned one, or nothing
    | Waiting
    | ReadActive(active: bool)    // `systemctl is-active` answered, state file not read yet
    | Deploying(basis: Option<nat>)
    | Finished(ok: bool)

  /** `configured`: the database names a VM2. `watched` is the run that was live when the POST was answered; the
      two sets only record. */
  datatype Fleet = Fleet(configured: bool, file: File, unit: Unit, nextRun: nat, orch: Orchestrator,
                         watched: nat, succeeded: set<nat>, diedEarly: set<nat>)

  datatype Event =
    | BeginWrite(phase: Phase)
    | EndWrite
    | Exit
    | Kill                        // reboot, OOM, or run-local giving up before its first write
    | StartOther                  // somebody else starts the unit on VM2
    | Query(answered: bool)       // unanswered: psql failed; its error output is dropped, its status ignored
    | SkipVm2
    | Post(reached: bool, answered: bool)   // answered: VM1 saw 200 or 409
    | PollLost
    | PollActive
    | PollState
    | GiveUp                      // deadline, or VM1 itself dies
    | Deployed(ok: bool)

  /** What update.sh may write next: `running` first and between phases; `success` or `failed` is its last word. */
  predicate MayWrite(script: Script, phase: Phase) {
    match script
    case Launched => phase == InProgress
    case Writing(_) => false
    case Wrote(last) => last == InProgress
  }

  predicate Enabled(f: Fleet, e: Event) {
    match e
    case BeginWrite(phase) => f.unit.Active? && MayWrite(f.unit.script, phase)
    case EndWrite => f.unit.Active? && f.unit.script.Writing?
    case Exit => f.unit.Active? && f.unit.script.Wrote? && f.unit.script.phase != InProgress
    case Kill => f.unit.Active?
    case StartOther => f.unit.Inactive?
    case Query(_) => f.orch.Begin?
    case SkipVm2 => f.orch.Asked? && !f.orch.named
    case Post(reached, answered) => f.orch.Asked? && f.orch.named && (answered ==> reached)
    case PollLost => f.orch.Waiting? || f.orch.ReadActive?
    case PollActive => f.orch.Waiting?
    case PollState => f.orch.ReadActive?
    case GiveUp => f.orch.Waiting? || f.orch.ReadActive?
    case Deployed(_) => f.orch.Deploying?
  }

  /** The loop's test on one pair of reads: keep polling, go on, or stop. */
  datatype Verdict = Again | Proceed | Stop

  function Judge(active: bool, file: File): Verdict {
    match file
    case Holds(InProgress, _) => Again
    case _ => if active then Again else if file.Holds? && file.phase == Succeeded then Proceed else Stop
  }

  function Launch(f: Fleet): Fleet {
    f.(unit := Active(f.nextRun, Launched), nextRun := f.nextRun + 1)
  }

  function Next(f: Fleet, e: Event): Fleet
    requires Enabled(f, e)
  {
    match e
    case BeginWrite(phase) => f.(file := Truncated, unit := f.unit.(script := Writing(phase)))
    case EndWrite =>
      f.(file := Holds(f.unit.script.phase, f.unit.run), unit := f.unit.(script := Wrote(f.unit.script.phase)),
         succeeded := if f.unit.script.phase == Succeeded then f.succeeded + {f.unit.run} else f.succeeded)
    case Exit => f.(unit := Inactive)
    case Kill =>
      f.(unit := Inactive, diedEarly := if f.unit.script.Launched? then f.diedEarly + {f.unit.run} else f.diedEarly)
    case StartOther => Launch(f)
    case Query(answered) => f.(orch := Asked(answered && f.configured))
    case SkipVm2 => f.(orch := Deploying(None))
    case Post(reached, answered) =>
      if !reached then f.(orch := Finished(false))
      else
        var g := if f.unit.Inactive? then Launch(f) else f;
        g.(orch := if answered then Waiting else Finished(false), watched := g.unit.run)
    case PollLost => f.(orch := Waiting)
    case PollActive => f.(orch := ReadActive(f.unit.Active?))
    case PollState =>
      (match Judge(f.orch.active, f.file)
       case Again => f.(orch := Waiting)
       case Proceed => f.(orch := Deploying(Some(f.file.run)))
       case Stop => f.(orch := Finished(false)))
    case GiveUp => f.(orch := Finished(false))
    case Deployed(ok) => f.(orch := Finished(ok))
  }

  predicate Legal(f: Fleet, run: seq<Event>)
    decreases |run|
  {
    run == [] || (Enabled(f, run[0]) && Legal(Next(f, run[0]), run[1..]))
  }

  function After(f: Fleet, run: seq<Event>): Fleet
    requires Legal(f, run)
    decreases |run|
  {
    if run == [] then f else After(Next(f, run[0]), run[1..])
  }

  // --- Ordering ------------------------------------------------------------------------

  /** Any state VM2 can be in before VM1 begins: an earlier run may have left any result behind. */
  ghost predicate Vm2Consistent(f: Fleet) {
    && (f.file.Holds? ==> f.file.run < f.nextRun)
    && (f.file.Holds? && f.file.phase == Succeeded ==> f.file.run in f.succeeded)
    && (f.unit.Active? ==> f.unit.run + 1 == f.nextRun)
    && (f.unit.Active? && f.unit.script.Writing? ==> f.file == Truncated)
    && (f.unit.Active? && f.unit.script.Wrote? ==> f.file == Holds(f.unit.script.phase, f.unit.run))
    && (forall r :: r in f.diedEarly ==> r < f.nextRun)
  }

  /** The file does not come from the watched run or a later one. */
  predicate Stale(f: Fleet) {
    f.file.Absent? || (f.file.Holds? && f.file.run < f.watched)
  }

  /** The file can be stale only while the watched run has not written, or because it died before writing. */
  ghost predicate WatchInv(f: Fleet) {
    && Vm2Consistent(f)
    && (f.orch.Waiting? || f.orch.ReadActive? ==>
          && f.watched < f.nextRun
          && (Stale(f) ==> f.unit == Active(f.watched, Launched) || f.watched in f.diedEarly))
    && (f.orch.ReadActive? && !f.orch.active && Stale(f) ==> f.watched in f.diedEarly)
    && (f.orch.Deploying? && f.orch.basis.Some? ==>
          f.orch.basis.value in f.succeeded && (f.orch.basis.value >= f.watched || f.watched in f.diedEarly))
  }

  lemma WatchStep(f: Fleet, e: Event)
    requires WatchInv(f) && Enabled(f, e)
    ensures WatchInv(Next(f, e))
  {}

  lemma {:induction false} WatchAlways(f: Fleet, run: seq<Event>)
    requires WatchInv(f) && Legal(f, run)
    ensures WatchInv(After(f, run))
    decreases |run|
  {
    if run != [] {
      WatchStep(f, run[0]);
      WatchAlways(Next(f, run[0]), run[1..]);
    }
  }

  /** From any state VM2 may be in, under any interleaving: if VM1 deploys after polling, the success it read
      was written by a run that was live at or after the POST - unless the watched run died before its first
      write. A success left over from before is never mistaken for the new one otherwise. */
  lemma Vm1DeploysAfterVm2(f: Fleet, run: seq<Event>)
    requires Vm2Consistent(f) && f.orch == Begin && Legal(f, run)
    requires After(f, run).orch.Deploying? && After(f, run).orch.basis.Some?
    ensures var g, r := After(f, run), After(f, run).orch.basis.value;
            r in g.succeeded && (r >= g.watched || g.watched in g.diedEarly)
  {
    WatchAlways(f, run);
  }

  /** What the run's query came back with, once VM1 is past it. */
  ghost predicate AskedAs(f: Fleet, named: bool) {
    match f.orch
    case Begin => false
    case Asked(n) => n == named
    case Waiting => named
    case ReadActive(_) => named
    case Deploying(basis) => basis.Some? == named
    case Finished(_) => true
  }

  lemma {:induction false} AskedOnce(f: Fleet, run: seq<Event>, named: bool)
    requires Legal(f, run) && AskedAs(f, named)
    ensures AskedAs(After(f, run), named) && (forall answered :: Query(answered) !in run)
    decreases |run|
  {
    if run != [] {
      AskedOnce(Next(f, run[0]), run[1..], named);
    }
  }

  /** Until VM1 has asked, it is at its beginning; from then on it stands by the one answer it got. */
  lemma {:induction false} AskedBySomeQuery(f: Fleet, run: seq<Event>)
    requires Legal(f, run) && f.orch == Begin && After(f, run).orch != Begin
    ensures AskedAs(After(f, run), f.configured && Query(false) !in run)
    decreases |run|
  {
    var g := Next(f, run[0]);
    if run[0].Query? {
      AskedOnce(g, run[1..], run[0].answered && f.configured);
    } else {
      AskedBySomeQuery(g, run[1..]);
    }
  }

  /** VM1 deploys without having read a success exactly when no VM2 is configured or the query for its address
      failed: the script takes the empty output of a failed query for "no VM2". */
  lemma SkipsExactly(f: Fleet, run: seq<Event>)
    requires Legal(f, run) && f.orch == Begin && After(f, run).orch.Deploying?
    ensures After(f, run).orch.basis.None? <==> !f.configured || Query(false) in run
  {
    AskedBySomeQuery(f, run);
  }

  /** A failing query is enough, whatever is configured and whatever state VM2 is in. */
  lemma QueryFailureSkipsVm2(f: Fleet)
    requires f.orch == Begin
    ensures Legal(f, [Query(false), SkipVm2])
    ensures After(f, [Query(false), SkipVm2]) == f.(orch := Deploying(None))
  {
    var asked := Next(f, Query(false));
    assert [Query(false), SkipVm2][1..] == [SkipVm2] && [SkipVm2][1..] == [];
    assert After(asked, [SkipVm2]) == Next(asked, SkipVm2);
  }

  /** When it polls the state file, VM1 goes on to deploy on the success of a run before the watched one exactly
      when it found the unit inactive, that success is what the file holds, and the watched run died before its
      first write. */
  lemma MisledExactly(f: Fleet, run: seq<Event>)
    requires Vm2Consistent(f) && f.orch == Begin && Legal(f, run) && After(f, run).orch.ReadActive?
    ensures var g := After(f, run);
      var basis := if Next(g, PollState).orch.Deploying? then Next(g, PollState).orch.basis else None;
      (basis.Some? && basis.value < g.watched)
      <==> (!g.orch.active && g.watched in g.diedEarly && Stale(g) && g.file.Holds? && g.file.phase == Succeeded)
  {
    WatchAlways(f, run);
  }

  /** The assumption is needed: a run killed before its first write leaves the old success to be believed. */
  lemma EarlyDeathMisleads()
    ensures var f := Fleet(true, Holds(Succeeded, 0), Inactive, 1, Begin, 0, {0}, {});
            var run := [Query(true), Post(true, true), Kill, PollActive, PollState];
            && Vm2Consistent(f) && Legal(f, run)
            && After(f, run).orch == Deploying(Some(0)) && After(f, run).watched == 1
  {
  }

  /** Reading the file first would not do, even without early deaths: the order of the two reads matters. */
  lemma FileFirstMisleads()
    ensures var f := Fleet(true, Holds(Succeeded, 0), Inactive, 1, Begin, 0, {0}, {});
            var posted := Next(Next(f, Query(true)), Post(true, true));
            var run := [BeginWrite(InProgress), EndWrite, BeginWrite(Failed), EndWrite, Exit];
            && Legal(posted, run) && After(posted, run).unit.Inactive? && After(posted, run).diedEarly == {}
            && Judge(After(posted, run).unit.Active?, posted.file) == Proceed
            && After(posted, run).file == Holds(Failed, 1)
  {
  }

  // --- How it ends -----------------------------------------------------------------------

  /** The operation is reported as a success exactly when VM1's own deployment ran and succeeded. */
  lemma {:induction false} SuccessMeansDeployed(f: Fleet, run: seq<Event>)
    requires Legal(f, run) && !f.orch.Finished?
    ensures After(f, run).orch.Finished? ==> (After(f, run).orch.ok <==> Deployed(true) in run)
    decreases |run|
  {
    if run != [] {
      var g := Next(f, run[0]);
      if g.orch.Finished? {
        FinishedStays(g, run[1..]);
      } else {
        SuccessMeansDeployed(g, run[1..]);
      }
    }
  }

  lemma {:induction false} FinishedStays(f: Fleet, run: seq<Event>)
    requires Legal(f, run) && f.orch.Finished?
    ensures After(f, run).orch == f.orch && forall ok :: Deployed(ok) !in run
    decreases |run|
  {
    if run != [] {
      FinishedStays(Next(f, run[0]), run[1..]);
    }
  }

  lemma {:induction false} InTwoParts(f: Fleet, a: seq<Event>, b: seq<Event>)
    requires Legal(f, a) && Legal(After(f, a), b)
    ensures Legal(f, a + b) && After(f, a + b) == After(After(f, a), b)
    decreases |a|
  {
    if a == [] {
      assert a + b == b;
    } else {
      InTwoParts(Next(f, a[0]), a[1..], b);
      assert (a + b)[1..] == a[1..] + b;
    }
  }

  /** VM2's updater writes `running`, then its result, and leaves. */
  function UpdaterRuns(result: Phase): seq<Event> {
    [BeginWrite(InProgress), EndWrite] + ([BeginWrite(result), EndWrite] + [Exit])
  }

  lemma UpdaterWrites(f: Fleet, result: Phase)
    requires f.unit.Active? && f.unit.script.Launched? && result != InProgress
    ensures Legal(f, UpdaterRuns(result))
    ensures var g := After(f, UpdaterRuns(result));
      g.file == Holds(result, f.unit.run) && g.unit == Inactive && g.orch == f.orch && g.nextRun == f.nextRun
  {
    var f1 := After(f, [BeginWrite(InProgress), EndWrite]);
    var f2 := After(f1, [BeginWrite(result), EndWrite]);
    InTwoParts(f1, [BeginWrite(result), EndWrite], [Exit]);
    InTwoParts(f, [BeginWrite(InProgress), EndWrite], [BeginWrite(result), EndWrite] + [Exit]);
    assert f2.unit == Active(f.unit.run, Wrote(result));
  }

  const ASK := [Query(true), Post(true, true)]
  const POLL := [PollActive, PollState]

  lemma AskStarts(f: Fleet)
    requires f.orch == Begin && f.configured && f.unit.Inactive?
    ensures Legal(f, ASK)
    ensures var g := After(f, ASK);
      g.orch == Waiting && g.unit == Active(f.nextRun, Launched) && g.watched == f.nextRun
  {
  }

  lemma PollJudges(f: Fleet)
    requires f.orch == Waiting && f.unit.Inactive? && f.file.Holds? && f.file.phase != InProgress
    ensures Legal(f, POLL) && After(f, POLL).file == f.file && After(f, POLL).unit == f.unit
    ensures After(f, POLL).orch == if f.file.phase == Succeeded then Deploying(Some(f.file.run)) else Finished(false)
  {
  }

  lemma PollWaits(f: Fleet)
    requires f.orch == Waiting && f.unit.Active?
    ensures Legal(f, POLL) && After(f, POLL) == f
    ensures Legal(f, [PollActive, PollLost]) && After(f, [PollActive, PollLost]) == f
    ensures Legal(f, [PollActive, GiveUp]) && After(f, [PollActive, GiveUp]) == f.(orch := Finished(false))
  {
  }

  /** From any state in which VM2's unit is idle: VM2 updates itself and then VM1 does, past a poll while VM2 is at
      work and one that gets lost half-way; if VM2 fails, VM1 is left alone. */
  lemma UpdatesBoth(f: Fleet, result: Phase)
    requires f.orch == Begin && f.configured && f.unit.Inactive? && result != InProgress
    ensures var run := ASK + (POLL + ([PollActive, PollLost] + (UpdaterRuns(result) + POLL)));
      && Legal(f, run) && After(f, run).file == Holds(result, f.nextRun) && After(f, run).unit.Inactive?
      && After(f, run).orch == if result == Succeeded then Deploying(Some(f.nextRun)) else Finished(false)
  {
    var f1 := After(f, ASK);
    AskStarts(f);
    PollWaits(f1);
    UpdaterWrites(f1, result);
    PollJudges(After(f1, UpdaterRuns(result)));
    InTwoParts(f1, UpdaterRuns(result), POLL);
    InTwoParts(f1, [PollActive, PollLost], UpdaterRuns(result) + POLL);
    InTwoParts(f1, POLL, [PollActive, PollLost] + (UpdaterRuns(result) + POLL));
    InTwoParts(f, ASK, POLL + ([PollActive, PollLost] + (UpdaterRuns(result) + POLL)));
  }

  /** VM1 may give up between two reads, and then it is not deployed. */
  lemma GivesUp(f: Fleet)
    requires f.orch == Begin && f.configured && f.unit.Inactive?
    ensures Legal(f, ASK + [PollActive, GiveUp]) && After(f, ASK + [PollActive, GiveUp]).orch == Finished(false)
  {
    AskStarts(f);
    PollWaits(After(f, ASK));
    InTwoParts(f, ASK, [PollActive, GiveUp]);
  }

  // --- The polling loop -----------------------------------------------------------------

  const WAIT_SECONDS := 1800

  /** One answer to the status request: nothing usable, or a pair of reads. */
  datatype Reply = Lost | Reads(active: bool, file: File)

  /** VM2 answers that nothing runs and that the state is not `running`. */
  predicate Decisive(r: Reply) {
    r.Reads? && !r.active && !(r.file.Holds? && r.file.phase == InProgress)
  }

  function Decide(r: Reply): Verdict {
    match r
    case Lost => Again
    case Reads(active, file) => Judge(active, file)
  }

  /** The loop stops at the first decisive reply, or at the first poll past the deadline; it always stops,
      within 181 polls. `times(k)` is the clock after poll k, in seconds. */
  method AwaitVm2(start: int, replies: nat -> Reply, times: nat -> int) returns (verdict: Verdict, polls: nat)
    requires times(0) >= start + 5
    requires forall k: nat :: times(k + 1) >= times(k) + 10
    ensures polls <= 180
    ensures forall j: nat :: j < polls ==> !Decisive(replies(j)) && times(j) <= start + 1800
    ensures verdict == Proceed <==>
      Decisive(replies(polls)) && replies(polls).file.Holds? && replies(polls).file.phase == Succeeded
    ensures verdict == Proceed || verdict == Stop
    ensures !Decisive(replies(polls)) ==> times(polls) > start + 1800
  {
    var deadline := start + WAIT_SECONDS;
    polls := 0;
    while true
      invariant times(polls) >= start + 5 + 10 * polls
      invariant polls > 0 ==> times(polls - 1) <= deadline
      invariant polls > 0 ==> start + 5 + 10 * (polls - 1) <= deadline
      invariant forall j: nat :: j < polls ==> Decide(replies(j)) == Again && times(j) <= deadline
      decreases deadline + 10 - times(polls)
    {
      if Decide(replies(polls)) != Again {
        return Decide(replies(polls)), polls;
      }
      if times(polls) > deadline {
        return Stop, polls;
      }
      assert times(polls + 1) >= times(polls) + 10;
      polls := polls + 1;
    }
  }
}
