/** How VM1's panel reads the state of an application update: two separate reads of a run that another request
    may be starting. */
module PanelStatus {
  import opened Wrappers
  import opened AppUpdate

  datatype Shown = Unavailable | Nothing | Running | Success | Failure(interrupted: bool)

  /** What the helper printed of its state file; no `state` line at all while a write has only truncated it. */
  datatype Printed = NoState | StateNone | State(phase: Phase)

  /** `error`: the helper printed one, or left with a code other than 0. */
  function Interpret(printed: Printed, active: bool, error: bool): Shown {
    match printed
    case NoState => Unavailable
    case StateNone => if error then Failure(false) else Nothing
    case State(InProgress) => if !active then Failure(true) else if error then Failure(false) else Running
    case State(Failed) => Failure(false)
    case State(Succeeded) => if error then Failure(false) else Success
  }

  /** The request that starts a run writes `running` itself, then launches the unit. */
  datatype Starter = Resting | Opened | Ready

  /** `seen` is the first of the panel's reads; `overlapped` records that a start was under way at some point since. */
  datatype Vm1 = Vm1(file: Printed, starter: Starter, unit: Option<Script>, seen: Option<bool>, overlapped: bool,
                     shown: Option<Shown>)

  datatype Event =
    | BeginStart
    | WriteStart
    | Launch
    | LaunchFails
    | BeginWrite(phase: Phase)
    | EndWrite
    | Exit
    | Kill
    | SeeActive
    | SeeState(error: bool)

  predicate Enabled(v: Vm1, e: Event) {
    match e
    case BeginStart => v.unit.None? && v.starter.Resting?
    case WriteStart => v.starter.Opened?
    case Launch => v.starter.Ready?
    case LaunchFails => v.starter.Ready?
    case BeginWrite(phase) => v.unit.Some? && MayWrite(v.unit.value, phase)
    case EndWrite => v.unit.Some? && v.unit.value.Writing?
    case Exit => v.unit.Some?
    case Kill => v.unit.Some?
    case SeeActive => true
    case SeeState(_) => v.seen.Some?
  }

  function Next(v: Vm1, e: Event): Vm1
    requires Enabled(v, e)
  {
    match e
    case BeginStart => v.(file := NoState, starter := Opened, overlapped := true)
    case WriteStart => v.(file := State(InProgress), starter := Ready)
    case Launch => v.(starter := Resting, unit := Some(Launched))
    case LaunchFails => v.(starter := Resting)
    case BeginWrite(phase) => v.(file := NoState, unit := Some(Writing(phase)))
    case EndWrite => v.(file := State(v.unit.value.phase), unit := Some(Wrote(v.unit.value.phase)))
    case Exit => v.(unit := None)
    case Kill => v.(unit := None)
    case SeeActive => v.(seen := Some(v.unit.Some?), overlapped := !v.starter.Resting?)
    case SeeState(error) => v.(seen := None, shown := Some(Interpret(v.file, v.seen.value, error)))
  }

  predicate Legal(v: Vm1, run: seq<Event>)
    decreases |run|
  {
    run == [] || (Enabled(v, run[0]) && Legal(Next(v, run[0]), run[1..]))
  }

  function After(v: Vm1, run: seq<Event>): Vm1
    requires Legal(v, run)
    decreases |run|
  {
    if run == [] then v else After(Next(v, run[0]), run[1..])
  }

  predicate OneWriter(v: Vm1) {
    && (v.starter != Resting ==> v.unit.None?)
    && (v.seen == Some(false) && !v.overlapped ==> v.unit.None? && v.starter.Resting?)
  }

  lemma {:induction false} OneWriterAlways(v: Vm1, run: seq<Event>)
    requires OneWriter(v) && Legal(v, run)
    ensures OneWriter(After(v, run))
    decreases |run|
  {
    if run != [] {
      OneWriterAlways(Next(v, run[0]), run[1..]);
    }
  }

  /** No update is alive or about to be, and the last one left no result. */
  predicate Interrupted(v: Vm1) {
    v.unit.None? && v.starter.Resting? && v.file == State(InProgress)
  }

  /** What each report means: without an error a result or progress is shown as it stands in the file, progress only
      while the unit was seen alive; an error hides everything but a failure, a torn file, and an interruption. */
  lemma ShownExactly(printed: Printed, active: bool, error: bool)
    ensures var shown := Interpret(printed, active, error);
      && (shown == Success <==> printed == State(Succeeded) && !error)
      && (shown == Running <==> printed == State(InProgress) && active && !error)
      && (shown == Failure(true) <==> printed == State(InProgress) && !active)
      && (shown == Nothing <==> printed == StateNone && !error)
      && (shown == Unavailable <==> printed == NoState)
  {
  }

  /** Over any run from a machine at rest: a panel whose two reads overlap no start reports an interruption
      exactly when it found the unit inactive and the update really is interrupted. */
  lemma InterruptedMeansDead(v: Vm1, run: seq<Event>, error: bool)
    requires v.starter == Resting && v.seen.None? && Legal(v, run)
    requires After(v, run).seen.Some? && !After(v, run).overlapped
    ensures Next(After(v, run), SeeState(error)).shown == Some(Failure(true))
      <==> After(v, run).seen == Some(false) && Interrupted(After(v, run))
  {
    OneWriterAlways(v, run);
  }

  lemma {:induction false} WritingIsSilent(v: Vm1, run: seq<Event>)
    requires Legal(v, run) && (v.starter.Opened? ==> v.file == NoState)
    requires v.starter != Resting ==> v.unit.None?
    ensures After(v, run).starter.Opened? ==> After(v, run).file == NoState
    decreases |run|
  {
    if run != [] {
      WritingIsSilent(Next(v, run[0]), run[1..]);
    }
  }

  /** Overlapping reads included: the report is false exactly when `active` was read before the unit was launched
      and the state file after `running` was written, for an update that is alive or ready to be launched. */
  lemma FalseAlarmExactly(v: Vm1, run: seq<Event>, error: bool)
    requires v.starter == Resting && v.seen.None? && Legal(v, run) && After(v, run).seen.Some?
    ensures var w := After(v, run);
      && (Next(w, SeeState(error)).shown == Some(Failure(true)) && !Interrupted(w)
          <==> w.seen == Some(false) && w.file == State(InProgress) && (w.unit.Some? || w.starter.Ready?))
      && (Next(w, SeeState(error)).shown == Some(Failure(true)) && !Interrupted(w) ==> w.overlapped)
  {
    OneWriterAlways(v, run);
    WritingIsSilent(v, run);
  }

  /** Read while another request starts the update, a healthy run is reported as interrupted. */
  lemma StartLooksInterrupted(v: Vm1)
    requires v == Vm1(StateNone, Resting, None, None, false, None)
    ensures var run := [BeginStart, WriteStart, SeeActive, SeeState(false), Launch];
      Legal(v, run) && After(v, run).shown == Some(Failure(true)) && After(v, run).unit == Some(Launched)
  {
  }
}
