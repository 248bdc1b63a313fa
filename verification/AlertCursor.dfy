/** Alerting on new findings: VM2's file grows while VM1 asks, from a stored cursor on, what is new. */
module AlertCursor {
  import opened Wrappers
  import opened Findings

  const LIMIT := 50
  const SHOWN := 20

  /** `torn`: the last line is being written; until it is complete it does not read as JSON. */
  datatype File = File(lines: seq<Line>, torn: Option<Line>)

  function Visible(f: File): seq<Line> {
    if f.torn.Some? then f.lines + [Skip] else f.lines
  }

  /** One check that committed: it asked from `since`, left the cursor at `until`, found `news` and listed `items`. */
  datatype Window = Window(since: nat, until: nat, news: set<nat>, alerted: nat, items: seq<Finding>)

  /** `cursor` is the stored row's `last_scan_finding_id`. */
  datatype World = World(file: File, cursor: nat, windows: seq<Window>)

  datatype Check = NoAnswer | RolledBack | Committed

  datatype Event =
    | Append(line: Line)   // a scanner writes a whole line
    | Tear(line: Line)     // part of a line is on disk
    | Complete             // the rest of it follows
    | Spoil                // it never does, and what comes next makes the line unreadable
    | Ask(check: Check)

  predicate Enabled(w: World, e: Event) {
    match e
    case Append(_) => w.file.torn.None?
    case Tear(_) => w.file.torn.None?
    case Complete => w.file.torn.Some?
    case Spoil => w.file.torn.Some?
    case Ask(check) => check == NoAnswer || Readable(Visible(w.file))
  }

  function News(w: World): seq<Finding> {
    NewSince(Rows(Visible(w.file)), w.cursor)
  }

  function IdsOf(rows: seq<Finding>): set<nat> {
    set r | r in rows :: r.id
  }

  function Max(a: nat, b: nat): nat {
    if a < b then b else a
  }

  function WindowOf(w: World): Window {
    var items := Top(News(w), LIMIT);
    Window(w.cursor, Max(w.cursor, MaxId(Rows(Visible(w.file)))), IdsOf(News(w)), |items|,
           items[..Cut(|items|, SHOWN)])
  }

  /** A check without an answer or whose transaction is rolled back leaves the cursor where it was. */
  function Next(w: World, e: Event): World
    requires Enabled(w, e)
  {
    match e
    case Append(line) => w.(file := File(w.file.lines + [line], None))
    case Tear(line) => w.(file := File(w.file.lines, Some(line)))
    case Complete => w.(file := File(w.file.lines + [w.file.torn.value], None))
    case Spoil => w.(file := File(w.file.lines + [Skip], None))
    case Ask(check) =>
      if check == Committed then w.(cursor := WindowOf(w).until, windows := w.windows + [WindowOf(w)]) else w
  }

  ghost predicate Legal(run: seq<Event>) {
    run == [] || (Legal(run[..|run| - 1]) && Enabled(After(run[..|run| - 1]), run[|run| - 1]))
  }

  const START := World(File([], None), 0, [])

  ghost function After(run: seq<Event>): World {
    if run == [] then START
    else
      var w := After(run[..|run| - 1]);
      if Enabled(w, run[|run| - 1]) then Next(w, run[|run| - 1]) else w
  }

  // --- Invariants ------------------------------------------------------------------------

  predicate IsFinding(f: File, id: nat) {
    0 < id <= |f.lines| && f.lines[id - 1].Entry?
  }

  /** The windows follow one another without gap or overlap, up to the cursor. */
  ghost predicate Chained(w: World) {
    && (w.windows == [] ==> w.cursor == 0)
    && (w.windows != [] ==> w.windows[0].since == 0 && w.windows[|w.windows| - 1].until == w.cursor)
    && (forall i :: 0 <= i < |w.windows| ==> w.windows[i].since <= w.windows[i].until)
    && (forall i, j :: 0 <= i < j < |w.windows| ==> w.windows[i].until <= w.windows[j].since)
    && (forall i :: 0 < i < |w.windows| ==> w.windows[i - 1].until == w.windows[i].since)
  }

  ghost predicate Covering(f: File, window: Window) {
    forall id :: id in window.news <==> window.since < id <= window.until && IsFinding(f, id)
  }

  ghost predicate Inv(w: World) {
    && Chained(w) && w.cursor <= |w.file.lines|
    && forall i :: 0 <= i < |w.windows| ==> w.windows[i].until <= w.cursor && Covering(w.file, w.windows[i])
  }

  lemma CompleteLines(f: File, id: nat)
    requires 0 < id <= |Visible(f)|
    ensures Visible(f)[id - 1].Entry? <==> IsFinding(f, id)
    ensures id <= |f.lines| ==> Visible(f)[id - 1] == f.lines[id - 1]
  {
  }

  lemma LastIsLargest(rows: seq<Finding>)
    requires Ascending(rows)
    ensures forall r :: r in rows ==> r.id <= MaxId(rows)
    ensures rows != [] ==> exists r :: r in rows && r.id == MaxId(rows)
  {
    if rows != [] {
      assert rows[|rows| - 1] in rows;
    }
  }

  /** The torn line reads as nothing, so what can be seen is what is complete. */
  lemma VisibleFindings(f: File)
    ensures DistinctIds(Rows(Visible(f)))
    ensures forall r :: r in Rows(Visible(f)) ==> IsFinding(f, r.id)
    ensures forall id :: IsFinding(f, id) ==> FindingOf(id, f.lines[id - 1]) in Rows(Visible(f))
    ensures MaxId(Rows(Visible(f))) <= |f.lines|
    ensures forall r :: r in Rows(Visible(f)) ==> r.id <= MaxId(Rows(Visible(f)))
  {
    var v := Visible(f);
    var rows := RowsTo(v, |v|);
    RowsAreTheEntries(v, |v|);
    forall r | r in rows ensures IsFinding(f, r.id) {
      CompleteLines(f, r.id);
    }
    forall id | IsFinding(f, id) ensures FindingOf(id, f.lines[id - 1]) in rows {
      CompleteLines(f, id);
      assert FindingOf(id, f.lines[id - 1]).id == id;
    }
    LastIsLargest(rows);
  }

  lemma NewsIds(w: World)
    ensures forall id :: id in IdsOf(News(w)) <==> w.cursor < id && IsFinding(w.file, id)
    ensures forall id :: id in IdsOf(News(w)) ==> id <= MaxId(Rows(Visible(w.file)))
  {
    var rows := Rows(Visible(w.file));
    VisibleFindings(w.file);
    NewSinceFilters(rows, w.cursor);
    forall id | w.cursor < id && IsFinding(w.file, id) ensures id in IdsOf(News(w)) {
      assert FindingOf(id, w.file.lines[id - 1]) in News(w);
    }
  }

  lemma WindowCovers(w: World)
    ensures Covering(w.file, WindowOf(w))
    ensures w.cursor <= |w.file.lines| ==> WindowOf(w).until <= |w.file.lines|
  {
    VisibleFindings(w.file);
    NewsIds(w);
  }

  lemma WindowsExtend(w: World, window: Window)
    requires Inv(w) && Covering(w.file, window)
    requires window.since == w.cursor <= window.until <= |w.file.lines|
    ensures Inv(w.(cursor := window.until, windows := w.windows + [window]))
  {
  }

  lemma CheckStep(w: World, check: Check)
    requires Inv(w) && Enabled(w, Ask(check))
    ensures Inv(Next(w, Ask(check)))
  {
    WindowCovers(w);
    WindowsExtend(w, WindowOf(w));
  }

  lemma GrowthStep(w: World, line: Line)
    requires Inv(w)
    ensures Inv(w.(file := File(w.file.lines + [line], None)))
  {
  }

  lemma {:induction false} Step(w: World, e: Event)
    requires Inv(w) && Enabled(w, e)
    ensures Inv(Next(w, e))
  {
    match e
    case Append(line) => GrowthStep(w, line);
    case Tear(line) =>
      var f := File(w.file.lines, Some(line));
      assert forall id :: IsFinding(f, id) <==> IsFinding(w.file, id);
    case Complete => GrowthStep(w, w.file.torn.value);
    case Spoil => GrowthStep(w, Skip);
    case Ask(check) => CheckStep(w, check);
  }

  lemma {:induction false} Always(run: seq<Event>)
    requires Legal(run)
    ensures Inv(After(run))
    decreases |run|
  {
    if run != [] {
      Always(run[..|run| - 1]);
      Step(After(run[..|run| - 1]), run[|run| - 1]);
    }
  }

  // --- Guarantees ------------------------------------------------------------------------

  ghost predicate CoveredBy(w: World, i: nat, id: nat) {
    i < |w.windows| && id in w.windows[i].news
  }

  /** Over any run: a finding at or below the cursor was new in exactly one committed check, one above it in none. */
  lemma ExactlyOnce(run: seq<Event>, id: nat)
    requires Legal(run) && IsFinding(After(run).file, id)
    ensures id <= After(run).cursor <==> exists i: nat :: CoveredBy(After(run), i, id)
    ensures forall i: nat, j: nat :: CoveredBy(After(run), i, id) && CoveredBy(After(run), j, id) ==> i == j
  {
    var w := After(run);
    Always(run);
    forall i: nat, j: nat | CoveredBy(w, i, id) && CoveredBy(w, j, id) ensures i == j {
      assert Covering(w.file, w.windows[i]) && Covering(w.file, w.windows[j]);
    }
    forall i: nat | CoveredBy(w, i, id) ensures id <= w.cursor {
      assert Covering(w.file, w.windows[i]);
    }
    if id <= w.cursor {
      var i := WindowAround(w, id, |w.windows|);
      assert Covering(w.file, w.windows[i]);
      assert CoveredBy(w, i, id);
    }
  }

  /** Some window among the first `n` holds `id`. */
  lemma {:induction false} WindowAround(w: World, id: nat, n: nat) returns (i: nat)
    requires Inv(w) && 0 < n <= |w.windows| && 0 < id <= w.windows[n - 1].until
    ensures i < |w.windows| && w.windows[i].since < id <= w.windows[i].until
    decreases n
  {
    if id > w.windows[n - 1].since {
      i := n - 1;
    } else {
      assert n > 1;
      i := WindowAround(w, id, n - 1);
    }
  }

  /** A line completed, and not yet covered, is new in the next check that commits. */
  lemma NextCheckCovers(run: seq<Event>, id: nat)
    requires Legal(run) && IsFinding(After(run).file, id) && id > After(run).cursor
    requires Legal(run + [Ask(Committed)])
    ensures var w := After(run + [Ask(Committed)]); CoveredBy(w, |w.windows| - 1, id) && id <= w.cursor
  {
    var w := After(run);
    assert (run + [Ask(Committed)])[..|run|] == run;
    NewsIds(w);
  }

  /** An alert counts and can list every new finding exactly when there are at most fifty. */
  lemma AlertIsComplete(w: World)
    ensures WindowOf(w).alerted == |News(w)| <==> |News(w)| <= 50
    ensures Selection(News(w), WindowOf(w).items) && BestOf(News(w), WindowOf(w).items)
    ensures |WindowOf(w).items| == if |News(w)| <= 20 then |News(w)| else 20
  {
    var rows := Rows(Visible(w.file));
    VisibleFindings(w.file);
    NewSinceFilters(rows, w.cursor);
    TopSelects(News(w), LIMIT);
    TopSelects(News(w), SHOWN);
    SortsDown(News(w));
    assert WindowOf(w).items == Top(News(w), SHOWN);
    SelectionIsBest(News(w), WindowOf(w).items);
  }

  // --- More than fifty at once --------------------------------------------------------------

  const VIRUS := Entry(Named("clamav"), "Win.Test.EICAR_HDB-1")

  function Appends(n: nat): seq<Event> {
    if n == 0 then [] else Appends(n - 1) + [Append(VIRUS)]
  }

  function Viruses(n: nat): seq<Line> {
    if n == 0 then [] else Viruses(n - 1) + [VIRUS]
  }

  lemma Extends(run: seq<Event>, e: Event)
    requires Legal(run) && Enabled(After(run), e)
    ensures Legal(run + [e]) && After(run + [e]) == Next(After(run), e)
  {
    assert (run + [e])[..|run|] == run;
  }

  lemma {:induction false} AppendsOnly(n: nat)
    ensures Legal(Appends(n)) && After(Appends(n)) == World(File(Viruses(n), None), 0, [])
    decreases n
  {
    if n > 0 {
      AppendsOnly(n - 1);
      Extends(Appends(n - 1), Append(VIRUS));
    }
  }

  lemma {:induction false} AllViruses(n: nat)
    ensures |Viruses(n)| == n && forall line :: line in Viruses(n) ==> line == VIRUS
    decreases n
  {
    if n > 0 {
      AllViruses(n - 1);
    }
  }

  lemma {:induction false} AllEntries(lines: seq<Line>, n: nat)
    requires n <= |lines| && forall line :: line in lines ==> line.Entry?
    ensures |RowsTo(lines, n)| == n
    decreases n
  {
    if n > 0 {
      AllEntries(lines, n - 1);
      assert lines[n - 1] in lines;
    }
  }

  lemma {:induction false} AllNew(rows: seq<Finding>, since: int)
    requires forall r :: r in rows ==> r.id > since
    ensures NewSince(rows, since) == rows
    decreases |rows|
  {
    if rows != [] {
      AllNew(rows[1..], since);
    }
  }

  lemma LastRowOf(lines: seq<Line>, n: nat)
    requires 0 < n == |lines| && lines[n - 1].Entry?
    ensures MaxId(Rows(lines)) == n
  {
  }

  lemma AllNewsAtFirst(lines: seq<Line>)
    requires forall line :: line in lines ==> line.Entry?
    ensures NewSince(Rows(lines), 0) == Rows(lines) && |Rows(lines)| == |lines|
  {
    AllEntries(lines, |lines|);
    RowsAreTheEntries(lines, |lines|);
    AllNew(Rows(lines), 0);
  }

  lemma CheckOfMany(w: World, n: nat)
    requires w == World(File(w.file.lines, None), 0, []) && |w.file.lines| == n > LIMIT
    requires forall line :: line in w.file.lines ==> line.Entry?
    ensures Enabled(w, Ask(Committed)) && |News(w)| == n
    ensures WindowOf(w).until == n && WindowOf(w).alerted == LIMIT && |WindowOf(w).items| == SHOWN
  {
    AllNewsAtFirst(w.file.lines);
    LastRowOf(w.file.lines, n);
    VisibleFindings(w.file);
    TopSelects(News(w), LIMIT);
    AlertIsComplete(w);
  }

  /** n findings, then a check: for every n above fifty the alert counts fifty and lists twenty, and the cursor
      passes all n. */
  lemma FiftyOfMany(n: nat)
    requires n > 50
    ensures var run := Appends(n) + [Ask(Committed)];
      && Legal(run) && |News(After(Appends(n)))| == n
      && var w := After(run);
         w.cursor == n && |w.windows| == 1 && w.windows[0].alerted == 50 && |w.windows[0].items| == 20
  {
    AppendsOnly(n);
    AllViruses(n);
    CheckOfMany(After(Appends(n)), n);
    Extends(Appends(n), Ask(Committed));
  }

  // --- The check itself --------------------------------------------------------------------

  datatype Alert = Alert(count: nat, items: seq<Finding>)

  class Monitor {
    /** The instance row's cursor; there may be no such row. */
    var stored: Option<nat>

    constructor ()
      ensures stored == None
    {
      stored := None;
    }

    /** `reachable`: VM2 answers. A file it cannot read is an error answer too. */
    method CheckScanFindings(file: File, reachable: bool) returns (alert: Option<Alert>)
      modifies this
      ensures var window := WindowOf(World(file, if old(stored).Some? then old(stored).value else 0, []));
        if reachable && Readable(Visible(file)) then
          && stored == (if old(stored).Some? then Some(window.until) else None)
          && alert == if window.news == {} then None else Some(Alert(window.alerted, window.items))
        else stored == old(stored) && alert == None
    {
      var since := if stored.Some? then stored.value else 0;
      ghost var w := World(file, since, []);
      var data: Option<Report> := None;
      if reachable {
        data := GetFindings(Visible(file), since, LIMIT);
      }
      if data.None? {
        return None;
      }
      AlertIsComplete(w);
      AlertsOnNews(w);
      alert := None;
      var newest := data.value.newest;
      if newest != [] {
        alert := Some(Alert(|newest|, newest[..Cut(|newest|, SHOWN)]));
      }
      if stored.Some? && data.value.maxId > since {
        stored := Some(data.value.maxId);
      }
    }
  }

  lemma AlertsOnNews(w: World)
    ensures Top(News(w), LIMIT) == [] <==> WindowOf(w).news == {}
  {
    AlertIsComplete(w);
    VisibleFindings(w.file);
    NewSinceFilters(Rows(Visible(w.file)), w.cursor);
    TopSelects(News(w), LIMIT);
    if News(w) != [] {
      assert News(w)[0].id in IdsOf(News(w));
    }
  }
}
