/** Scan findings on VM2: reading the file, ranking, and the numbers the panel and the alerts use. */
module Findings {
  import opened Wrappers
  import opened Texts

  datatype Severity = Malware | Suspicious | Spam | Bulk

  function Rank(s: Severity): nat {
    match s
    case Malware => 3
    case Suspicious => 2
    case Spam => 1
    case Bulk => 0
  }

  /** A line of the file: blank or not JSON; JSON that is no object, or whose signature or engine has a type that
      makes the reader or the count raise; or a finding. A signature that is absent, null or otherwise false reads
      as the empty string. */
  datatype Line = Skip | Raises | Entry(engine: Engine, signature: string)

  /** `Number`: JSON numbers and booleans, a boolean being 1 or 0 as a dictionary key is. */
  datatype Engine = Absent | Null | Named(name: string) | Number(value: real)

  datatype Finding = Finding(id: nat, engine: Engine, severity: Severity)

  function LowerAll(s: string): string {
    if s == [] then [] else [Lower(s[0])] + LowerAll(s[1..])
  }

  predicate EndsWith(s: string, suffix: string) {
    |suffix| <= |s| && s[|s| - |suffix|..] == suffix
  }

  function Classify(engine: string, signature: string): Severity {
    if engine == "rspamd" then if "reject" <= LowerAll(signature) then Spam else Bulk
    else if "Heuristics." <= signature || EndsWith(signature, ".UNOFFICIAL") then Suspicious
    else Malware
  }

  function FindingOf(id: nat, line: Line): Finding
    requires line.Entry?
  {
    Finding(id, line.engine, Classify(if line.engine.Named? then line.engine.name else "", line.signature))
  }

  /** The findings on the first `n` lines; an id is a line number, counted from 1. */
  function RowsTo(lines: seq<Line>, n: nat): seq<Finding>
    requires n <= |lines|
  {
    if n == 0 then []
    else if lines[n - 1].Entry? then RowsTo(lines, n - 1) + [FindingOf(n, lines[n - 1])]
    else RowsTo(lines, n - 1)
  }

  function Rows(lines: seq<Line>): seq<Finding> {
    RowsTo(lines, |lines|)
  }

  predicate Readable(lines: seq<Line>) {
    Raises !in lines
  }

  method ReadAll(lines: seq<Line>) returns (rows: Option<seq<Finding>>)
    ensures rows == if Readable(lines) then Some(Rows(lines)) else None
  {
    var out: seq<Finding> := [];
    for i := 0 to |lines|
      invariant out == RowsTo(lines, i)
      invariant Raises !in lines[..i]
    {
      match lines[i] {
        case Skip =>
        case Raises => return None;
        case Entry(_, _) => out := out + [FindingOf(i + 1, lines[i])];
      }
    }
    return Some(out);
  }

  ghost predicate Ascending(rows: seq<Finding>) {
    forall i, j :: 0 <= i < j < |rows| ==> rows[i].id < rows[j].id
  }

  /** Exactly the findings of the file, each once, in file order. */
  lemma {:induction false} RowsAreTheEntries(lines: seq<Line>, n: nat)
    requires n <= |lines|
    ensures Ascending(RowsTo(lines, n))
    ensures forall r :: r in RowsTo(lines, n) <==>
      0 < r.id <= n && lines[r.id - 1].Entry? && r == FindingOf(r.id, lines[r.id - 1])
    decreases n
  {
    if n > 0 {
      RowsAreTheEntries(lines, n - 1);
    }
  }

  // --- Ranking ---------------------------------------------------------------------------

  predicate Outranks(a: Finding, b: Finding) {
    Rank(a.severity) > Rank(b.severity) || (a.severity == b.severity && a.id > b.id)
  }

  function Insert(r: Finding, sorted: seq<Finding>): seq<Finding> {
    if sorted == [] || Outranks(r, sorted[0]) then [r] + sorted else [sorted[0]] + Insert(r, sorted[1..])
  }

  /** Descending by (rank, id). */
  function SortDown(rows: seq<Finding>): seq<Finding> {
    if rows == [] then [] else Insert(rows[0], SortDown(rows[1..]))
  }

  /** `s[:limit]`: a negative limit cuts that many off the end. */
  function Cut(length: nat, limit: int): (n: nat)
    ensures n <= length
    ensures limit >= 0 ==> n <= limit && (n < limit ==> n == length)
    ensures limit < 0 ==> (n > 0 ==> length - n == -limit) && (n == 0 ==> length <= -limit)
  {
    if limit >= 0 then (if limit < length then limit else length)
    else if length + limit > 0 then length + limit else 0
  }

  function Top(rows: seq<Finding>, limit: int): seq<Finding> {
    var sorted := SortDown(rows);
    sorted[..Cut(|sorted|, limit)]
  }

  ghost predicate DistinctIds(rows: seq<Finding>) {
    forall i, j :: 0 <= i < j < |rows| ==> rows[i].id != rows[j].id
  }

  ghost predicate Descending(rows: seq<Finding>) {
    forall i, j :: 0 <= i < j < |rows| ==> Outranks(rows[i], rows[j])
  }

  lemma {:induction false} InsertKeeps(r: Finding, sorted: seq<Finding>)
    requires Descending(sorted) && forall x :: x in sorted ==> x.id != r.id
    ensures Descending(Insert(r, sorted)) && |Insert(r, sorted)| == |sorted| + 1
    ensures forall x :: x in Insert(r, sorted) <==> x == r || x in sorted
    decreases |sorted|
  {
    if sorted != [] && !Outranks(r, sorted[0]) {
      InsertKeeps(r, sorted[1..]);
      forall x | x in Insert(r, sorted[1..]) ensures Outranks(sorted[0], x) {
      }
    }
  }

  lemma {:induction false} SortsDown(rows: seq<Finding>)
    requires DistinctIds(rows)
    ensures Descending(SortDown(rows)) && |SortDown(rows)| == |rows|
    ensures forall x :: x in SortDown(rows) <==> x in rows
    decreases |rows|
  {
    if rows != [] {
      SortsDown(rows[1..]);
      InsertKeeps(rows[0], SortDown(rows[1..]));
    }
  }

  /** `top` is a choice from `rows`, best first, each once, and nothing left out outranks anything chosen. */
  ghost predicate Selection(rows: seq<Finding>, top: seq<Finding>) {
    && Descending(top)
    && (forall x :: x in top ==> x in rows)
    && (forall x, y :: x in rows && x !in top && y in top ==> Outranks(y, x))
  }

  lemma TopSelects(rows: seq<Finding>, limit: int)
    requires DistinctIds(rows)
    ensures Selection(rows, Top(rows, limit)) && |Top(rows, limit)| == Cut(|rows|, limit)
  {
    SortsDown(rows);
    var sorted, top := SortDown(rows), Top(rows, limit);
    forall x, y | x in rows && x !in top && y in top ensures Outranks(y, x) {
      var i :| 0 <= i < |sorted| && sorted[i] == x;
      var j :| 0 <= j < |top| && top[j] == y;
      assert i >= |top|;
    }
  }

  /** The three conditions leave no choice: a selection is determined by its length. */
  lemma {:induction false} SelectionUnique(rows: seq<Finding>, a: seq<Finding>, b: seq<Finding>, n: nat)
    requires Selection(rows, a) && Selection(rows, b) && n <= |a| && n <= |b|
    ensures a[..n] == b[..n]
    decreases n
  {
    if n > 0 {
      SelectionUnique(rows, a, b, n - 1);
      var x, y := a[n - 1], b[n - 1];
      assert forall i :: 0 <= i < n - 1 ==> a[i] == a[..n - 1][i] == b[..n - 1][i] == b[i];
      if x != y {
        LaterIsLower(rows, a, b, n - 1);
        LaterIsLower(rows, b, a, n - 1);
      }
      assert a[..n] == a[..n - 1] + [x] && b[..n] == b[..n - 1] + [y];
    }
  }

  lemma LaterIsLower(rows: seq<Finding>, a: seq<Finding>, b: seq<Finding>, k: nat)
    requires Selection(rows, a) && Selection(rows, b) && k < |a| && k < |b| && a[k] != b[k]
    requires forall i :: 0 <= i < k ==> a[i] == b[i]
    ensures Outranks(a[k], b[k])
  {
  }

  // --- What the ranking means ---------------------------------------------------------------

  /** Malware before suspicious before spam before bulk. */
  predicate MoreSerious(a: Severity, b: Severity) {
    match a
    case Malware => b == Suspicious || b == Spam || b == Bulk
    case Suspicious => b == Spam || b == Bulk
    case Spam => b == Bulk
    case Bulk => false
  }

  /** More serious, or as serious and newer. */
  predicate ComesFirst(a: Finding, b: Finding) {
    MoreSerious(a.severity, b.severity) || (a.severity == b.severity && b.id < a.id)
  }

  /** The list runs from the more to the less serious, the newer first among equals, and whatever was left out
      comes after everything on it. */
  ghost predicate BestOf(rows: seq<Finding>, top: seq<Finding>) {
    && (forall x :: x in top ==> x in rows)
    && (forall i, j :: 0 <= i < j < |top| ==> ComesFirst(top[i], top[j]))
    && (forall x, y :: x in rows && x !in top && y in top ==> ComesFirst(y, x))
  }

  lemma SelectionIsBest(rows: seq<Finding>, top: seq<Finding>)
    requires Selection(rows, top)
    ensures BestOf(rows, top)
  {
    assert forall a, b :: Outranks(a, b) <==> ComesFirst(a, b);
  }

  lemma TopIsBest(rows: seq<Finding>, limit: int)
    requires DistinctIds(rows)
    ensures BestOf(rows, Top(rows, limit)) && |Top(rows, limit)| == Cut(|rows|, limit)
  {
    TopSelects(rows, limit);
    SelectionIsBest(rows, Top(rows, limit));
  }

  /** rspamd finds spam, certain if it says "reject" in whatever case, and bulk otherwise; any other engine finds
      malware, unless the signature's beginning or end says that it is a heuristic or unofficial one. */
  lemma SeverityOfEntry(engine: string, signature: string)
    ensures Classify(engine, signature) == Spam <==>
      engine == "rspamd" && |signature| >= 6 && forall i :: 0 <= i < 6 ==> Lower(signature[i]) == "reject"[i]
    ensures Classify(engine, signature) in {Spam, Bulk} <==> engine == "rspamd"
    ensures Classify(engine, signature) == Suspicious <==>
      engine != "rspamd" && exists rest :: signature == "Heuristics." + rest || signature == rest + ".UNOFFICIAL"
  {
    LowerEach(signature);
    assert "reject" <= LowerAll(signature) <==>
      |signature| >= 6 && forall i :: 0 <= i < 6 ==> Lower(signature[i]) == "reject"[i];
    SplitsAt(signature);
  }

  lemma SplitsAt(s: string)
    ensures "Heuristics." <= s <==> exists rest :: s == "Heuristics." + rest
    ensures EndsWith(s, ".UNOFFICIAL") <==> exists rest :: s == rest + ".UNOFFICIAL"
  {
    if "Heuristics." <= s {
      assert s == "Heuristics." + s[|"Heuristics."|..];
    }
    if EndsWith(s, ".UNOFFICIAL") {
      assert s == s[..|s| - |".UNOFFICIAL"|] + ".UNOFFICIAL";
    }
  }

  lemma {:induction false} LowerEach(s: string)
    ensures |LowerAll(s)| == |s| && forall i :: 0 <= i < |s| ==> LowerAll(s)[i] == Lower(s[i])
    decreases |s|
  {
    if s != [] {
      LowerEach(s[1..]);
    }
  }

  // --- The report ------------------------------------------------------------------------

  function NewSince(rows: seq<Finding>, since: int): seq<Finding> {
    if rows == [] then []
    else (if rows[0].id > since then [rows[0]] else []) + NewSince(rows[1..], since)
  }

  function Count(rows: seq<Finding>, s: Severity): nat {
    if rows == [] then 0 else Count(rows[..|rows| - 1], s) + if rows[|rows| - 1].severity == s then 1 else 0
  }

  /** The key a finding is counted under: its engine, and "?" for an absent one. */
  function EngineKey(r: Finding): Engine {
    if r.engine.Absent? then Named("?") else r.engine
  }

  function CountEngine(rows: seq<Finding>, engine: Engine): nat {
    if rows == [] then 0
    else CountEngine(rows[..|rows| - 1], engine) + if EngineKey(rows[|rows| - 1]) == engine then 1 else 0
  }

  function GetOr0<K>(m: map<K, nat>, k: K): nat {
    if k in m then m[k] else 0
  }

  function MaxId(rows: seq<Finding>): nat {
    if rows == [] then 0 else rows[|rows| - 1].id
  }

  datatype Report = Report(total: nat, maxId: nat, newCount: nat, newest: seq<Finding>, recent: seq<Finding>,
                           byEngine: map<Engine, nat>, bySeverity: map<Severity, nat>,
                           threats: nat, review: nat, spamReject: nat, spamBulk: nat)

  method GetFindings(lines: seq<Line>, since: int, limit: int) returns (report: Option<Report>)
    ensures report.None? <==> !Readable(lines)
    ensures report.Some? ==>
      var rows, r := Rows(lines), report.value;
      && r.total == |rows| && r.maxId == MaxId(rows) && r.newCount == |NewSince(rows, since)|
      && r.newest == Top(NewSince(rows, since), limit) && r.recent == Top(rows, limit)
      && (forall s :: GetOr0(r.bySeverity, s) == Count(rows, s))
      && (forall e :: GetOr0(r.byEngine, e) == CountEngine(rows, e))
      && r.threats == Count(rows, Malware) && r.review == Count(rows, Suspicious)
      && r.spamReject == Count(rows, Spam) && r.spamBulk == Count(rows, Bulk)
      && r.threats + r.review + r.spamReject + r.spamBulk == r.total
      && BestOf(rows, r.recent) && BestOf(NewSince(rows, since), r.newest)
  {
    var read := ReadAll(lines);
    if read.None? {
      return None;
    }
    var rows := read.value;
    var newRows := NewSince(rows, since);
    var byEngine: map<Engine, nat>, bySeverity: map<Severity, nat> := map[], map[];
    for i := 0 to |rows|
      invariant forall s :: GetOr0(bySeverity, s) == Count(rows[..i], s)
      invariant forall e :: GetOr0(byEngine, e) == CountEngine(rows[..i], e)
    {
      assert rows[..i + 1][..i] == rows[..i];
      var engine, severity := EngineKey(rows[i]), rows[i].severity;
      byEngine := byEngine[engine := GetOr0(byEngine, engine) + 1];
      bySeverity := bySeverity[severity := GetOr0(bySeverity, severity) + 1];
    }
    assert rows[..|rows|] == rows;
    SeveritiesSumUp(rows);
    ReportListsAreSelections(lines, since, limit);
    return Some(Report(|rows|, MaxId(rows), |newRows|, Top(newRows, limit), Top(rows, limit), byEngine, bySeverity,
                       GetOr0(bySeverity, Malware), GetOr0(bySeverity, Suspicious),
                       GetOr0(bySeverity, Spam), GetOr0(bySeverity, Bulk)));
  }

  /** The counts are numbers of findings: by severity, and by engine, an absent one standing under "?". */
  lemma CountsAreSizes(lines: seq<Line>, s: Severity, name: string, value: real)
    ensures var rows := Rows(lines);
      && Count(rows, s) == |set r | r in rows && r.severity == s|
      && CountEngine(rows, Named(name))
         == |set r | r in rows && (r.engine == Named(name) || (name == "?" && r.engine == Absent))|
      && CountEngine(rows, Null) == |set r | r in rows && r.engine == Null|
      && CountEngine(rows, Number(value)) == |set r | r in rows && r.engine == Number(value)|
      && CountEngine(rows, Absent) == 0
  {
    var rows := Rows(lines);
    RowsAreTheEntries(lines, |lines|);
    SizeOfSeverity(rows, s);
    SizeOfEngine(rows, Named(name));
    SizeOfEngine(rows, Null);
    SizeOfEngine(rows, Number(value));
    SizeOfEngine(rows, Absent);
    assert WithEngine(rows, Named(name))
        == set r | r in rows && (r.engine == Named(name) || (name == "?" && r.engine == Absent));
    assert WithEngine(rows, Null) == set r | r in rows && r.engine == Null;
    assert WithEngine(rows, Number(value)) == set r | r in rows && r.engine == Number(value);
    assert WithEngine(rows, Absent) == {};
  }

  function WithEngine(rows: seq<Finding>, engine: Engine): set<Finding> {
    set r | r in rows && EngineKey(r) == engine
  }

  function WithSeverity(rows: seq<Finding>, s: Severity): set<Finding> {
    set r | r in rows && r.severity == s
  }

  lemma LastIsNew(rows: seq<Finding>)
    requires rows != [] && DistinctIds(rows)
    ensures DistinctIds(rows[..|rows| - 1]) && rows[|rows| - 1] !in rows[..|rows| - 1]
    ensures forall r :: r in rows <==> r in rows[..|rows| - 1] || r == rows[|rows| - 1]
  {
    assert rows == rows[..|rows| - 1] + [rows[|rows| - 1]];
  }

  lemma OneMore(a: set<Finding>, b: set<Finding>, last: Finding, holds: bool)
    requires last !in a && b == a + if holds then {last} else {}
    ensures |b| == |a| + if holds then 1 else 0
  {
  }

  lemma {:induction false} SizeOfSeverity(rows: seq<Finding>, s: Severity)
    requires DistinctIds(rows)
    ensures Count(rows, s) == |WithSeverity(rows, s)|
    decreases |rows|
  {
    if rows != [] {
      var front, last := rows[..|rows| - 1], rows[|rows| - 1];
      LastIsNew(rows);
      SizeOfSeverity(front, s);
      OneMore(WithSeverity(front, s), WithSeverity(rows, s), last, last.severity == s);
    }
  }

  lemma {:induction false} SizeOfEngine(rows: seq<Finding>, engine: Engine)
    requires DistinctIds(rows)
    ensures CountEngine(rows, engine) == |WithEngine(rows, engine)|
    decreases |rows|
  {
    if rows != [] {
      var front, last := rows[..|rows| - 1], rows[|rows| - 1];
      LastIsNew(rows);
      SizeOfEngine(front, engine);
      OneMore(WithEngine(front, engine), WithEngine(rows, engine), last, EngineKey(last) == engine);
    }
  }

  lemma {:induction false} SeveritiesSumUp(rows: seq<Finding>)
    ensures Count(rows, Malware) + Count(rows, Suspicious) + Count(rows, Spam) + Count(rows, Bulk) == |rows|
    decreases |rows|
  {
    if rows != [] {
      SeveritiesSumUp(rows[..|rows| - 1]);
    }
  }

  lemma {:induction false} NewSinceFilters(rows: seq<Finding>, since: int)
    requires DistinctIds(rows)
    ensures DistinctIds(NewSince(rows, since)) && |NewSince(rows, since)| <= |rows|
    ensures forall x :: x in NewSince(rows, since) <==> x in rows && x.id > since
    decreases |rows|
  {
    if rows != [] {
      NewSinceFilters(rows[1..], since);
      var tail := NewSince(rows[1..], since);
      forall j | 0 <= j < |tail| && rows[0].id > since ensures tail[j].id != rows[0].id {
        assert tail[j] in rows[1..];
      }
    }
  }

  /** Both lists of a report are the best findings of what they are taken from, best first, each once. */
  lemma ReportListsAreSelections(lines: seq<Line>, since: int, limit: int)
    ensures BestOf(Rows(lines), Top(Rows(lines), limit))
    ensures BestOf(NewSince(Rows(lines), since), Top(NewSince(Rows(lines), since), limit))
    ensures |Top(NewSince(Rows(lines), since), limit)| == Cut(|NewSince(Rows(lines), since)|, limit)
  {
    RowsAreTheEntries(lines, |lines|);
    NewSinceFilters(Rows(lines), since);
    TopIsBest(Rows(lines), limit);
    TopIsBest(NewSince(Rows(lines), since), limit);
  }
}
