/** Importing mailboxes: staging a file, committing it, and the upsert shared with manual entry. */
module Import {
  import opened Wrappers
  import opened Texts

  /** Library string operations, left uninterpreted. */
  datatype Text = Text(lower: string -> string, strip: string -> string)

  /** One spreadsheet row; an absent cell is the empty string. */
  datatype Raw = Raw(domain: string, username: string, password: string, destination: string)

  /** (source domain, exact source username). */
  type Key = (string, string)

  function DomainKey(t: Text, raw: Raw): string {
    t.strip(t.lower(raw.domain))
  }

  function ExactKey(t: Text, raw: Raw): Key {
    (DomainKey(t, raw), t.strip(raw.username))
  }

  /** The key duplicates are found by: the username in lower case. */
  function FoldedKey(t: Text, raw: Raw): Key {
    (DomainKey(t, raw), t.lower(t.strip(raw.username)))
  }

  // --- Staging ------------------------------------------------------------------------

  datatype Match = New | DuplicateInFile | ExistingUnchanged | ExistingUpdated

  datatype Staged = Staged(raw: Raw, match_: Match, valid: bool)

  predicate IsValid(t: Text, raw: Raw) {
    DomainKey(t, raw) != "" && t.strip(raw.username) != "" && raw.password != ""
  }

  /** `passwords`: what the database knows, None for a password that cannot be decrypted. */
  function Classify(t: Text, passwords: map<Key, Option<string>>, raw: Raw): Match {
    if ExactKey(t, raw) !in passwords then New
    else if passwords[ExactKey(t, raw)] == Some(raw.password) then ExistingUnchanged
    else ExistingUpdated
  }

  predicate FirstOfItsKey(t: Text, rows: seq<Raw>, i: nat)
    requires i < |rows|
  {
    forall j :: 0 <= j < i ==> FoldedKey(t, rows[j]) != FoldedKey(t, rows[i])
  }

  /** How a file's row i is staged: unmarked exactly when it is the first of its folded key, valid or not. */
  function StagedAs(t: Text, passwords: map<Key, Option<string>>, rows: seq<Raw>, i: nat): Staged
    requires i < |rows|
  {
    Staged(rows[i], if FirstOfItsKey(t, rows, i) then Classify(t, passwords, rows[i]) else DuplicateInFile,
           IsValid(t, rows[i]))
  }

  method StageBatch(t: Text, passwords: map<Key, Option<string>>, rows: seq<Raw>) returns (staged: seq<Staged>)
    ensures |staged| == |rows|
    ensures forall i :: 0 <= i < |rows| ==> staged[i] == StagedAs(t, passwords, rows, i)
  {
    staged := [];
    var seen: set<Key> := {};
    for i := 0 to |rows|
      invariant |staged| == i
      invariant forall key :: key in seen <==> exists j :: 0 <= j < i && FoldedKey(t, rows[j]) == key
      invariant forall j :: 0 <= j < i ==> staged[j] == StagedAs(t, passwords, rows, j)
    {
      var row := rows[i];
      var key := FoldedKey(t, row);
      var match_ := DuplicateInFile;
      if key !in seen {
        seen := seen + {key};
        match_ := Classify(t, passwords, row);
      }
      staged := staged + [Staged(row, match_, IsValid(t, row))];
    }
  }

  // --- Committing, on the tables seen without generated ids ------------------------------

  datatype DomainView = DomainView(destination: string, host: string, port: int, defaultQuota: int)

  datatype CredentialView = CredentialView(password: string, destinationUser: string, batch: Option<nat>)

  datatype BoxView = BoxView(sourceAddress: string, destinationAddress: string, quota: int)

  /** Four tables by natural key; the last is how many provision jobs each mailbox has. */
  datatype View = View(domains: map<string, DomainView>, credentials: map<Key, CredentialView>,
                       boxes: map<Key, BoxView>, provisions: multiset<Key>)

  /** The arguments of one upsert, normalised as its first lines do. */
  datatype Entry = Entry(key: Key, password: string, destinationUser: string, host: string, port: int,
                         quota: int, batch: Option<nat>)

  function LocalPart(username: string): string {
    Before(username, '@')
  }

  /** `host` and `destination` use their defaults when empty, as the code's `or` does. */
  function EntryOf(t: Text, raw: Raw, host: string, port: int, quota: int, batch: Option<nat>): Entry {
    var key := ExactKey(t, raw);
    Entry(key, raw.password, t.strip(if raw.destination != "" then raw.destination else LocalPart(key.1)),
          if host != "" then host else key.0, port, quota, batch)
  }

  function SourceAddress(key: Key): string {
    if '@' in key.1 then key.1 else key.1 + "@" + key.0
  }

  predicate Creates(v: View, e: Entry) {
    e.key !in v.credentials || e.key !in v.boxes
  }

  function DomainsAfter(domains: map<string, DomainView>, e: Entry): map<string, DomainView> {
    if e.key.0 in domains then domains else domains[e.key.0 := DomainView(e.key.0, e.host, e.port, 0)]
  }

  function CredentialsAfter(credentials: map<Key, CredentialView>, e: Entry): map<Key, CredentialView> {
    credentials[e.key :=
      if e.key in credentials then credentials[e.key].(password := e.password)
      else CredentialView(e.password, e.destinationUser, e.batch)]
  }

  function NewBox(domain: DomainView, e: Entry): BoxView {
    BoxView(SourceAddress(e.key), e.destinationUser + "@" + domain.destination,
            if e.quota != 0 then e.quota else domain.defaultQuota)
  }

  function BoxesAfter(boxes: map<Key, BoxView>, domain: DomainView, e: Entry): map<Key, BoxView> {
    if e.key in boxes then boxes else boxes[e.key := NewBox(domain, e)]
  }

  function UpsertView(v: View, e: Entry): View {
    var domains := DomainsAfter(v.domains, e);
    View(domains, CredentialsAfter(v.credentials, e), BoxesAfter(v.boxes, domains[e.key.0], e),
         v.provisions + multiset{e.key})
  }

  datatype Tally = Tally(view: View, created: nat, updated: nat)

  function CommitOne(c: Tally, e: Entry): Tally {
    if Creates(c.view, e) then Tally(UpsertView(c.view, e), c.created + 1, c.updated)
    else Tally(UpsertView(c.view, e), c.created, c.updated + 1)
  }

  function CommitAll(c: Tally, entries: seq<Entry>): Tally
    decreases |entries|
  {
    if entries == [] then c else CommitAll(CommitOne(c, entries[0]), entries[1..])
  }

  /** The two entries would not create one domain in two different ways. */
  predicate Compatible(domains: map<string, DomainView>, a: Entry, b: Entry) {
    a.key.0 == b.key.0 && a.key.0 !in domains ==> a.host == b.host && a.port == b.port
  }

  lemma DomainsCommute(domains: map<string, DomainView>, a: Entry, b: Entry)
    ensures Compatible(domains, a, b) <==>
      DomainsAfter(DomainsAfter(domains, a), b) == DomainsAfter(DomainsAfter(domains, b), a)
    ensures Compatible(domains, a, b) ==>
      DomainsAfter(DomainsAfter(domains, b), a)[a.key.0] == DomainsAfter(domains, a)[a.key.0]
  {
  }

  lemma CredentialsCommute(credentials: map<Key, CredentialView>, a: Entry, b: Entry)
    requires a.key != b.key
    ensures CredentialsAfter(CredentialsAfter(credentials, a), b)
      == CredentialsAfter(CredentialsAfter(credentials, b), a)
  {
  }

  lemma BoxesCommute(boxes: map<Key, BoxView>, da: DomainView, db: DomainView, a: Entry, b: Entry)
    requires a.key != b.key
    ensures BoxesAfter(BoxesAfter(boxes, da, a), db, b) == BoxesAfter(BoxesAfter(boxes, db, b), da, a)
  {
  }

  lemma CreatesUnaffected(v: View, a: Entry, b: Entry)
    requires a.key != b.key
    ensures Creates(UpsertView(v, a), b) == Creates(v, b)
  {
  }

  /** Upserts of two accounts commute exactly when they agree on a domain that both would create. */
  lemma {:induction false} UpsertsCommute(c: Tally, a: Entry, b: Entry)
    requires a.key != b.key
    ensures CommitOne(CommitOne(c, a), b) == CommitOne(CommitOne(c, b), a) <==> Compatible(c.view.domains, a, b)
  {
    var v := c.view;
    DomainsCommute(v.domains, a, b);
    DomainsCommute(v.domains, b, a);
    CreatesUnaffected(v, a, b);
    CreatesUnaffected(v, b, a);
    if Compatible(v.domains, a, b) {
      CredentialsCommute(v.credentials, a, b);
      BoxesCommute(v.boxes, DomainsAfter(v.domains, a)[a.key.0], DomainsAfter(v.domains, b)[b.key.0], a, b);
      assert v.provisions + multiset{a.key} + multiset{b.key} == v.provisions + multiset{b.key} + multiset{a.key};
    }
  }

  ghost predicate AllCompatible(entries: seq<Entry>) {
    forall i, j :: 0 <= i < |entries| && 0 <= j < |entries| && i != j ==>
      entries[i].key != entries[j].key && Compatible(map[], entries[i], entries[j])
  }

  /** Moving one entry to the front of a compatible list does not change the outcome. */
  lemma {:induction false} PullToFront(c: Tally, entries: seq<Entry>, k: nat)
    requires k < |entries| && AllCompatible(entries)
    ensures CommitAll(c, entries) == CommitAll(CommitOne(c, entries[k]), entries[..k] + entries[k + 1..])
    decreases k
  {
    if k == 0 {
      assert entries[..0] + entries[1..] == entries[1..];
    } else {
      var first, rest := entries[0], entries[1..];
      assert forall i :: 0 <= i < |rest| ==> rest[i] == entries[i + 1];
      PullToFront(CommitOne(c, first), rest, k - 1);
      assert rest[k - 1] == entries[k];
      assert Compatible(map[], first, entries[k]);
      UpsertsCommute(c, first, entries[k]);
      var moved := entries[..k] + entries[k + 1..];
      assert moved[1..] == rest[..k - 1] + rest[k..];
      assert moved[0] == first;
    }
  }

  lemma RemoveAt<T>(xs: seq<T>, k: nat)
    requires k < |xs|
    ensures multiset(xs[..k] + xs[k + 1..]) == multiset(xs) - multiset{xs[k]}
    ensures xs[k] in multiset(xs)
  {
    assert xs == xs[..k] + [xs[k]] + xs[k + 1..];
  }

  lemma SameElements<T>(xs: seq<T>, ys: seq<T>, x: T) returns (k: nat)
    requires multiset(xs) == multiset(ys) && x in xs
    ensures k < |ys| && ys[k] == x
  {
    assert x in multiset(ys);
    k :| k < |ys| && ys[k] == x;
  }

  /** Where a permutation holds the head of the other list; taking both out leaves permutations. */
  lemma MatchHead<T>(xs: seq<T>, ys: seq<T>) returns (k: nat)
    requires multiset(xs) == multiset(ys) && xs != []
    ensures k < |ys| && ys[k] == xs[0]
    ensures multiset(xs[1..]) == multiset(ys[..k] + ys[k + 1..])
  {
    k := SameElements(xs, ys, xs[0]);
    RemoveAt(xs, 0);
    RemoveAt(ys, k);
    assert xs[..0] + xs[1..] == xs[1..];
  }

  lemma CompatibleTail(xs: seq<Entry>)
    requires AllCompatible(xs) && xs != []
    ensures AllCompatible(xs[1..])
  {
  }

  /** Committing is independent of the order the database returns the rows in. */
  lemma {:induction false} CommitOrderIrrelevant(c: Tally, xs: seq<Entry>, ys: seq<Entry>)
    requires AllCompatible(xs) && multiset(xs) == multiset(ys)
    ensures CommitAll(c, xs) == CommitAll(c, ys)
    decreases |xs|
  {
    if xs == [] {
      assert |multiset(ys)| == 0;
    } else {
      var k := MatchHead(xs, ys);
      PermutationCompatible(xs, ys);
      PullToFront(c, ys, k);
      CompatibleTail(xs);
      CommitOrderIrrelevant(CommitOne(c, xs[0]), xs[1..], ys[..k] + ys[k + 1..]);
    }
  }

  lemma PermutationCompatible(xs: seq<Entry>, ys: seq<Entry>)
    requires AllCompatible(xs) && multiset(xs) == multiset(ys)
    ensures AllCompatible(ys)
  {
    forall i, j | 0 <= i < |ys| && 0 <= j < |ys| && i != j
      ensures ys[i].key != ys[j].key && Compatible(map[], ys[i], ys[j])
    {
      var a := SameElements(ys, xs, ys[i]);
      var b := SameElements(ys, xs, ys[j]);
      if a == b {
        TwiceMeansTwo(ys, i, j);
        OnceIfCompatible(xs, a);
        assert false;
      }
    }
  }

  lemma TwiceMeansTwo(ys: seq<Entry>, i: nat, j: nat)
    requires i < |ys| && j < |ys| && i != j && ys[i] == ys[j]
    ensures multiset(ys)[ys[i]] >= 2
  {
    var lo, hi := if i < j then i else j, if i < j then j else i;
    assert ys == ys[..lo] + [ys[lo]] + ys[lo + 1..hi] + [ys[hi]] + ys[hi + 1..];
  }

  lemma OnceIfCompatible(xs: seq<Entry>, a: nat)
    requires AllCompatible(xs) && a < |xs|
    ensures multiset(xs)[xs[a]] == 1
  {
    var x := xs[a];
    assert xs == xs[..a] + [x] + xs[a + 1..];
    assert x !in xs[..a] && x !in xs[a + 1..];
  }

  // --- Rows of a staged file -------------------------------------------------------------

  /** A staged row and whether the administrator ticked it. */
  datatype Line = Line(row: Staged, selected: bool)

  predicate Taken(l: Line) {
    l.selected && l.row.valid && l.row.match_ != DuplicateInFile
  }

  /** The arguments `commit_batch` passes for a row it does not skip. */
  function BatchEntry(t: Text, batch: nat, l: Line): Entry {
    EntryOf(t, l.row.raw, "", 993, 0, Some(batch))
  }

  function EntryOfLine(t: Text, batch: nat, l: Line): seq<Entry> {
    if Taken(l) then [BatchEntry(t, batch, l)] else []
  }

  function EntriesOf(t: Text, batch: nat, lines: seq<Line>): seq<Entry> {
    if lines == [] then []
    else EntryOfLine(t, batch, lines[0]) + EntriesOf(t, batch, lines[1..])
  }

  /** What staging establishes: no two unmarked rows share a folded key. */
  ghost predicate UnmarkedDistinct(t: Text, lines: seq<Line>) {
    forall i, j ::
      0 <= i < j < |lines| && lines[i].row.match_ != DuplicateInFile && lines[j].row.match_ != DuplicateInFile
      ==> FoldedKey(t, lines[i].row.raw) != FoldedKey(t, lines[j].row.raw)
  }

  lemma StagingLeavesDistinct(t: Text, passwords: map<Key, Option<string>>, rows: seq<Raw>, lines: seq<Line>)
    requires |lines| == |rows|
    requires forall i :: 0 <= i < |rows| ==> lines[i].row == StagedAs(t, passwords, rows, i)
    ensures UnmarkedDistinct(t, lines)
  {
  }

  lemma {:induction false} EntryHasLine(t: Text, batch: nat, lines: seq<Line>, e: Entry) returns (k: nat)
    requires e in EntriesOf(t, batch, lines)
    ensures k < |lines| && Taken(lines[k]) && e == BatchEntry(t, batch, lines[k])
    decreases |lines|
  {
    if Taken(lines[0]) && e == BatchEntry(t, batch, lines[0]) {
      k := 0;
    } else {
      var tail := EntryHasLine(t, batch, lines[1..], e);
      k := tail + 1;
    }
  }

  /** Rows a staged file lets through never meet on an account. */
  lemma {:induction false} StagedEntriesCompatible(t: Text, batch: nat, lines: seq<Line>)
    requires UnmarkedDistinct(t, lines)
    ensures AllCompatible(EntriesOf(t, batch, lines))
    decreases |lines|
  {
    if lines != [] {
      var rest := lines[1..];
      var tail := EntriesOf(t, batch, rest);
      assert forall i :: 0 <= i < |rest| ==> rest[i] == lines[i + 1];
      StagedEntriesCompatible(t, batch, rest);
      if Taken(lines[0]) {
        var e := BatchEntry(t, batch, lines[0]);
        forall k | 0 <= k < |tail|
          ensures e.key != tail[k].key && Compatible(map[], e, tail[k]) && Compatible(map[], tail[k], e)
        {
          var i := EntryHasLine(t, batch, rest, tail[k]);
          assert FoldedKey(t, lines[0].row.raw) != FoldedKey(t, lines[i + 1].row.raw);
        }
        var all := EntriesOf(t, batch, lines);
        assert all == [e] + tail;
      }
    }
  }

  lemma {:induction false} EntriesSplit(t: Text, batch: nat, xs: seq<Line>, ys: seq<Line>)
    ensures EntriesOf(t, batch, xs + ys) == EntriesOf(t, batch, xs) + EntriesOf(t, batch, ys)
    decreases |xs|
  {
    if xs == [] {
      assert xs + ys == ys;
    } else {
      EntriesSplit(t, batch, xs[1..], ys);
      assert (xs + ys)[1..] == xs[1..] + ys;
    }
  }

  lemma Regroup<T>(before: seq<T>, at: seq<T>, after: seq<T>)
    ensures multiset(before + (at + after)) == multiset(at) + multiset(before + after)
  {
  }

  lemma EntriesAround(t: Text, batch: nat, ys: seq<Line>, k: nat)
    requires k < |ys|
    ensures multiset(EntriesOf(t, batch, ys))
         == multiset(EntryOfLine(t, batch, ys[k])) + multiset(EntriesOf(t, batch, ys[..k] + ys[k + 1..]))
  {
    var before, after := ys[..k], ys[k + 1..];
    assert ys[k..][0] == ys[k] && ys[k..][1..] == after;
    assert EntriesOf(t, batch, ys[k..]) == EntryOfLine(t, batch, ys[k]) + EntriesOf(t, batch, after);
    EntriesSplit(t, batch, before, after);
    EntriesSplit(t, batch, before, ys[k..]);
    assert ys == before + ys[k..];
    Regroup(EntriesOf(t, batch, before), EntryOfLine(t, batch, ys[k]), EntriesOf(t, batch, after));
  }

  lemma {:induction false} EntriesPermute(t: Text, batch: nat, xs: seq<Line>, ys: seq<Line>)
    requires multiset(xs) == multiset(ys)
    ensures multiset(EntriesOf(t, batch, xs)) == multiset(EntriesOf(t, batch, ys))
    decreases |xs|
  {
    if xs == [] {
      assert |multiset(ys)| == 0;
    } else {
      var k := MatchHead(xs, ys);
      EntriesPermute(t, batch, xs[1..], ys[..k] + ys[k + 1..]);
      EntriesAround(t, batch, xs, 0);
      EntriesAround(t, batch, ys, k);
      assert xs[..0] + xs[1..] == xs[1..];
    }
  }

  /** A staged file leads to the same accounts and the same counts in whatever order its rows come back. */
  lemma {:induction false} RowOrderIrrelevant(t: Text, passwords: map<Key, Option<string>>, rows: seq<Raw>, batch: nat,
                           lines: seq<Line>, asReturned: seq<Line>, c: Tally)
    requires |lines| == |rows|
    requires forall i :: 0 <= i < |rows| ==> lines[i].row == StagedAs(t, passwords, rows, i)
    requires multiset(asReturned) == multiset(lines)
    ensures CommitAll(c, EntriesOf(t, batch, asReturned)) == CommitAll(c, EntriesOf(t, batch, lines))
  {
    StagingLeavesDistinct(t, passwords, rows, lines);
    StagedEntriesCompatible(t, batch, lines);
    EntriesPermute(t, batch, lines, asReturned);
    CommitOrderIrrelevant(c, EntriesOf(t, batch, lines), EntriesOf(t, batch, asReturned));
  }
}
