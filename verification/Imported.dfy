/** What a staged file says about its rows, and what a committed one leaves in the tables, account by account. */
module Imported {
  import opened Wrappers
  import opened Texts
  import opened Import

  // --- Staging --------------------------------------------------------------------------

  /** Two rows of one source domain whose usernames differ at most in case. */
  predicate SameAccount(t: Text, a: Raw, b: Raw) {
    && t.strip(t.lower(a.domain)) == t.strip(t.lower(b.domain))
    && t.lower(t.strip(a.username)) == t.lower(t.strip(b.username))
  }

  /** A row is a duplicate exactly if an earlier one is of the same account; the others are new, unchanged or updated
      as the database knows the account not at all, with that password, or with another or an unreadable one. A row
      is valid exactly if domain, username and password are there. */
  lemma StagedExactly(t: Text, passwords: map<Key, Option<string>>, rows: seq<Raw>, i: nat)
    requires i < |rows|
    ensures var row, staged := rows[i], StagedAs(t, passwords, rows, i);
      var key, repeated := (t.strip(t.lower(row.domain)), t.strip(row.username)),
                           exists j :: 0 <= j < i && SameAccount(t, rows[j], row);
      && staged.raw == row
      && (staged.match_ == DuplicateInFile <==> repeated)
      && (staged.match_ == New <==> !repeated && key !in passwords)
      && (staged.match_ == ExistingUnchanged <==>
          !repeated && key in passwords && passwords[key] == Some(row.password))
      && (staged.valid <==> key.0 != "" && key.1 != "" && row.password != "")
  {
    assert forall j :: 0 <= j < i ==>
      (SameAccount(t, rows[j], rows[i]) <==> FoldedKey(t, rows[j]) == FoldedKey(t, rows[i]));
  }

  // --- One upsert -------------------------------------------------------------------------

  /** Between two views: account k has this password now; what was there of domain, destination and mailbox is kept,
      what was not is made from the arguments; and there is one provision job more. */
  ghost predicate Landed(v: View, v': View, k: Key, password: string, destinationUser: string, domain: DomainView,
                         quota: int, batch: Option<nat>) {
    && k in v'.credentials && k in v'.boxes && k.0 in v'.domains
    && v'.domains[k.0] == (if k.0 in v.domains then v.domains[k.0] else domain)
    && v'.credentials[k].password == password
    && (if k in v.credentials
        then v'.credentials[k] == v.credentials[k].(password := password)
        else v'.credentials[k] == CredentialView(password, destinationUser, batch))
    && v'.boxes[k] == (if k in v.boxes then v.boxes[k]
                       else BoxView(if '@' in k.1 then k.1 else k.1 + "@" + k.0,
                                    destinationUser + "@" + v'.domains[k.0].destination,
                                    if quota != 0 then quota else v'.domains[k.0].defaultQuota))
    && v'.provisions[k] == v.provisions[k] + 1
  }

  ghost predicate Untouched(v: View, v': View, k: Key) {
    && (k in v'.credentials <==> k in v.credentials) && (k in v'.boxes <==> k in v.boxes)
    && (k in v.credentials ==> v'.credentials[k] == v.credentials[k])
    && (k in v.boxes ==> v'.boxes[k] == v.boxes[k])
    && v'.provisions[k] == v.provisions[k]
  }

  /** Exactly what the arguments of one upsert do to the accounts. */
  lemma UpsertExactly(t: Text, v: View, raw: Raw, host: string, port: int, quota: int, batch: Option<nat>, k: Key)
    ensures var key := (t.strip(t.lower(raw.domain)), t.strip(raw.username));
      var destinationUser := t.strip(if raw.destination != "" then raw.destination else Before(key.1, '@'));
      var domain := DomainView(key.0, if host != "" then host else key.0, port, 0);
      var v' := UpsertView(v, EntryOf(t, raw, host, port, quota, batch));
      && (if k == key then Landed(v, v', k, raw.password, destinationUser, domain, quota, batch)
          else Untouched(v, v', k))
      && v'.domains.Keys == v.domains.Keys + {key.0}
      && forall d :: d in v.domains ==> v'.domains[d] == v.domains[d]
  {
  }

  // --- A committed file ---------------------------------------------------------------------

  /** What an imported row asks for, whatever the domain's servers are. */
  ghost predicate LandedEntry(v: View, v': View, e: Entry) {
    Landed(v, v', e.key, e.password, e.destinationUser, DomainView(e.key.0, e.host, e.port, 0), e.quota, e.batch)
  }

  ghost predicate HasKey(entries: seq<Entry>, k: Key) {
    exists i :: 0 <= i < |entries| && entries[i].key == k
  }

  /** Rows of a file never say anything about servers. */
  predicate Defaults(e: Entry) {
    e.host == e.key.0 && e.port == 993
  }

  lemma OneEntry(c: Tally, e: Entry, k: Key)
    ensures var v' := CommitOne(c, e).view;
      && v' == UpsertView(c.view, e)
      && (if k == e.key then LandedEntry(c.view, v', e) else Untouched(c.view, v', k))
  {
  }

  lemma {:induction false} OthersUntouched(c: Tally, entries: seq<Entry>, k: Key)
    requires !HasKey(entries, k)
    ensures Untouched(c.view, CommitAll(c, entries).view, k)
    ensures forall d :: d in c.view.domains ==>
      d in CommitAll(c, entries).view.domains && CommitAll(c, entries).view.domains[d] == c.view.domains[d]
    decreases |entries|
  {
    if entries != [] {
      OneEntry(c, entries[0], k);
      assert entries[0].key != k;
      assert forall i :: 0 <= i < |entries| - 1 ==> entries[1..][i] == entries[i + 1];
      OthersUntouched(CommitOne(c, entries[0]), entries[1..], k);
    }
  }

  lemma LandedThenUntouched(v: View, v1: View, v2: View, e: Entry)
    requires LandedEntry(v, v1, e) && Untouched(v1, v2, e.key)
    requires e.key.0 in v2.domains && v2.domains[e.key.0] == v1.domains[e.key.0]
    ensures LandedEntry(v, v2, e)
  {
  }

  lemma UntouchedThenLanded(v: View, v1: View, v2: View, e: Entry)
    requires Untouched(v, v1, e.key) && LandedEntry(v1, v2, e)
    requires e.key.0 in v.domains ==> e.key.0 in v1.domains && v1.domains[e.key.0] == v.domains[e.key.0]
    requires e.key.0 !in v.domains && e.key.0 in v1.domains ==>
      v1.domains[e.key.0] == DomainView(e.key.0, e.host, e.port, 0)
    ensures LandedEntry(v, v2, e)
  {
  }

  lemma {:induction false} EntryLands(c: Tally, entries: seq<Entry>, k: nat)
    requires k < |entries| && AllCompatible(entries) && forall i :: 0 <= i < |entries| ==> Defaults(entries[i])
    ensures LandedEntry(c.view, CommitAll(c, entries).view, entries[k])
    decreases |entries|
  {
    var c1, rest := CommitOne(c, entries[0]), entries[1..];
    assert forall i :: 0 <= i < |rest| ==> rest[i] == entries[i + 1];
    OneEntry(c, entries[0], entries[k].key);
    if k == 0 {
      assert !HasKey(rest, entries[0].key);
      OthersUntouched(c1, rest, entries[0].key);
      LandedThenUntouched(c.view, c1.view, CommitAll(c1, rest).view, entries[0]);
    } else {
      EntryLands(c1, rest, k - 1);
      assert Defaults(entries[0]) && Defaults(entries[k]);
      UntouchedThenLanded(c.view, c1.view, CommitAll(c1, rest).view, entries[k]);
    }
  }

  /** How many of the entries are of accounts without credentials or without a mailbox. */
  function Incomplete(v: View, entries: seq<Entry>): nat {
    if entries == [] then 0
    else
      (if entries[0].key in v.credentials && entries[0].key in v.boxes then 0 else 1) + Incomplete(v, entries[1..])
  }

  lemma {:induction false} IncompleteElsewhere(v: View, v': View, entries: seq<Entry>)
    requires forall i :: 0 <= i < |entries| ==> Untouched(v, v', entries[i].key)
    ensures Incomplete(v', entries) == Incomplete(v, entries)
    decreases |entries|
  {
    if entries != [] {
      assert Untouched(v, v', entries[0].key);
      assert forall i :: 0 <= i < |entries| - 1 ==> entries[1..][i] == entries[i + 1];
      IncompleteElsewhere(v, v', entries[1..]);
    }
  }

  /** Created are the entries of accounts that were not complete before the commit, updated the others. */
  lemma {:induction false} CountsExactly(c: Tally, entries: seq<Entry>)
    requires AllCompatible(entries)
    ensures CommitAll(c, entries).created == c.created + Incomplete(c.view, entries)
    ensures CommitAll(c, entries).updated == c.updated + |entries| - Incomplete(c.view, entries)
    decreases |entries|
  {
    if entries != [] {
      var c1, rest := CommitOne(c, entries[0]), entries[1..];
      assert forall i :: 0 <= i < |rest| ==> rest[i] == entries[i + 1];
      forall i | 0 <= i < |rest| ensures Untouched(c.view, c1.view, rest[i].key) {
        OneEntry(c, entries[0], rest[i].key);
      }
      IncompleteElsewhere(c.view, c1.view, rest);
      CountsExactly(c1, rest);
    }
  }

  /** The row is ticked, valid and no duplicate. */
  predicate Chosen(l: Line) {
    l.selected && l.row.valid && l.row.match_ != DuplicateInFile
  }

  /** Line i is chosen and of account k. */
  predicate ChosenFor(t: Text, lines: seq<Line>, i: int, k: Key) {
    && 0 <= i < |lines| && Chosen(lines[i])
    && t.strip(t.lower(lines[i].row.raw.domain)) == k.0 && t.strip(lines[i].row.raw.username) == k.1
  }

  lemma {:induction false} ChosenIsEntry(t: Text, batch: nat, lines: seq<Line>, i: nat) returns (k: nat)
    requires i < |lines| && Chosen(lines[i])
    ensures k < |EntriesOf(t, batch, lines)| && EntriesOf(t, batch, lines)[k] == BatchEntry(t, batch, lines[i])
    decreases |lines|
  {
    if i == 0 {
      k := 0;
    } else {
      var later := ChosenIsEntry(t, batch, lines[1..], i - 1);
      k := later + |EntryOfLine(t, batch, lines[0])|;
    }
  }

  lemma EntriesHaveDefaults(t: Text, batch: nat, lines: seq<Line>)
    ensures forall k :: 0 <= k < |EntriesOf(t, batch, lines)| ==> Defaults(EntriesOf(t, batch, lines)[k])
  {
    var entries := EntriesOf(t, batch, lines);
    forall k | 0 <= k < |entries| ensures Defaults(entries[k]) {
      var i := EntryHasLine(t, batch, lines, entries[k]);
    }
  }

  /** After the commit of a staged file: an account with a chosen row has that row's password; what the tables did not
      have of it is made from the row, with the port 993 and the domain as its own server; and it has one more
      provision job. Nothing of any other account has changed. */
  lemma CommittedExactly(t: Text, v: View, batch: nat, lines: seq<Line>, k: Key, i: int)
    requires UnmarkedDistinct(t, lines)
    ensures var v' := CommitAll(Tally(v, 0, 0), EntriesOf(t, batch, lines)).view;
      && (ChosenFor(t, lines, i, k) ==>
          var raw := lines[i].row.raw;
          var destinationUser := t.strip(if raw.destination != "" then raw.destination else Before(k.1, '@'));
          Landed(v, v', k, raw.password, destinationUser, DomainView(k.0, k.0, 993, 0), 0, Some(batch)))
      && ((forall j :: !ChosenFor(t, lines, j, k)) ==> Untouched(v, v', k))
  {
    var entries, c := EntriesOf(t, batch, lines), Tally(v, 0, 0);
    StagedEntriesCompatible(t, batch, lines);
    EntriesHaveDefaults(t, batch, lines);
    if ChosenFor(t, lines, i, k) {
      var n := ChosenIsEntry(t, batch, lines, i);
      EntryLands(c, entries, n);
    }
    if forall j :: !ChosenFor(t, lines, j, k) {
      forall n | 0 <= n < |entries| ensures entries[n].key != k {
        var j := EntryHasLine(t, batch, lines, entries[n]);
        assert !ChosenFor(t, lines, j, k);
      }
      OthersUntouched(c, entries, k);
    }
  }
}
