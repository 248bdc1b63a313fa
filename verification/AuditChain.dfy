/** The audit log's hash chain; VM1 and VM2 run the same algorithm over different payload fields `P`. */
module AuditChain {
  import opened Wrappers

  const GENESIS := "genesis"

  /** SHA-256 in hex and the canonical JSON of a payload with its `prev_hash`, both uninterpreted. */
  datatype Scheme<!P(!new, ==)> = Scheme(hash: string -> string, canon: (P, string) -> string) {
    ghost predicate Valid() {
      && (forall x :: |hash(x)| == 64 && '{' !in hash(x))
      && (forall p, c :: |canon(p, c)| > 0 && canon(p, c)[0] == '{')
      && (forall p, c, q, d :: canon(p, c) == canon(q, d) ==> p == q && c == d)
    }
  }

  datatype Row<P> = Row(id: nat, fields: P, prevHash: string, rowHash: string)

  /** The hash a row at position i must link to. */
  function LinkAt<P>(rows: seq<Row<P>>, i: nat): string
    requires i <= |rows|
  {
    if i == 0 then GENESIS else rows[i - 1].rowHash
  }

  /** The string hashed for the row at position i. */
  function Preimage<P(!new)>(s: Scheme<P>, rows: seq<Row<P>>, i: nat): string
    requires i < |rows|
  {
    LinkAt(rows, i) + s.canon(rows[i].fields, LinkAt(rows, i))
  }

  predicate Good<P(!new)>(s: Scheme<P>, rows: seq<Row<P>>, i: nat)
    requires i < |rows|
  {
    rows[i].prevHash == LinkAt(rows, i) && rows[i].rowHash == s.hash(Preimage(s, rows, i))
  }

  ghost predicate Verifies<P(!new)>(s: Scheme<P>, rows: seq<Row<P>>) {
    forall i :: 0 <= i < |rows| ==> Good(s, rows, i)
  }

  // --- verify_chain ------------------------------------------------------------------

  /** Returns the id of exactly the first row whose link or hash is wrong. */
  method VerifyChain<P(!new, ==)>(s: Scheme<P>, rows: seq<Row<P>>) returns (ok: bool, broken: Option<nat>)
    ensures ok <==> Verifies(s, rows)
    ensures ok ==> broken == None
    ensures !ok ==> exists i ::
      && 0 <= i < |rows| && !Good(s, rows, i) && broken == Some(rows[i].id)
      && forall j :: 0 <= j < i ==> Good(s, rows, j)
  {
    var prevHash := GENESIS;
    for i := 0 to |rows|
      invariant prevHash == LinkAt(rows, i)
      invariant forall j :: 0 <= j < i ==> Good(s, rows, j)
    {
      var row := rows[i];
      var expected := s.hash(prevHash + s.canon(row.fields, prevHash));
      if row.prevHash != prevHash || row.rowHash != expected {
        assert !Good(s, rows, i);
        return false, Some(row.id);
      }
      prevHash := row.rowHash;
    }
    return true, None;
  }

  // --- record under the advisory lock ---------------------------------------------------

  function NextRow<P(!new)>(s: Scheme<P>, rows: seq<Row<P>>, id: nat, fields: P): Row<P> {
    var prev := LinkAt(rows, |rows|);
    Row(id, fields, prev, s.hash(prev + s.canon(fields, prev)))
  }

  lemma RecordExtends<P(!new)>(s: Scheme<P>, rows: seq<Row<P>>, id: nat, fields: P)
    requires Verifies(s, rows)
    ensures Verifies(s, rows + [NextRow(s, rows, id, fields)])
  {
    var rows' := rows + [NextRow(s, rows, id, fields)];
    forall i | 0 <= i < |rows'| ensures Good(s, rows', i) {
      if i < |rows| {
        assert Good(s, rows, i);
        assert LinkAt(rows', i) == LinkAt(rows, i);
      }
    }
  }

  /** `record`: appends to the caller's transaction, linking to the last row it sees. */
  class AuditTable<P(!new, ==)> {
    var rows: seq<Row<P>>
    var nextId: nat

    constructor ()
      ensures rows == [] && nextId == 0
    {
      rows, nextId := [], 0;
    }

    method Record(s: Scheme<P>, fields: P) returns (entry: Row<P>)
      modifies this
      ensures entry.id == old(nextId) && entry.fields == fields
      ensures entry.prevHash == if old(rows) == [] then "genesis" else old(rows)[|old(rows)| - 1].rowHash
      ensures entry.rowHash == s.hash(entry.prevHash + s.canon(fields, entry.prevHash))
      ensures entry == NextRow(s, old(rows), old(nextId), fields)
      ensures rows == old(rows) + [entry] && nextId == old(nextId) + 1
      ensures old(Verifies(s, rows)) ==> Verifies(s, rows)
    {
      var prevHash := if rows == [] then GENESIS else rows[|rows| - 1].rowHash;
      var canonical := s.canon(fields, prevHash);
      entry := Row(nextId, fields, prevHash, s.hash(prevHash + canonical));
      RecordExtendsIf(s, rows, nextId, fields);
      rows, nextId := rows + [entry], nextId + 1;
    }
  }

  lemma RecordExtendsIf<P(!new)>(s: Scheme<P>, rows: seq<Row<P>>, id: nat, fields: P)
    ensures Verifies(s, rows) ==> Verifies(s, rows + [NextRow(s, rows, id, fields)])
  {
    if Verifies(s, rows) {
      RecordExtends(s, rows, id, fields);
    }
  }

  /** The table with the transaction-scoped lock: `draft` are the holder's uncommitted rows. */
  datatype Log<P> = Log(committed: seq<Row<P>>, draft: seq<Row<P>>, holder: Option<nat>, nextId: nat)

  datatype Act<P> =
    | Record(txn: nat, fields: P)
    | Commit(txn: nat)
    | Rollback(txn: nat)

  /** A second transaction waits at the lock: its `record` is not enabled. */
  predicate Allowed<P>(log: Log<P>, a: Act<P>) {
    match a
    case Record(txn, _) => log.holder.None? || log.holder.value == txn
    case Commit(_) => true
    case Rollback(_) => true
  }

  function Perform<P(!new)>(s: Scheme<P>, log: Log<P>, a: Act<P>): Log<P> {
    match a
    case Record(txn, fields) =>
      log.(draft := log.draft + [NextRow(s, log.committed + log.draft, log.nextId, fields)],
           holder := Some(txn), nextId := log.nextId + 1)
    case Commit(txn) =>
      if log.holder == Some(txn) then log.(committed := log.committed + log.draft, draft := [], holder := None) else log
    case Rollback(txn) =>
      if log.holder == Some(txn) then log.(draft := [], holder := None) else log
  }

  ghost predicate Permitted<P(!new)>(s: Scheme<P>, log: Log<P>, acts: seq<Act<P>>)
    decreases |acts|
  {
    acts == [] || (Allowed(log, acts[0]) && Permitted(s, Perform(s, log, acts[0]), acts[1..]))
  }

  function Outcome<P(!new)>(s: Scheme<P>, log: Log<P>, acts: seq<Act<P>>): Log<P>
    decreases |acts|
  {
    if acts == [] then log else Outcome(s, Perform(s, log, acts[0]), acts[1..])
  }

  predicate Increasing<P>(rows: seq<Row<P>>) {
    forall i, j :: 0 <= i < j < |rows| ==> rows[i].id < rows[j].id
  }

  ghost predicate LogInv<P(!new)>(s: Scheme<P>, log: Log<P>) {
    && Verifies(s, log.committed + log.draft) && Increasing(log.committed + log.draft)
    && (forall i :: 0 <= i < |log.committed + log.draft| ==> (log.committed + log.draft)[i].id < log.nextId)
    && (log.holder.None? ==> log.draft == [])
  }

  lemma PrefixVerifies<P(!new)>(s: Scheme<P>, rows: seq<Row<P>>, n: nat)
    requires Verifies(s, rows) && n <= |rows|
    ensures Verifies(s, rows[..n])
  {
    forall i | 0 <= i < n ensures Good(s, rows[..n], i) {
      assert Good(s, rows, i);
      assert LinkAt(rows[..n], i) == LinkAt(rows, i);
    }
  }

  lemma PerformKeeps<P(!new)>(s: Scheme<P>, log: Log<P>, a: Act<P>)
    requires LogInv(s, log) && Allowed(log, a)
    ensures LogInv(s, Perform(s, log, a))
  {
    var all := log.committed + log.draft;
    var log' := Perform(s, log, a);
    match a {
      case Record(_, fields) =>
        RecordExtends(s, all, log.nextId, fields);
        assert log'.committed + log'.draft == all + [NextRow(s, all, log.nextId, fields)];
      case Commit(_) =>
        assert log'.committed + log'.draft == all;
      case Rollback(_) =>
        PrefixVerifies(s, all, |log.committed|);
        assert log'.committed + log'.draft == if log.holder == Some(a.txn) then all[..|log.committed|] else all;
    }
  }

  /** Any interleaving of lock-serialised writers, with commits and rollbacks, leaves a table that verifies,
      in id order. */
  lemma {:induction false} WritersKeepChain<P(!new)>(s: Scheme<P>, log: Log<P>, acts: seq<Act<P>>)
    requires LogInv(s, log) && Permitted(s, log, acts)
    ensures Verifies(s, Outcome(s, log, acts).committed) && Increasing(Outcome(s, log, acts).committed)
    decreases |acts|
  {
    if acts == [] {
      PrefixVerifies(s, log.committed + log.draft, |log.committed|);
      assert (log.committed + log.draft)[..|log.committed|] == log.committed;
      assert forall i :: 0 <= i < |log.committed| ==> log.committed[i] == (log.committed + log.draft)[i];
    } else {
      PerformKeeps(s, log, acts[0]);
      WritersKeepChain(s, Perform(s, log, acts[0]), acts[1..]);
    }
  }

  function Records<P>(txn: nat, fields: seq<P>): seq<Act<P>> {
    seq(|fields|, i requires 0 <= i < |fields| => Act.Record(txn, fields[i]))
  }

  /** The new rows are these, in order, numbered on. */
  ghost predicate Appended<P>(before: seq<Row<P>>, after: seq<Row<P>>, fields: seq<P>, nextId: nat) {
    && |after| == |before| + |fields| && after[..|before|] == before
    && forall i :: 0 <= i < |fields| ==>
      after[|before| + i].fields == fields[i] && after[|before| + i].id == nextId + i
  }

  lemma {:induction false} RecordsDraft<P(!new)>(s: Scheme<P>, log: Log<P>, txn: nat, fields: seq<P>, last: Act<P>)
    requires (log.holder.None? || log.holder == Some(txn)) && fields != [] && !last.Record?
    ensures Permitted(s, log, Records(txn, fields) + [last])
    ensures var log' := Outcome(s, log, Records(txn, fields));
      && log'.committed == log.committed && log'.holder == Some(txn) && log'.nextId == log.nextId + |fields|
      && Appended(log.draft, log'.draft, fields, log.nextId)
      && Outcome(s, log, Records(txn, fields) + [last]) == Perform(s, log', last)
    decreases |fields|
  {
    var acts := Records(txn, fields);
    var log1 := Perform(s, log, acts[0]);
    assert acts[1..] == Records(txn, fields[1..]);
    assert (acts + [last])[1..] == acts[1..] + [last];
    if |fields| == 1 {
      assert acts[1..] == [] && [] + [last] == [last];
      assert Outcome(s, log1, [last]) == Outcome(s, Perform(s, log1, last), [last][1..]);
    } else {
      RecordsDraft(s, log1, txn, fields[1..], last);
      AppendedOneMore(log.draft, log1.draft, Outcome(s, log, acts).draft, fields, log.nextId);
    }
  }

  lemma AppendedOneMore<P>(before: seq<Row<P>>, one: seq<Row<P>>, after: seq<Row<P>>, fields: seq<P>, nextId: nat)
    requires fields != [] && Appended(before, one, fields[..1], nextId) && Appended(one, after, fields[1..], nextId + 1)
    ensures Appended(before, after, fields, nextId)
  {
    assert after[..|before|] == one[..|before|];
    forall i | 0 <= i < |fields|
      ensures after[|before| + i].fields == fields[i] && after[|before| + i].id == nextId + i
    {
      if i == 0 {
        assert one[|before| + 0] == after[..|one|][|before|];
      } else {
        assert after[|one| + (i - 1)].fields == fields[1..][i - 1];
      }
    }
  }

  /** What a transaction records is in the table once it commits, whole and in order, and nothing of it if it rolls
      back; either way the lock is free again. */
  lemma TransactionEnds<P(!new)>(s: Scheme<P>, log: Log<P>, txn: nat, fields: seq<P>)
    requires log.holder.None? && log.draft == [] && fields != []
    ensures Permitted(s, log, Records(txn, fields) + [Commit(txn)])
    ensures Permitted(s, log, Records(txn, fields) + [Rollback(txn)])
    ensures var done := Outcome(s, log, Records(txn, fields) + [Commit(txn)]);
      Appended(log.committed, done.committed, fields, log.nextId) && done.draft == [] && done.holder.None?
    ensures var undone := Outcome(s, log, Records(txn, fields) + [Rollback(txn)]);
      undone.committed == log.committed && undone.draft == [] && undone.holder.None?
  {
    RecordsDraft(s, log, txn, fields, Commit(txn));
    RecordsDraft(s, log, txn, fields, Rollback(txn));
  }

  /** While one transaction holds the lock, another can record nothing, and its end changes nothing. */
  lemma LockHeld<P(!new)>(s: Scheme<P>, log: Log<P>, a: Act<P>)
    requires log.holder.Some? && a.txn != log.holder.value
    ensures if a.Record? then !Allowed(log, a) else Allowed(log, a) && Perform(s, log, a) == log
  {
  }

  /** Why the lock is needed: two writers that both read the same last row leave a verifying table exactly
      when the first writer's hash happens to equal the link it was computed from. */
  lemma UnserialisedWriters<P(!new)>(s: Scheme<P>, rows: seq<Row<P>>, id: nat, f: P, g: P)
    requires Verifies(s, rows)
    ensures var first, second := NextRow(s, rows, id, f), NextRow(s, rows, id + 1, g);
            Verifies(s, rows + [first, second]) <==> first.rowHash == LinkAt(rows, |rows|)
    ensures s.Valid() && rows == [] ==> !Verifies(s, [NextRow(s, rows, id, f), NextRow(s, rows, id + 1, g)])
  {
    var first, second := NextRow(s, rows, id, f), NextRow(s, rows, id + 1, g);
    var all := rows + [first, second];
    RecordExtends(s, rows, id, f);
    RecordExtends(s, rows + [first], id + 1, g);
    assert rows + [first] + [second] == all;
    assert LinkAt(all, |rows| + 1) == first.rowHash;
    if Verifies(s, all) {
      assert Good(s, all, |rows| + 1);
    }
    if rows == [] {
      assert all == [first, second];
    }
  }

  // --- What verification cannot miss -----------------------------------------------------

  /** Two different strings that were hashed in the two tables and collide. */
  ghost predicate Collision<P(!new)>(s: Scheme<P>, a: seq<Row<P>>, b: seq<Row<P>>) {
    exists i, j :: 0 <= i < |a| && 0 <= j < |b| &&
      Preimage(s, a, i) != Preimage(s, b, j) && s.hash(Preimage(s, a, i)) == s.hash(Preimage(s, b, j))
  }

  predicate SameRow<P(==)>(r: Row<P>, t: Row<P>) {
    r.fields == t.fields && r.prevHash == t.prevHash && r.rowHash == t.rowHash
  }

  /** `prev_hash + canonical` splits in one way only: the first brace. */
  lemma UniqueDecoding(prev: string, canon: string, prev': string, canon': string)
    requires '{' !in prev && '{' !in prev'
    requires |canon| > 0 && canon[0] == '{' && |canon'| > 0 && canon'[0] == '{'
    requires prev + canon == prev' + canon'
    ensures prev == prev' && canon == canon'
  {
    var whole := prev + canon;
    assert whole[|prev|] == '{' && whole[|prev'|] == '{';
    assert forall k :: 0 <= k < |prev| ==> whole[k] == prev[k];
    assert forall k :: 0 <= k < |prev'| ==> whole[k] == prev'[k];
    assert prev == whole[..|prev|] && prev' == whole[..|prev'|];
    assert canon == whole[|prev|..] && canon' == whole[|prev'|..];
  }

  lemma LinkHasNoBrace<P(!new)>(s: Scheme<P>, rows: seq<Row<P>>, i: nat)
    requires s.Valid() && Verifies(s, rows) && i <= |rows|
    ensures '{' !in LinkAt(rows, i)
    ensures |LinkAt(rows, i)| == 64 <==> i > 0
  {
    if i > 0 {
      assert Good(s, rows, i - 1);
    }
  }

  lemma RowsAgree<P(!new)>(s: Scheme<P>, a: seq<Row<P>>, b: seq<Row<P>>, i: nat, j: nat)
    requires s.Valid() && Verifies(s, a) && Verifies(s, b) && i < |a| && j < |b|
    requires Preimage(s, a, i) == Preimage(s, b, j)
    ensures SameRow(a[i], b[j]) && LinkAt(a, i) == LinkAt(b, j)
  {
    LinkHasNoBrace(s, a, i);
    LinkHasNoBrace(s, b, j);
    assert Good(s, a, i) && Good(s, b, j);
    UniqueDecoding(LinkAt(a, i), s.canon(a[i].fields, LinkAt(a, i)), LinkAt(b, j), s.canon(b[j].fields, LinkAt(b, j)));
  }

  /** If row i of one verifying table and row j of another carry the same hash, then either SHA-256 has
      collided on the tables' own strings, or i == j and the two tables agree on everything up to there. */
  lemma {:induction false} SameHashSameHistory<P(!new)>(s: Scheme<P>, a: seq<Row<P>>, b: seq<Row<P>>, i: nat, j: nat)
    requires s.Valid() && Verifies(s, a) && Verifies(s, b) && i < |a| && j < |b|
    requires a[i].rowHash == b[j].rowHash
    ensures Collision(s, a, b) || (i == j && forall k :: 0 <= k <= i ==> SameRow(a[k], b[k]))
    decreases i
  {
    assert Good(s, a, i) && Good(s, b, j);
    if Preimage(s, a, i) != Preimage(s, b, j) {
      assert Collision(s, a, b);
    } else {
      RowsAgree(s, a, b, i, j);
      LinkHasNoBrace(s, a, i);
      LinkHasNoBrace(s, b, j);
      if i > 0 && j > 0 {
        SameHashSameHistory(s, a, b, i - 1, j - 1);
      }
    }
  }

  /** Two verifying tables that end in the same hash are the same table, ids aside, unless SHA-256 collides:
      no row can be changed, inserted, reordered or removed from the middle unseen. */
  lemma OnlyTheTailCanGo<P(!new)>(s: Scheme<P>, a: seq<Row<P>>, b: seq<Row<P>>)
    requires s.Valid() && Verifies(s, a) && Verifies(s, b) && a != [] && b != []
    requires a[|a| - 1].rowHash == b[|b| - 1].rowHash
    ensures Collision(s, a, b) || (|a| == |b| && forall k :: 0 <= k < |a| ==> SameRow(a[k], b[k]))
  {
    SameHashSameHistory(s, a, b, |a| - 1, |b| - 1);
  }
}
