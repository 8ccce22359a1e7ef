/** The balance and transaction tables and their guarded writes
    (database/balance.go:867-1054, database/transaction.go:44-367). */
module Storage {
  import opened Wrappers
  import opened Ledger

  datatype Versioned = Versioned(amounts: Amounts, version: int)
  type Table = map<Id, Versioned>

  datatype Store = Store(rows: seq<Txn>, balances: Table)

  /** One balance as a writer wants it stored, with the version it was read at. */
  datatype Write = Write(id: Id, amounts: Amounts, version: int)

  predicate Current(table: Table, w: Write) {
    w.id in table && table[w.id].version == w.version
  }

  predicate AllCurrent(table: Table, ws: seq<Write>) {
    forall i | 0 <= i < |ws| :: Current(table, ws[i])
  }

  predicate DistinctIds(ws: seq<Write>) {
    forall i, j | 0 <= i < j < |ws| :: ws[i].id != ws[j].id
  }

  /** UPDATE ... WHERE version = expected, for one row. */
  function WrittenOne(table: Table, w: Write): Table {
    if Current(table, w) then table[w.id := Versioned(w.amounts, w.version + 1)] else table
  }

  function Written(table: Table, ws: seq<Write>): Table {
    if ws == [] then table else Written(WrittenOne(table, ws[0]), ws[1..])
  }

  /** Every write finds the row at its expected version when its turn comes. */
  predicate Applicable(table: Table, ws: seq<Write>) {
    ws == [] || (Current(table, ws[0]) && Applicable(WrittenOne(table, ws[0]), ws[1..]))
  }

  predicate HasReference(rows: seq<Txn>, reference: string) {
    exists i | 0 <= i < |rows| :: rows[i].reference == reference
  }

  /** The unique index on the reference column. */
  predicate UniqueReferences(rows: seq<Txn>) {
    forall i, j | 0 <= i < j < |rows| :: rows[i].reference != rows[j].reference
  }

  predicate DistinctRows(rows: seq<Txn>) {
    forall i, j | 0 <= i < j < |rows| :: rows[i].id != rows[j].id
  }

  /** What one database transaction writing `ws` and inserting `fresh` does to the store. */
  function Recorded(store: Store, ws: seq<Write>, added: seq<Txn>): Result<Store, Error> {
    if !Applicable(store.balances, ws) then Err(VersionConflict)
    else if !UniqueReferences(store.rows + added) then Err(DuplicateReference)
    else Ok(Store(store.rows + added, Written(store.balances, ws)))
  }

  /** A database transaction either takes the store where `spec` says or leaves it alone. */
  predicate Outcome(spec: Result<Store, Error>, before: Store, after: Store, r: Result<(), Error>) {
    if spec.Ok? then r.Ok? && after == spec.value else r == Err(spec.error) && after == before
  }

  // ---- chunks -----------------------------------------------------------------------

  lemma {:induction false} WrittenElsewhere(table: Table, ws: seq<Write>, id: Id)
    requires forall i | 0 <= i < |ws| :: ws[i].id != id
    ensures id in Written(table, ws) <==> id in table
    ensures id in table ==> Written(table, ws)[id] == table[id]
  {
    if ws != [] {
      WrittenElsewhere(WrittenOne(table, ws[0]), ws[1..], id);
    }
  }

  /** Writing distinct rows in sequence is one simultaneous guarded update. */
  lemma {:induction false} WrittenAt(table: Table, ws: seq<Write>, k: nat)
    requires DistinctIds(ws) && k < |ws|
    ensures Written(table, ws).Keys == table.Keys
    ensures Current(table, ws[k]) ==>
      Written(table, ws)[ws[k].id] == Versioned(ws[k].amounts, ws[k].version + 1)
  {
    var rest := WrittenOne(table, ws[0]);
    if k == 0 {
      WrittenElsewhere(rest, ws[1..], ws[0].id);
      WrittenKeys(table, ws);
    } else {
      assert ws[1..][k - 1] == ws[k] && ws[k].id != ws[0].id;
      WrittenAt(rest, ws[1..], k - 1);
    }
  }

  lemma {:induction false} WrittenKeys(table: Table, ws: seq<Write>)
    ensures Written(table, ws).Keys == table.Keys
  {
    if ws != [] {
      WrittenKeys(WrittenOne(table, ws[0]), ws[1..]);
      assert WrittenOne(table, ws[0]).Keys == table.Keys;
    }
  }

  lemma {:induction false} ApplicableIsCurrent(table: Table, ws: seq<Write>)
    requires DistinctIds(ws)
    ensures Applicable(table, ws) <==> AllCurrent(table, ws)
  {
    if ws != [] {
      var rest := WrittenOne(table, ws[0]);
      ApplicableIsCurrent(rest, ws[1..]);
      forall k | 1 <= k < |ws|
        ensures Current(rest, ws[1..][k - 1]) <==> Current(table, ws[k])
      {
        assert ws[k].id != ws[0].id;
      }
      if AllCurrent(table, ws) {
        assert AllCurrent(rest, ws[1..]);
      } else if Current(table, ws[0]) {
        var k :| 0 <= k < |ws| && !Current(table, ws[k]);
        assert !Current(rest, ws[1..][k - 1]);
      }
    }
  }

  /** Splitting a set of writes into chunks changes neither its outcome nor its guard. */
  lemma {:induction false} ChunksCompose(table: Table, a: seq<Write>, b: seq<Write>)
    ensures Written(table, a + b) == Written(Written(table, a), b)
    ensures Applicable(table, a + b) <==> Applicable(table, a) && Applicable(Written(table, a), b)
  {
    if a == [] {
      assert a + b == b;
    } else {
      assert (a + b)[0] == a[0] && (a + b)[1..] == a[1..] + b;
      ChunksCompose(WrittenOne(table, a[0]), a[1..], b);
    }
  }

  lemma {:induction false} ChunkStep(table: Table, ws: seq<Write>, start: nat, end: nat)
    requires start <= end <= |ws|
    ensures Written(table, ws[..end]) == Written(Written(table, ws[..start]), ws[start..end])
    ensures Applicable(table, ws[..end]) <==>
      Applicable(table, ws[..start]) && Applicable(Written(table, ws[..start]), ws[start..end])
    ensures Applicable(table, ws) ==> Applicable(table, ws[..end])
  {
    assert ws[..end] == ws[..start] + ws[start..end];
    ChunksCompose(table, ws[..start], ws[start..end]);
    assert ws == ws[..end] + ws[end..];
    ChunksCompose(table, ws[..end], ws[end..]);
  }

  lemma {:induction false} PairWritten(table: Table, a: Write, b: Write)
    ensures Written(table, [a, b]) == WrittenOne(WrittenOne(table, a), b)
    ensures Applicable(table, [a, b]) <==> Current(table, a) && Current(WrittenOne(table, a), b)
  {
    var step := WrittenOne(table, a);
    assert [a, b][1..] == [b] && [b][1..] == [];
    assert Written(step, [b]) == Written(WrittenOne(step, b), []);
    assert Applicable(step, [b]) <==> Current(step, b) && Applicable(WrittenOne(step, b), []);
  }

  /** A pair of writes made at one read version of one row never both land. */
  lemma {:induction false} SameRowPairConflicts(table: Table, a: Write, b: Write)
    requires a.id == b.id && a.version == b.version
    ensures !Applicable(table, [a, b])
  {
    assert [a, b][1..] == [b];
  }

  // ---- the in-memory side -------------------------------------------------------------

  predicate Listed(bs: seq<Balance>, id: Id) {
    exists i | 0 <= i < |bs| :: bs[i].id == id
  }

  /** The balances that are written: no nil, no empty id, the first of every id. */
  function Unique(bs: seq<Balance?>): seq<Balance> {
    if bs == [] then []
    else
      var u, b := Unique(bs[..|bs| - 1]), bs[|bs| - 1];
      if b == null || b.id == "" || Listed(u, b.id) then u else u + [b]
  }

  lemma {:induction false} UniqueIsDistinct(bs: seq<Balance?>)
    ensures DistinctBalances(Unique(bs))
    ensures forall i | 0 <= i < |Unique(bs)| :: Unique(bs)[i] in bs
    ensures forall b | b in bs && b != null && b.id != "" :: Listed(Unique(bs), b.id)
  {
    if bs != [] {
      UniqueIsDistinct(bs[..|bs| - 1]);
      var u, b := Unique(bs[..|bs| - 1]), bs[|bs| - 1];
      assert bs == bs[..|bs| - 1] + [b];
      if b != null && b.id != "" && !Listed(u, b.id) {
        assert Unique(bs) == u + [b] && Unique(bs)[|u|] == b;
        forall x | x in bs && x != null && x.id != ""
          ensures Listed(Unique(bs), x.id)
        {
          if x != b {
            var i :| 0 <= i < |u| && u[i].id == x.id;
            assert Unique(bs)[i].id == x.id;
          }
        }
      }
    }
  }

  predicate DistinctBalances(bs: seq<Balance>) {
    forall i, j | 0 <= i < j < |bs| :: bs[i].id != bs[j].id
  }

  lemma {:induction false} SliceDistinct(bs: seq<Balance>, start: nat, end: nat)
    requires DistinctBalances(bs) && start <= end <= |bs|
    ensures DistinctBalances(bs[start..end])
  {
  }

  function WriteOf(b: Balance): Write
    reads b
  {
    Write(b.id, b.View(), b.version)
  }

  function Writes(bs: seq<Balance>): (ws: seq<Write>)
    reads bs
    ensures |ws| == |bs|
    ensures forall i | 0 <= i < |bs| :: ws[i] == WriteOf(bs[i])
  {
    if bs == [] then [] else [WriteOf(bs[0])] + Writes(bs[1..])
  }

  const MaxBalancesPerUpdateChunk := 1000

  class Datasource {
    var rows: seq<Txn>
    var balances: Table

    function Snapshot(): Store
      reads this
    {
      Store(rows, balances)
    }

    /** One guarded row update; the in-memory version follows the stored one. */
    method UpdateBalance(b: Balance) returns (r: Result<(), Error>)
      modifies this`balances, b`version
      ensures r.Ok? <==> Current(old(balances), old(WriteOf(b)))
      ensures balances == WrittenOne(old(balances), old(WriteOf(b)))
      ensures b.version == if r.Ok? then old(b.version) + 1 else old(b.version)
      ensures r.Err? ==> r.error == VersionConflict
    {
      if b.id !in balances || balances[b.id].version != b.version {
        return Err(VersionConflict);
      }
      balances := balances[b.id := Versioned(b.View(), b.version + 1)];
      b.version := b.version + 1;
      return Ok(());
    }

    /** The row update itself: it takes effect where the version matches. */
    method WriteRow(w: Write) returns (ok: bool)
      modifies this`balances
      ensures ok <==> Current(old(balances), w)
      ensures balances == WrittenOne(old(balances), w)
    {
      ok := w.id in balances && balances[w.id].version == w.version;
      if ok { balances := balances[w.id := Versioned(w.amounts, w.version + 1)]; }
    }

    /** One UPDATE ... FROM VALUES statement: rows that match are written even when others
        do not; the ids it wrote are returned. */
    method UpdateMatching(chunk: seq<Balance>) returns (updated: set<Id>)
      requires DistinctBalances(chunk)
      modifies this`balances
      ensures balances == Written(old(balances), old(Writes(chunk)))
      ensures forall i | 0 <= i < |chunk| :: chunk[i].id in updated <==> Current(old(balances), old(WriteOf(chunk[i])))
    {
      var ws := Writes(chunk);
      ghost var table := balances;
      updated := {};
      for i := 0 to |ws|
        invariant Written(table, ws) == Written(balances, ws[i..])
        invariant forall k | i <= k < |ws| :: Current(balances, ws[k]) <==> Current(table, ws[k])
        invariant forall k | 0 <= k < i :: ws[k].id in updated <==> Current(table, ws[k])
        invariant forall id <- updated :: exists k | 0 <= k < i :: ws[k].id == id
      {
        assert ws[i..][0] == ws[i] && ws[i..][1..] == ws[i + 1..];
        assert forall k | 0 <= k < |ws| && k != i :: ws[k].id != ws[i].id;
        var ok := WriteRow(ws[i]);
        if ok { updated := updated + {ws[i].id}; }
      }
      assert ws[|ws|..] == [];
    }

    method UpdateBalanceChunk(chunk: seq<Balance>) returns (r: Result<(), Error>)
      requires DistinctBalances(chunk)
      modifies this`balances
      ensures balances == Written(old(balances), old(Writes(chunk)))
      ensures r.Ok? <==> Applicable(old(balances), old(Writes(chunk)))
      ensures r.Err? ==> r.error == VersionConflict
    {
      ghost var table, ws := balances, Writes(chunk);
      ApplicableIsCurrent(table, ws);
      var updated := UpdateMatching(chunk);
      var i := 0;
      while i < |chunk|
        invariant 0 <= i <= |chunk|
        invariant forall k | 0 <= k < i :: Current(table, ws[k])
      {
        if chunk[i].id !in updated {
          assert !Current(table, ws[i]);
          return Err(VersionConflict);
        }
        i := i + 1;
      }
      return Ok(());
    }

    method WriteChunks(unique: seq<Balance>) returns (r: Result<(), Error>)
      requires DistinctBalances(unique)
      modifies this`balances
      ensures r.Ok? <==> Applicable(old(balances), old(Writes(unique)))
      ensures r.Ok? ==> balances == Written(old(balances), old(Writes(unique)))
      ensures r.Err? ==> r.error == VersionConflict
    {
      ghost var table, ws := balances, Writes(unique);
      var start := 0;
      while start < |unique|
        invariant 0 <= start <= |unique|
        invariant balances == Written(table, ws[..start])
        invariant Applicable(table, ws[..start])
      {
        var end := if start + MaxBalancesPerUpdateChunk > |unique| then |unique| else start + MaxBalancesPerUpdateChunk;
        ChunkStep(table, ws, start, end);
        SliceDistinct(unique, start, end);
        var chunk := unique[start..end];
        assert Writes(chunk) == ws[start..end];
        r := UpdateBalanceChunk(chunk);
        if r.Err? { return; }
        start := end;
      }
      assert ws[..|unique|] == ws;
      return Ok(());
    }

    /** Deduplicates, writes chunk by chunk, and bumps the in-memory versions only when every
        chunk went through. A failure can leave earlier chunks written: the caller rolls back. */
    method UpdateBalanceSet(list: seq<Balance?>) returns (r: Result<(), Error>)
      modifies this`balances, Unique(list)`version
      ensures r.Ok? <==> AllCurrent(old(balances), old(Writes(Unique(list))))
      ensures r.Ok? ==>
        && balances == Written(old(balances), old(Writes(Unique(list))))
        && forall b <- Unique(list) :: b.version == old(b.version) + 1
      ensures r.Err? ==> r.error == VersionConflict && forall b <- Unique(list) :: b.version == old(b.version)
    {
      ghost var table, ws := balances, Writes(Unique(list));
      assert DistinctBalances(Unique(list)) && (AllCurrent(table, ws) <==> Applicable(table, ws)) by {
        UniqueIsDistinct(list);
        ApplicableIsCurrent(table, ws);
      }
      var unique := CollectUnique(list);
      r := WriteChunks(unique);
      if r.Ok? { BumpVersions(unique); }
    }

    method CollectUnique(list: seq<Balance?>) returns (unique: seq<Balance>)
      ensures unique == Unique(list)
    {
      var seen: set<Id> := {};
      unique := [];
      var i := 0;
      while i < |list|
        invariant 0 <= i <= |list|
        invariant unique == Unique(list[..i])
        invariant forall id :: id in seen <==> Listed(unique, id)
      {
        var b := list[i];
        assert list[..i + 1][..i] == list[..i];
        if b != null && b.id != "" && b.id !in seen {
          seen := seen + {b.id};
          ghost var was := unique;
          unique := unique + [b];
          assert unique[|was|] == b;
          forall id | Listed(was, id) ensures Listed(unique, id) {
            var k :| 0 <= k < |was| && was[k].id == id;
            assert unique[k].id == id;
          }
        }
        i := i + 1;
      }
      assert list[..|list|] == list;
    }

    method BumpVersions(unique: seq<Balance>)
      requires DistinctBalances(unique)
      modifies unique`version
      ensures forall b <- unique :: b.version == old(b.version) + 1
    {
      var i := 0;
      while i < |unique|
        invariant 0 <= i <= |unique|
        invariant forall k | 0 <= k < i :: unique[k].version == old(unique[k].version) + 1
        invariant forall k | i <= k < |unique| :: unique[k].version == old(unique[k].version)
      {
        unique[i].version := unique[i].version + 1;
        i := i + 1;
      }
    }

    method InsertRows(added: seq<Txn>) returns (r: Result<(), Error>)
      modifies this`rows
      ensures r.Ok? <==> UniqueReferences(old(rows) + added)
      ensures rows == if r.Ok? then old(rows) + added else old(rows)
      ensures r.Err? ==> r.error == DuplicateReference
    {
      if !UniqueReferences(rows + added) { return Err(DuplicateReference); }
      rows := rows + added;
      return Ok(());
    }

    /** The single path: two guarded updates and one insert in one database transaction. The
        two objects are loaded separately, even for one balance id. */
    method RecordTransactionWithBalances(row: Txn, source: Balance, destination: Balance) returns (r: Result<(), Error>)
      requires source != destination
      modifies this, source`version, destination`version
      ensures
        Outcome(Recorded(old(Snapshot()), [old(WriteOf(source)), old(WriteOf(destination))], [row]),
                old(Snapshot()), Snapshot(), r)
    {
      var rowsBefore, balancesBefore := rows, balances;
      PairWritten(balances, WriteOf(source), WriteOf(destination));
      r := UpdateBalance(source);
      if r.Ok? {
        r := UpdateBalance(destination);
        if r.Ok? { r := InsertRows([row]); }
      }
      if r.Err? { rows, balances := rowsBefore, balancesBefore; }
    }

    /** The batch path: every touched balance once, every row, in one database transaction. */
    method RecordTransactionsWithBalanceSet(added: seq<Txn>, list: seq<Balance?>) returns (r: Result<(), Error>)
      modifies this, Unique(list)`version
      ensures
        Outcome(Recorded(old(Snapshot()), old(Writes(Unique(list))), added), old(Snapshot()), Snapshot(), r)
    {
      var rowsBefore, balancesBefore := rows, balances;
      ghost var ws := Writes(Unique(list));
      UniqueIsDistinct(list);
      ApplicableIsCurrent(balances, ws);
      r := UpdateBalanceSet(list);
      if r.Ok? { r := InsertRows(added); }
      if r.Err? { rows, balances := rowsBefore, balancesBefore; }
    }
  }
}
