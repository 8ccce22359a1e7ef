/** Committing and voiding one stored INFLIGHT transaction
    (transaction_inflight.go, database/transaction_inflight.go, database/brokerage.go). */
module Inflight {
  import opened Wrappers
  import opened Ledger
  import opened Storage
  import opened Execution

  function Find(rows: seq<Txn>, id: Id): Option<Txn> {
    if rows == [] then None
    else if rows[|rows| - 1].id == id then Some(rows[|rows| - 1])
    else Find(rows[..|rows| - 1], id)
  }

  /** The sum of a transaction's children in one status. */
  function ChildSum(rows: seq<Txn>, parent: Id, status: Status): int {
    if rows == [] then 0
    else
      var t := rows[|rows| - 1];
      ChildSum(rows[..|rows| - 1], parent, status) +
      if t.parent == parent && t.status == status then t.amount else 0
  }

  function Committed(rows: seq<Txn>, id: Id): int {
    ChildSum(rows, id, Applied)
  }

  predicate IsVoided(rows: seq<Txn>, id: Id) {
    exists i | 0 <= i < |rows| :: rows[i].parent == id && rows[i].status == Void
  }

  /** What an INFLIGHT row still holds, as the hold rebuild computes it. */
  function HoldOf(rows: seq<Txn>, t: Txn): int {
    var left := t.amount - Committed(rows, t.id);
    if IsVoided(rows, t.id) || left < 0 then 0 else left
  }

  function FetchInflight(rows: seq<Txn>, id: Id): Result<Txn, Error> {
    match Find(rows, id)
    case None => Err(TransactionNotFound)
    case Some(t) =>
      if t.status != Inflight then Err(NotInflight)
      else if IsVoided(rows, id) then Err(AlreadyVoided)
      else Ok(t)
  }

  /** Zero asks for the whole remainder. */
  function CommitAmount(t: Txn, left: int, amount: int): Result<int, Error> {
    if left == 0 then Err(AlreadyCommitted)
    else if amount < 0 then Err(NegativeAmount)
    else if amount == 0 then Ok(left)
    else if amount > t.amount then Err(ExceedsOriginal)
    else if amount > left then Err(ExceedsRemaining)
    else Ok(amount)
  }

  /** The identity of a child: generated id, reference, clock. */
  datatype Stamp = Stamp(id: Id, reference: string, now: int)

  function Child(t: Txn, status: Status, amount: int, stamp: Stamp): Txn {
    t.(id := stamp.id, parent := t.id, reference := stamp.reference, amount := amount, status := status,
       inflight := false, createdAt := stamp.now, effectiveDate := Some(stamp.now))
  }

  function CommitLeg(store: Store, id: Id, amount: int, stamp: Stamp, checks: bool): Result<Store, Error> {
    var t :- FetchInflight(store.rows, id);
    var part :- CommitAmount(t, t.amount - Committed(store.rows, id), amount);
    Single(store, Child(t, Commit, part, stamp), checks)
  }

  function VoidLeg(store: Store, id: Id, stamp: Stamp, checks: bool): Result<Store, Error> {
    var t :- FetchInflight(store.rows, id);
    var left := t.amount - Committed(store.rows, id);
    if left == 0 then Err(AlreadyCommitted)
    else Single(store, Child(t, Void, left, stamp), checks)
  }

  // ---- holds rebuilt from the rows ------------------------------------------------------

  function End(t: Txn, debit: bool): Id {
    if debit then t.source else t.destination
  }

  /** What the rows of one status add up to on one side of a balance. */
  function Moved(rows: seq<Txn>, status: Status, id: Id, debit: bool): int {
    if rows == [] then 0
    else
      var t := rows[|rows| - 1];
      Moved(rows[..|rows| - 1], status, id, debit) +
      if t.status == status && End(t, debit) == id then t.amount else 0
  }

  /** The rows behind a settled column: the APPLIED ones, and those stored without a status. */
  function Settled(rows: seq<Txn>, id: Id, debit: bool): int {
    Moved(rows, Applied, id, debit) + Moved(rows, Unset, id, debit)
  }

  /** The live holds among `some` on one side of a balance, judged against `rows`. */
  function Held(some: seq<Txn>, rows: seq<Txn>, id: Id, debit: bool): int {
    if some == [] then 0
    else
      var t := some[|some| - 1];
      Held(some[..|some| - 1], rows, id, debit) +
      if t.status == Inflight && End(t, debit) == id then HoldOf(rows, t) else 0
  }

  function Rebuilt(a: Amounts, rows: seq<Txn>, id: Id): Amounts {
    var credit, debit := Held(rows, rows, id, false), Held(rows, rows, id, true);
    a.(inflightCredit := credit, inflightDebit := debit, inflight := credit - debit)
  }

  function RecomputeHolds(store: Store, id: Id): Result<Store, Error> {
    if id !in store.balances then Err(BalanceNotFound)
    else
      var b := store.balances[id];
      Ok(store.(balances := store.balances[id := Versioned(Rebuilt(b.amounts, store.rows, id), b.version + 1)]))
  }

  /** The two sums of the rebuild query, debit first. */
  method SumHolds(rows: seq<Txn>, id: Id) returns (debit: int, credit: int)
    ensures debit == Held(rows, rows, id, true) && credit == Held(rows, rows, id, false)
  {
    debit, credit := 0, 0;
    for i := 0 to |rows|
      invariant debit == Held(rows[..i], rows, id, true) && credit == Held(rows[..i], rows, id, false)
    {
      assert rows[..i + 1][..i] == rows[..i];
      var t := rows[i];
      if t.status == Inflight {
        if t.source == id { debit := debit + HoldOf(rows, t); }
        if t.destination == id { credit := credit + HoldOf(rows, t); }
      }
    }
    assert rows[..|rows|] == rows;
  }

  /** Rebuilding the holds of one balance under its row lock; it reports the two sums. */
  method RebuildHolds(ds: Datasource, id: Id) returns (r: Result<(int, int), Error>)
    modifies ds`balances
    ensures
      var spec := RecomputeHolds(old(ds.Snapshot()), id);
      if spec.Err? then r == Err(spec.error) && ds.balances == old(ds.balances)
      else r == Ok((Held(ds.rows, ds.rows, id, true), Held(ds.rows, ds.rows, id, false))) && ds.Snapshot() == spec.value
  {
    if id !in ds.balances { return Err(BalanceNotFound); }
    var debit, credit := SumHolds(ds.rows, id);
    var b := ds.balances[id];
    var rebuilt := b.amounts.(inflight := credit - debit, inflightCredit := credit, inflightDebit := debit);
    ds.balances := ds.balances[id := Versioned(rebuilt, b.version + 1)];
    return Ok((debit, credit));
  }
}
