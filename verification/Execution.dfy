/** Single and batched execution of transactions, as functions on the store
    (transaction_execution.go, transaction_coalescing.go). */
module Execution {
  import opened Wrappers
  import opened Ledger
  import opened Storage

  // ---- queued amounts ---------------------------------------------------------------

  /** A queued row has been dealt with once a child in one of these states exists. */
  predicate HasOutcome(rows: seq<Txn>, id: Id) {
    exists i | 0 <= i < |rows| ::
      rows[i].parent == id && rows[i].status in {Applied, Rejected, Void, Inflight}
  }

  function QueuedDebitIn(some: seq<Txn>, rows: seq<Txn>, id: Id): int {
    if some == [] then 0
    else
      QueuedDebitIn(some[..|some| - 1], rows, id) +
      var t := some[|some| - 1];
      if t.source == id && t.status == Queued && !HasOutcome(rows, t.id) then t.amount else 0
  }

  /** The debits waiting in the queue for a balance, 0 when queued checks are disabled. */
  function QueuedDebit(rows: seq<Txn>, id: Id, checks: bool): int {
    if checks then QueuedDebitIn(rows, rows, id) else 0
  }

  predicate QueuedNonNegative(rows: seq<Txn>) {
    forall i | 0 <= i < |rows| :: rows[i].status == Queued ==> rows[i].amount >= 0
  }

  lemma {:induction false} QueuedDebitShrinks(some: seq<Txn>, rows: seq<Txn>, done: seq<Txn>, id: Id)
    requires QueuedNonNegative(some)
    ensures QueuedDebitIn(some, rows + done, id) <= QueuedDebitIn(some, rows, id)
  {
    if some != [] {
      var t := some[|some| - 1];
      QueuedDebitShrinks(some[..|some| - 1], rows, done, id);
      if HasOutcome(rows, t.id) {
        var i :| 0 <= i < |rows| && rows[i].parent == t.id && rows[i].status in {Applied, Rejected, Void, Inflight};
        assert (rows + done)[i] == rows[i];
      }
    }
  }

  lemma {:induction false} QueuedDebitSkips(some: seq<Txn>, done: seq<Txn>, rows: seq<Txn>, id: Id)
    requires forall i | 0 <= i < |done| :: done[i].status != Queued
    ensures QueuedDebitIn(some + done, rows, id) == QueuedDebitIn(some, rows, id)
  {
    if done == [] {
      assert some + done == some;
    } else {
      var n := |done| - 1;
      assert (some + done)[..|some + done| - 1] == some + done[..n];
      QueuedDebitSkips(some, done[..n], rows, id);
    }
  }

  lemma {:induction false} OtherStaysQueued(some: seq<Txn>, rows: seq<Txn>, c: Txn, id: Id)
    requires forall i | 0 <= i < |some| && some[i].status == Queued :: some[i].id != c.parent
    ensures QueuedDebitIn(some, rows + [c], id) == QueuedDebitIn(some, rows, id)
  {
    if some != [] {
      OtherStaysQueued(some[..|some| - 1], rows, c, id);
      OneMoreOutcome(rows, c, some[|some| - 1].id);
    }
  }

  lemma {:induction false} OneMoreOutcome(rows: seq<Txn>, c: Txn, id: Id)
    ensures HasOutcome(rows + [c], id) <==>
      HasOutcome(rows, id) || (c.parent == id && c.status in {Applied, Rejected, Void, Inflight})
  {
    if HasOutcome(rows, id) {
      var i :| 0 <= i < |rows| && rows[i].parent == id && rows[i].status in {Applied, Rejected, Void, Inflight};
      assert (rows + [c])[i] == rows[i];
    }
    assert (rows + [c])[|rows|] == c;
  }

  lemma {:induction false} OneLeavesQueue(some: seq<Txn>, rows: seq<Txn>, c: Txn, k: nat, id: Id)
    requires k < |some| && some[k].status == Queued && some[k].id == c.parent
    requires forall i | 0 <= i < |some| && i != k && some[i].status == Queued :: some[i].id != c.parent
    ensures QueuedDebitIn(some, rows + [c], id) == QueuedDebitIn(some, rows, id) -
      if some[k].source == id && !HasOutcome(rows, c.parent) && HasOutcome(rows + [c], c.parent) then some[k].amount
      else 0
  {
    var n := |some| - 1;
    OneMoreOutcome(rows, c, some[n].id);
    if k == n {
      OtherStaysQueued(some[..n], rows, c, id);
    } else {
      OneLeavesQueue(some[..n], rows, c, k, id);
    }
  }

  /** The ways in which a queued transaction comes to an end. */
  predicate Ends(status: Status) {
    status == Applied || status == Rejected || status == Void || status == Inflight
  }

  /** A row stored under a queued debit ends it exactly when it is applied, rejected, void or held and
      the first such row there; it then takes the whole amount off what its source has queued. Any other
      row, and any other balance, leaves what is queued as it is. */
  lemma {:induction false} OutcomeEndsQueuedDebit(rows: seq<Txn>, c: Txn, k: nat, id: Id)
    requires k < |rows| && rows[k].status == Queued && rows[k].id == c.parent && c.status != Queued
    requires forall i | 0 <= i < |rows| && i != k && rows[i].status == Queued :: rows[i].id != c.parent
    ensures
      var ended := exists i | 0 <= i < |rows| :: rows[i].parent == c.parent && Ends(rows[i].status);
      QueuedDebit(rows + [c], id, true) ==
      QueuedDebit(rows, id, true) - if rows[k].source == id && Ends(c.status) && !ended then rows[k].amount else 0
  {
    QueuedDebitSkips(rows, [c], rows + [c], id);
    OneLeavesQueue(rows, rows, c, k, id);
    OneMoreOutcome(rows, c, c.parent);
  }

  /** A row that names no queued transaction as its parent ends none; a queued one adds its amount to what
      its source has queued unless an outcome is already there. */
  lemma {:induction false} OtherRowQueues(rows: seq<Txn>, c: Txn, id: Id)
    requires forall i | 0 <= i < |rows| && rows[i].status == Queued :: rows[i].id != c.parent
    requires c.parent != c.id && forall i | 0 <= i < |rows| :: rows[i].parent != c.id
    ensures QueuedDebit(rows + [c], id, true) ==
            QueuedDebit(rows, id, true) + if c.source == id && c.status == Queued then c.amount else 0
  {
    OtherStaysQueued(rows, rows, c, id);
    assert (rows + [c])[..|rows|] == rows;
    OneMoreOutcome(rows, c, c.id);
  }

  /** Storing outcomes never raises what a balance still owes its queue. */
  lemma {:induction false} QueuedDebitMonotone(rows: seq<Txn>, done: seq<Txn>, id: Id, checks: bool)
    requires QueuedNonNegative(rows)
    requires forall i | 0 <= i < |done| :: done[i].status != Queued
    ensures QueuedDebit(rows + done, id, checks) <= QueuedDebit(rows, id, checks)
  {
    QueuedDebitSkips(rows, done, rows + done, id);
    QueuedDebitShrinks(rows, rows, done, id);
  }

  // ---- the single path --------------------------------------------------------------

  /** The single path with the queued debit its source was loaded with. */
  function SingleWith(store: Store, t: Txn, queued: int): Result<Store, Error> {
    if HasReference(store.rows, t.reference) then Err(DuplicateReference)
    else if t.source !in store.balances || t.destination !in store.balances then Err(BalanceNotFound)
    else
      var s, d := store.balances[t.source], store.balances[t.destination];
      var debited :- SourceSide(t, s.amounts, queued);
      var credited :- DestinationSide(t, d.amounts);
      if t.amount == 0 then Ok(store)
      else Recorded(store,
                    [Write(t.source, debited, s.version), Write(t.destination, credited, d.version)],
                    [Finalized(t)])
  }

  function Single(store: Store, t: Txn, checks: bool): Result<Store, Error> {
    SingleWith(store, t, QueuedDebit(store.rows, t.source, checks))
  }

  /** Running the single path over a list, stopping at the first failure. */
  function Run(store: Store, txns: seq<Txn>, checks: bool): Result<Store, Error>
    decreases |txns|
  {
    if txns == [] then Ok(store)
    else
      var next :- Single(store, txns[0], checks);
      Run(next, txns[1..], checks)
  }

  /** A successful single posting on two balances, spelled out. */
  lemma {:induction false} SingleEffect(store: Store, t: Txn, queued: int)
    requires t.source != t.destination && t.amount != 0
    requires SingleWith(store, t, queued).Ok?
    ensures
      var after := SingleWith(store, t, queued).value;
      && t.source in store.balances && t.destination in store.balances
      && after.rows == store.rows + [Finalized(t)]
      && UniqueReferences(after.rows)
      && after.balances.Keys == store.balances.Keys
      && SourceSide(t, store.balances[t.source].amounts, queued).Ok?
      && DestinationSide(t, store.balances[t.destination].amounts).Ok?
      && after.balances == store.balances
           [t.source := Versioned(SourceSide(t, store.balances[t.source].amounts, queued).value,
                                  store.balances[t.source].version + 1)]
           [t.destination := Versioned(DestinationSide(t, store.balances[t.destination].amounts).value,
                                       store.balances[t.destination].version + 1)]
  {
    var s, d := store.balances[t.source], store.balances[t.destination];
    var debited := SourceSide(t, s.amounts, queued).value;
    var credited := DestinationSide(t, d.amounts).value;
    PairWritten(store.balances, Write(t.source, debited, s.version), Write(t.destination, credited, d.version));
  }

  /** A self-transfer never gets through the single path: its second update always meets the
      version its first one has just advanced. */
  lemma {:induction false} SelfTransferFailsAlone(store: Store, t: Txn, queued: int)
    requires t.source == t.destination && t.amount != 0
    ensures SingleWith(store, t, queued).Err?
  {
    if !HasReference(store.rows, t.reference) && t.source in store.balances {
      var s := store.balances[t.source];
      var side := SourceSide(t, s.amounts, queued);
      var other := DestinationSide(t, s.amounts);
      if side.Ok? && other.Ok? {
        SameRowPairConflicts(store.balances, Write(t.source, side.value, s.version),
          Write(t.source, other.value, s.version));
      }
    }
  }

  /** The row a posting stores, with the status it is due: held if it is inflight; otherwise a void stays
      a void, what waited, was scheduled, ready or a commit is applied, and anything else gets none. */
  predicate IsDue(c: Txn, t: Txn) {
    && c.id == t.id && c.parent == t.parent && c.reference == t.reference && c.source == t.source
    && c.destination == t.destination && c.amount == t.amount && c.currency == t.currency
    && if t.inflight then c.status == Inflight
       else match t.status
         case Queued => c.status == Applied
         case Scheduled => c.status == Applied
         case Applied => c.status == Applied
         case Commit => c.status == Applied
         case Void => c.status == Void
         case _ => c.status == Unset
  }

  /** A posting stores one row, or nothing at all when there is nothing to move. */
  lemma {:induction false} SingleAdds(store: Store, t: Txn, queued: int)
    requires SingleWith(store, t, queued).Ok?
    ensures
      var after := SingleWith(store, t, queued).value;
      if t.amount == 0 then after == store
      else |after.rows| == |store.rows| + 1 && store.rows <= after.rows && IsDue(after.rows[|store.rows|], t)
  {
    if t.amount != 0 {
      if t.source == t.destination { SelfTransferFailsAlone(store, t, queued); }
      SingleEffect(store, t, queued);
    }
  }

  // ---- the batch path ---------------------------------------------------------------

  predicate SameCurrency(txns: seq<Txn>) {
    forall i | 0 <= i < |txns| :: txns[i].currency == txns[0].currency
  }

  /** The distinct non-empty balance ids of a batch, in order of first use. */
  function AddId(ids: seq<Id>, id: Id): seq<Id> {
    if id == "" || id in ids then ids else ids + [id]
  }

  function BalanceIds(txns: seq<Txn>): seq<Id> {
    if txns == [] then []
    else
      var t := txns[|txns| - 1];
      AddId(AddId(BalanceIds(txns[..|txns| - 1]), t.source), t.destination)
  }

  lemma {:induction false} BalanceIdsDistinct(txns: seq<Txn>)
    ensures Distinct(BalanceIds(txns))
  {
    if txns != [] {
      var ids := BalanceIds(txns[..|txns| - 1]);
      BalanceIdsDistinct(txns[..|txns| - 1]);
      AddIdDistinct(ids, txns[|txns| - 1].source);
      AddIdDistinct(AddId(ids, txns[|txns| - 1].source), txns[|txns| - 1].destination);
    }
  }

  lemma {:induction false} AddIdDistinct(ids: seq<Id>, id: Id)
    requires Distinct(ids)
    ensures Distinct(AddId(ids, id))
  {
  }

  predicate Mentions(txns: seq<Txn>, id: Id) {
    exists i | 0 <= i < |txns| :: txns[i].source == id || txns[i].destination == id
  }

  lemma {:induction false} MentionsLast(txns: seq<Txn>, id: Id)
    requires txns != []
    ensures Mentions(txns, id) <==>
      Mentions(txns[..|txns| - 1], id) || txns[|txns| - 1].source == id || txns[|txns| - 1].destination == id
  {
    var rest := txns[..|txns| - 1];
    if Mentions(txns, id) {
      var i :| 0 <= i < |txns| && (txns[i].source == id || txns[i].destination == id);
      if i < |rest| { assert rest[i] == txns[i]; }
    }
    if Mentions(rest, id) {
      var i :| 0 <= i < |rest| && (rest[i].source == id || rest[i].destination == id);
      assert txns[i] == rest[i];
    }
  }

  lemma {:induction false} AddIdMember(ids: seq<Id>, id: Id, x: Id)
    ensures x in AddId(ids, id) <==> x in ids || (x == id && id != "")
  {
  }

  lemma {:induction false} BalanceIdsMember(txns: seq<Txn>, id: Id)
    ensures id in BalanceIds(txns) <==> id != "" && Mentions(txns, id)
  {
    if txns != [] {
      var ids, t := BalanceIds(txns[..|txns| - 1]), txns[|txns| - 1];
      BalanceIdsMember(txns[..|txns| - 1], id);
      MentionsLast(txns, id);
      AddIdMember(ids, t.source, id);
      AddIdMember(AddId(ids, t.source), t.destination, id);
    }
  }

  lemma {:induction false} BalanceIdsComplete(txns: seq<Txn>)
    ensures Distinct(BalanceIds(txns))
    ensures forall id :: id in BalanceIds(txns) <==> id != "" && Mentions(txns, id)
  {
    BalanceIdsDistinct(txns);
    forall id ensures id in BalanceIds(txns) <==> id != "" && Mentions(txns, id) { BalanceIdsMember(txns, id); }
  }

  datatype Prepared = Prepared(mem: map<Id, Amounts>, done: seq<Txn>)

  /** One transaction of a batch against the shared in-memory balances. */
  function PrepareOne(store: Store, p: Prepared, t: Txn, checks: bool): Result<Prepared, Error> {
    if t.source !in p.mem || t.destination !in p.mem then Err(BalanceNotFound)
    else if t.reference == "" then Err(EmptyReference)
    else if HasReference(p.done, t.reference) || HasReference(store.rows, t.reference) then Err(DuplicateReference)
    else
      var final := Finalized(t);
      var mem :- Post(p.mem, final, QueuedDebit(store.rows, t.source, checks));
      if t.amount == 0 then Err(ZeroAmount)
      else Ok(Prepared(mem, p.done + [Finalized(final)]))
  }

  function Prepare(store: Store, p: Prepared, txns: seq<Txn>, checks: bool): Result<Prepared, Error>
    decreases |txns|
  {
    if txns == [] then Ok(p)
    else
      var next :- PrepareOne(store, p, txns[0], checks);
      Prepare(store, next, txns[1..], checks)
  }

  predicate AllLoaded(table: Table, ids: seq<Id>) {
    forall i | 0 <= i < |ids| :: ids[i] in table
  }

  function Loaded(table: Table, ids: seq<Id>): map<Id, Amounts>
    requires AllLoaded(table, ids)
  {
    map id | id in ids :: table[id].amounts
  }

  function BatchWrites(table: Table, ids: seq<Id>, mem: map<Id, Amounts>): seq<Write>
    requires AllLoaded(table, ids)
    requires forall i | 0 <= i < |ids| :: ids[i] in mem
  {
    seq(|ids|, i requires 0 <= i < |ids| => Write(ids[i], mem[ids[i]], table[ids[i]].version))
  }

  lemma {:induction false} PrepareKeys(store: Store, p: Prepared, txns: seq<Txn>, checks: bool)
    requires Prepare(store, p, txns, checks).Ok?
    ensures Prepare(store, p, txns, checks).value.mem.Keys == p.mem.Keys
    decreases |txns|
  {
    if txns != [] {
      var next := PrepareOne(store, p, txns[0], checks).value;
      assert next.mem.Keys == p.mem.Keys;
      PrepareKeys(store, next, txns[1..], checks);
    }
  }

  function Batch(store: Store, txns: seq<Txn>, checks: bool): Result<Store, Error> {
    if !SameCurrency(txns) then Err(MixedCurrencies)
    else if txns == [] then Ok(store)
    else
      var ids := BalanceIds(txns);
      if !AllLoaded(store.balances, ids) then Err(BalanceNotFound)
      else
        var start := Prepared(Loaded(store.balances, ids), []);
        var p := Prepare(store, start, txns, checks);
        if p.Err? then Err(p.error)
        else
          assert p.value.mem.Keys == start.mem.Keys by { PrepareKeys(store, start, txns, checks); }
          Recorded(store, BatchWrites(store.balances, ids, p.value.mem), p.value.done)
  }

  // ---- refinement -------------------------------------------------------------------

  /** What the coalescing filter lets through. */
  predicate Eligible(t: Txn) {
    t.status == Queued && t.source != "" && t.destination != "" && t.currency != ""
  }

  predicate AllEligible(txns: seq<Txn>) {
    forall i | 0 <= i < |txns| :: Eligible(txns[i])
  }

  predicate NoSelfTransfer(txns: seq<Txn>) {
    forall i | 0 <= i < |txns| :: txns[i].source != txns[i].destination
  }

  /** How often a run over `txns` writes the row `id`. */
  function Touches(txns: seq<Txn>, id: Id): nat {
    if txns == [] then 0
    else Touches(txns[1..], id) + if txns[0].source == id || txns[0].destination == id then 1 else 0
  }

  /** `store` is where the single path stands when the batch has prepared `p`. */
  predicate InStep(base: Store, store: Store, p: Prepared) {
    && store.rows == base.rows + p.done
    && (forall i | 0 <= i < |p.done| :: p.done[i].status != Queued)
    && (forall id <- p.mem :: id in store.balances && store.balances[id].amounts == p.mem[id])
  }

  lemma {:induction false} UniquePrefix(a: seq<Txn>, b: seq<Txn>)
    requires UniqueReferences(a + b)
    ensures UniqueReferences(a)
  {
    forall i, j | 0 <= i < j < |a| ensures a[i].reference != a[j].reference {
      assert (a + b)[i] == a[i] && (a + b)[j] == a[j];
    }
  }

  lemma {:induction false} LastIsNew(rows: seq<Txn>, t: Txn)
    requires UniqueReferences(rows + [t])
    ensures !HasReference(rows, t.reference)
  {
    forall i | 0 <= i < |rows| ensures rows[i].reference != t.reference {
      assert (rows + [t])[i] == rows[i] && (rows + [t])[|rows|] == t;
    }
  }

  /** A smaller queued debit only makes the source check easier. */
  lemma {:induction false} SourceSideMonotone(t: Txn, a: Amounts, q: int, q': int)
    requires q' <= q
    requires SourceSide(t, a, q).Ok?
    ensures SourceSide(t, a, q') == SourceSide(t, a, q)
  {
  }

  lemma {:induction false} StepRefines(base: Store, store: Store, p: Prepared, t: Txn, checks: bool)
    requires InStep(base, store, p) && Eligible(t)
    requires checks ==> QueuedNonNegative(base.rows)
    requires PrepareOne(base, p, t, checks).Ok?
    requires UniqueReferences(base.rows + PrepareOne(base, p, t, checks).value.done)
    requires t.source != t.destination
    ensures Single(store, t, checks).Ok?
    ensures t.amount != 0
    ensures InStep(base, Single(store, t, checks).value, PrepareOne(base, p, t, checks).value)
  {
    var next := PrepareOne(base, p, t, checks).value;
    var final := Finalized(t);
    var s, d := store.balances[t.source], store.balances[t.destination];
    assert base.rows + next.done == store.rows + [final];
    LastIsNew(store.rows, final);
    if checks { QueuedDebitMonotone(base.rows, p.done, t.source, checks); }
    SourceSideMonotone(final, s.amounts, QueuedDebit(base.rows, t.source, checks),
      QueuedDebit(store.rows, t.source, checks));
    var q := QueuedDebit(store.rows, t.source, checks);
    assert SourceSide(t, s.amounts, q) == SourceSide(final, s.amounts, q);
    var debited := SourceSide(t, s.amounts, q).value;
    var credited := DestinationSide(t, d.amounts).value;
    assert next.mem == p.mem[t.source := debited][t.destination := credited];
    PairWritten(store.balances, Write(t.source, debited, s.version), Write(t.destination, credited, d.version));
    SingleEffect(store, t, QueuedDebit(store.rows, t.source, checks));
  }

  lemma {:induction false} PrepareExtends(store: Store, p: Prepared, txns: seq<Txn>, checks: bool)
    requires Prepare(store, p, txns, checks).Ok?
    ensures p.done <= Prepare(store, p, txns, checks).value.done
    decreases |txns|
  {
    if txns != [] {
      var next := PrepareOne(store, p, txns[0], checks).value;
      PrepareExtends(store, next, txns[1..], checks);
      assert p.done <= next.done;
    }
  }

  predicate PreparedAt(store: Store, p: Prepared, c: Txn, t: Txn) {
    && IsDue(c, t) && t.reference != "" && !HasReference(store.rows, t.reference)
    && t.amount > 0 && t.source in p.mem && t.destination in p.mem
  }

  lemma {:induction false} PreparedEach(store: Store, p: Prepared, txns: seq<Txn>, checks: bool)
    requires AllEligible(txns) && Prepare(store, p, txns, checks).Ok?
    ensures |Prepare(store, p, txns, checks).value.done| == |p.done| + |txns|
    ensures forall i | 0 <= i < |txns| ::
      PreparedAt(store, p, Prepare(store, p, txns, checks).value.done[|p.done| + i], txns[i])
    decreases |txns|
  {
    if txns != [] {
      var next := PrepareOne(store, p, txns[0], checks).value;
      PrepareExtends(store, next, txns[1..], checks);
      PreparedEach(store, next, txns[1..], checks);
      var done := Prepare(store, p, txns, checks).value.done;
      assert done[|p.done|] == next.done[|p.done|];
      forall i | 0 <= i < |txns| ensures PreparedAt(store, p, done[|p.done| + i], txns[i]) {
        if i > 0 { assert PreparedAt(store, next, done[|next.done| + (i - 1)], txns[1..][i - 1]); }
      }
    }
  }

  lemma {:induction false} BatchPreparedAt(store: Store, txns: seq<Txn>, checks: bool, i: nat)
    requires AllEligible(txns) && Batch(store, txns, checks).Ok? && i < |txns|
    ensures
      var rows, t := Batch(store, txns, checks).value.rows, txns[i];
      && |rows| == |store.rows| + |txns| && store.rows <= rows
      && IsDue(rows[|store.rows| + i], t) && t.reference != "" && !HasReference(store.rows, t.reference)
      && t.amount > 0 && t.source in store.balances && t.destination in store.balances
  {
    var ids := BalanceIds(txns);
    var start := Prepared(Loaded(store.balances, ids), []);
    PreparedEach(store, start, txns, checks);
    var done := Prepare(store, start, txns, checks).value.done;
    assert PreparedAt(store, start, done[|start.done| + i], txns[i]);
    assert Batch(store, txns, checks).value.rows == store.rows + done;
  }

  lemma {:induction false} BatchReferencesApart(store: Store, txns: seq<Txn>, checks: bool, i: nat, j: nat)
    requires AllEligible(txns) && Batch(store, txns, checks).Ok? && i < j < |txns|
    ensures txns[i].reference != txns[j].reference
  {
    var rows, n := Batch(store, txns, checks).value.rows, |store.rows|;
    BatchPreparedAt(store, txns, checks, i);
    BatchPreparedAt(store, txns, checks, j);
    assert rows[n + i].reference != rows[n + j].reference;
  }

  /** What is refused: a batch is stored only if all its members have one currency and each has a
      reference that is neither stored nor shared, a positive amount and two stored balances. */
  lemma {:induction false} BatchAsks(store: Store, txns: seq<Txn>, checks: bool)
    requires AllEligible(txns) && Batch(store, txns, checks).Ok?
    ensures forall i, j | 0 <= i < |txns| && 0 <= j < |txns| :: txns[i].currency == txns[j].currency
    ensures forall i, j | 0 <= i < j < |txns| :: txns[i].reference != txns[j].reference
    ensures forall i | 0 <= i < |txns| ::
      && txns[i].reference != "" && !HasReference(store.rows, txns[i].reference) && txns[i].amount > 0
      && txns[i].source in store.balances && txns[i].destination in store.balances
  {
    forall i | 0 <= i < |txns|
      ensures txns[i].reference != "" && !HasReference(store.rows, txns[i].reference) && txns[i].amount > 0
      ensures txns[i].source in store.balances && txns[i].destination in store.balances
    {
      BatchPreparedAt(store, txns, checks, i);
    }
    forall i, j | 0 <= i < j < |txns| ensures txns[i].reference != txns[j].reference {
      BatchReferencesApart(store, txns, checks, i, j);
    }
  }

  /** And when it is stored it adds exactly the rows of its members, in order. */
  lemma {:induction false} BatchAdds(store: Store, txns: seq<Txn>, checks: bool)
    requires AllEligible(txns) && Batch(store, txns, checks).Ok?
    ensures |Batch(store, txns, checks).value.rows| == |store.rows| + |txns|
    ensures store.rows <= Batch(store, txns, checks).value.rows
    ensures forall i | 0 <= i < |txns| :: IsDue(Batch(store, txns, checks).value.rows[|store.rows| + i], txns[i])
  {
    var rows := Batch(store, txns, checks).value.rows;
    forall i | 0 <= i < |txns|
      ensures |rows| == |store.rows| + |txns| && IsDue(rows[|store.rows| + i], txns[i])
    {
      BatchPreparedAt(store, txns, checks, i);
    }
    if txns != [] { BatchPreparedAt(store, txns, checks, 0); }
  }

  lemma {:induction false} StaysUnique(base: Store, q: Prepared, txns: seq<Txn>, checks: bool)
    requires Prepare(base, q, txns, checks).Ok?
    requires UniqueReferences(base.rows + Prepare(base, q, txns, checks).value.done)
    ensures UniqueReferences(base.rows + q.done)
  {
    var end := Prepare(base, q, txns, checks).value.done;
    PrepareExtends(base, q, txns, checks);
    assert base.rows + end == (base.rows + q.done) + end[|q.done|..];
    UniquePrefix(base.rows + q.done, end[|q.done|..]);
  }

  /** How a run changes versions, and what it leaves alone. */
  predicate RunShape(before: Table, after: Table, txns: seq<Txn>, mem: set<Id>) {
    && after.Keys == before.Keys
    && (forall id <- after :: after[id].version == before[id].version + Touches(txns, id))
    && (forall id <- after :: id !in mem ==> after[id] == before[id])
  }

  lemma {:induction false} StepShape(store: Store, t: Txn, rest: seq<Txn>, checks: bool, end: Store, mem: set<Id>)
    requires t.source != t.destination && t.amount != 0 && Single(store, t, checks).Ok?
    requires t.source in mem && t.destination in mem
    requires RunShape(Single(store, t, checks).value.balances, end.balances, rest, mem)
    ensures RunShape(store.balances, end.balances, [t] + rest, mem)
  {
    SingleEffect(store, t, QueuedDebit(store.rows, t.source, checks));
    assert ([t] + rest)[1..] == rest;
  }

  lemma {:induction false} RunFollowsPrepare(base: Store, store: Store, p: Prepared, txns: seq<Txn>, checks: bool)
    requires InStep(base, store, p) && AllEligible(txns) && NoSelfTransfer(txns)
    requires checks ==> QueuedNonNegative(base.rows)
    requires Prepare(base, p, txns, checks).Ok?
    requires UniqueReferences(base.rows + Prepare(base, p, txns, checks).value.done)
    ensures Run(store, txns, checks).Ok?
    ensures InStep(base, Run(store, txns, checks).value, Prepare(base, p, txns, checks).value)
    ensures RunShape(store.balances, Run(store, txns, checks).value.balances, txns, p.mem.Keys)
    decreases |txns|
  {
    if txns != [] {
      var t, q := txns[0], PrepareOne(base, p, txns[0], checks).value;
      assert Prepare(base, p, txns, checks) == Prepare(base, q, txns[1..], checks);
      StaysUnique(base, q, txns[1..], checks);
      StepRefines(base, store, p, t, checks);
      assert q.mem.Keys == p.mem.Keys;
      var next := Single(store, t, checks).value;
      RunFollowsPrepare(base, next, q, txns[1..], checks);
      assert Run(store, txns, checks) == Run(next, txns[1..], checks);
      StepShape(store, t, txns[1..], checks, Run(store, txns, checks).value, p.mem.Keys);
      assert [t] + txns[1..] == txns;
    }
  }

  /** What one balance looks like after a batch and after the run, row by row of the table. */
  predicate RowRefines(before: Versioned, batched: Versioned, single: Versioned, touches: nat) {
    && batched.amounts == single.amounts
    && single.version == before.version + touches
    && batched.version == before.version + if touches > 0 then 1 else 0
  }

  lemma {:induction false} BatchRowRefines(store: Store, txns: seq<Txn>, checks: bool, single: Store, id: Id)
    requires txns != [] && Batch(store, txns, checks).Ok? && AllLoaded(store.balances, BalanceIds(txns))
    requires id in store.balances
    requires
      var start := Prepared(Loaded(store.balances, BalanceIds(txns)), []);
      var p := Prepare(store, start, txns, checks);
      && p.Ok? && id in single.balances
      && single.balances[id].version == store.balances[id].version + Touches(txns, id)
      && (id in p.value.mem ==> single.balances[id].amounts == p.value.mem[id])
      && (id !in p.value.mem ==> single.balances[id] == store.balances[id])
    ensures id in Batch(store, txns, checks).value.balances
    ensures RowRefines(store.balances[id], Batch(store, txns, checks).value.balances[id], single.balances[id],
      Touches(txns, id))
  {
    var ids := BalanceIds(txns);
    var start := Prepared(Loaded(store.balances, ids), []);
    var p := Prepare(store, start, txns, checks).value;
    PrepareKeys(store, start, txns, checks);
    BalanceIdsDistinct(txns);
    var ws := BatchWrites(store.balances, ids, p.mem);
    ApplicableIsCurrent(store.balances, ws);
    WrittenKeys(store.balances, ws);
    TouchedIsListed(txns, id);
    BalanceIdsMember(txns, id);
    if id in ids {
      var k :| 0 <= k < |ids| && ids[k] == id;
      WrittenAt(store.balances, ws, k);
    } else {
      WrittenElsewhere(store.balances, ws, id);
    }
  }

  lemma {:induction false} StartInStep(store: Store, ids: seq<Id>)
    requires AllLoaded(store.balances, ids)
    ensures InStep(store, store, Prepared(Loaded(store.balances, ids), []))
  {
    assert store.rows + [] == store.rows;
  }

  /** A batch that succeeds ends where the single path over the same list ends: same rows,
      same amounts, and each touched balance one version further instead of one per touch. */
  lemma {:induction false} BatchRefinesRun(store: Store, txns: seq<Txn>, checks: bool)
    requires AllEligible(txns) && NoSelfTransfer(txns)
    requires checks ==> QueuedNonNegative(store.rows)
    requires Batch(store, txns, checks).Ok?
    ensures Run(store, txns, checks).Ok?
    ensures
      var batched, single := Batch(store, txns, checks).value, Run(store, txns, checks).value;
      && batched.rows == single.rows
      && batched.balances.Keys == single.balances.Keys == store.balances.Keys
      && forall id <- store.balances ::
           RowRefines(store.balances[id], batched.balances[id], single.balances[id], Touches(txns, id))
  {
    if txns != [] {
      var ids := BalanceIds(txns);
      var start := Prepared(Loaded(store.balances, ids), []);
      var p := Prepare(store, start, txns, checks).value;
      StartInStep(store, ids);
      PrepareKeys(store, start, txns, checks);
      RunFollowsPrepare(store, store, start, txns, checks);
      WrittenKeys(store.balances, BatchWrites(store.balances, ids, p.mem));
      forall id <- store.balances
        ensures RowRefines(store.balances[id], Batch(store, txns, checks).value.balances[id],
                           Run(store, txns, checks).value.balances[id], Touches(txns, id))
      {
        BatchRowRefines(store, txns, checks, Run(store, txns, checks).value, id);
      }
    } else {
      assert forall id :: Touches(txns, id) == 0;
    }
  }

  lemma {:induction false} TouchedIsListed(txns: seq<Txn>, id: Id)
    ensures Touches(txns, id) > 0 <==> Mentions(txns, id)
  {
    if txns != [] {
      TouchedIsListed(txns[1..], id);
      if Mentions(txns[1..], id) {
        var i :| 0 <= i < |txns[1..]| && (txns[1..][i].source == id || txns[1..][i].destination == id);
        assert txns[i + 1] == txns[1..][i];
      }
      if Mentions(txns, id) {
        var i :| 0 <= i < |txns| && (txns[i].source == id || txns[i].destination == id);
        if i > 0 { assert txns[1..][i - 1] == txns[i]; }
      }
    }
  }

  // ---- and back ---------------------------------------------------------------------

  predicate NamedReferences(txns: seq<Txn>) {
    forall i | 0 <= i < |txns| :: txns[i].reference != ""
  }

  predicate Covers(mem: map<Id, Amounts>, txns: seq<Txn>) {
    forall i | 0 <= i < |txns| :: txns[i].source in mem && txns[i].destination in mem
  }

  lemma {:induction false} ReferencesSplit(a: seq<Txn>, b: seq<Txn>, reference: string)
    ensures HasReference(a + b, reference) <==> HasReference(a, reference) || HasReference(b, reference)
  {
    if HasReference(a, reference) {
      var i :| 0 <= i < |a| && a[i].reference == reference;
      assert (a + b)[i].reference == reference;
    }
    if HasReference(b, reference) {
      var i :| 0 <= i < |b| && b[i].reference == reference;
      assert (a + b)[|a| + i].reference == reference;
    }
  }

  /** Every member in turn could also be paid for with the queued debit its source had at the
      start, as a batch asks: `store` runs along, `base` is the start. */
  predicate FundedFromStart(base: Store, store: Store, txns: seq<Txn>, checks: bool)
    requires Run(store, txns, checks).Ok?
    decreases |txns|
  {
    txns == [] ||
    (var t := txns[0];
     && t.source in store.balances
     && CanProcess(t, store.balances[t.source].amounts, QueuedDebit(base.rows, t.source, checks)).Ok?
     && FundedFromStart(base, Single(store, t, checks).value, txns[1..], checks))
  }

  /** One member of a batch: what the single path accepts is prepared as well, if the queued
      debit of the start leaves room for it. */
  lemma {:induction false} PrepareOneIff(base: Store, store: Store, p: Prepared, t: Txn, checks: bool)
    requires InStep(base, store, p) && Eligible(t) && t.source != t.destination && t.reference != ""
    requires t.source in p.mem && t.destination in p.mem && UniqueReferences(base.rows + p.done)
    requires Single(store, t, checks).Ok?
    ensures PrepareOne(base, p, t, checks).Ok? <==>
      CanProcess(t, store.balances[t.source].amounts, QueuedDebit(base.rows, t.source, checks)).Ok?
    ensures PrepareOne(base, p, t, checks).Ok? ==>
      var next := PrepareOne(base, p, t, checks).value;
      && InStep(base, Single(store, t, checks).value, next) && next.mem.Keys == p.mem.Keys
      && UniqueReferences(base.rows + next.done)
  {
    SingleEffect(store, t, QueuedDebit(store.rows, t.source, checks));
    ReferencesSplit(base.rows, p.done, t.reference);
    var final := Finalized(t);
    FinalPostsAlike(t, p.mem[t.source], p.mem[t.destination], QueuedDebit(base.rows, t.source, checks),
      QueuedDebit(store.rows, t.source, checks));
    assert Single(store, t, checks).value.rows == base.rows + (p.done + [final]);
  }

  /** Deciding the status first does not change what is posted; the queued debit only decides
      whether. */
  lemma {:induction false} FinalPostsAlike(t: Txn, a: Amounts, b: Amounts, q: int, q': int)
    requires t.status == Queued && SourceSide(t, a, q').Ok?
    ensures SourceSide(Finalized(t), a, q).Ok? <==> CanProcess(t, a, q).Ok?
    ensures SourceSide(Finalized(t), a, q).Ok? ==> SourceSide(Finalized(t), a, q) == SourceSide(t, a, q')
    ensures DestinationSide(Finalized(t), b) == DestinationSide(t, b)
  {
    assert CanProcess(Finalized(t), a, q) == CanProcess(t, a, q);
  }

  lemma {:induction false} PrepareFollowsRun(base: Store, store: Store, p: Prepared, txns: seq<Txn>, checks: bool)
    requires InStep(base, store, p) && AllEligible(txns) && NoSelfTransfer(txns)
    requires NamedReferences(txns) && Covers(p.mem, txns)
    requires UniqueReferences(base.rows + p.done)
    requires Run(store, txns, checks).Ok?
    ensures Prepare(base, p, txns, checks).Ok? <==> FundedFromStart(base, store, txns, checks)
    ensures Prepare(base, p, txns, checks).Ok? ==>
      UniqueReferences(base.rows + Prepare(base, p, txns, checks).value.done)
    decreases |txns|
  {
    if txns != [] {
      PrepareOneIff(base, store, p, txns[0], checks);
      if PrepareOne(base, p, txns[0], checks).Ok? {
        PrepareFollowsRun(base, Single(store, txns[0], checks).value, PrepareOne(base, p, txns[0], checks).value,
          txns[1..], checks);
      }
    }
  }

  lemma {:induction false} RunRefusesSelfTransfers(store: Store, txns: seq<Txn>, checks: bool)
    requires AllEligible(txns)
    requires Run(store, txns, checks).Ok?
    ensures NoSelfTransfer(txns)
    ensures txns != [] ==>
      forall i | 0 <= i < |txns| :: txns[i].source in store.balances && txns[i].destination in store.balances
    decreases |txns|
  {
    if txns != [] {
      var t := txns[0];
      if t.source == t.destination && t.amount != 0 {
        SelfTransferFailsAlone(store, t, QueuedDebit(store.rows, t.source, checks));
      }
      SingleEffect(store, t, QueuedDebit(store.rows, t.source, checks));
      RunRefusesSelfTransfers(Single(store, t, checks).value, txns[1..], checks);
      forall i | 0 <= i < |txns|
        ensures txns[i].source != txns[i].destination && txns[i].source in store.balances
          && txns[i].destination in store.balances
      {
        if i > 0 { assert txns[i] == txns[1..][i - 1]; }
      }
    }
  }

  /** A successful batch could have been run one by one exactly when it holds no self-transfer. */
  lemma {:induction false} BatchMatchesRunIff(store: Store, txns: seq<Txn>, checks: bool)
    requires AllEligible(txns)
    requires checks ==> QueuedNonNegative(store.rows)
    requires Batch(store, txns, checks).Ok?
    ensures Run(store, txns, checks).Ok? <==> NoSelfTransfer(txns)
  {
    if NoSelfTransfer(txns) {
      BatchRefinesRun(store, txns, checks);
    } else if Run(store, txns, checks).Ok? {
      RunRefusesSelfTransfers(store, txns, checks);
    }
  }

  lemma {:induction false} RunLoadsBalances(store: Store, txns: seq<Txn>, checks: bool)
    requires AllEligible(txns) && Run(store, txns, checks).Ok?
    ensures AllLoaded(store.balances, BalanceIds(txns))
  {
    var ids := BalanceIds(txns);
    BalanceIdsComplete(txns);
    RunRefusesSelfTransfers(store, txns, checks);
    forall i | 0 <= i < |ids| ensures ids[i] in store.balances {
      assert ids[i] in BalanceIds(txns);
    }
  }

  lemma {:induction false} LoadedCovers(store: Store, txns: seq<Txn>)
    requires AllEligible(txns) && AllLoaded(store.balances, BalanceIds(txns))
    ensures Covers(Loaded(store.balances, BalanceIds(txns)), txns)
  {
    BalanceIdsComplete(txns);
    forall i | 0 <= i < |txns|
      ensures txns[i].source in BalanceIds(txns) && txns[i].destination in BalanceIds(txns)
    {
      assert Eligible(txns[i]);
    }
  }

  /** What runs one by one goes through as a batch exactly when the queued debits of the start
      leave room for every member. */
  lemma {:induction false} BatchFollowsRunIff(store: Store, txns: seq<Txn>, checks: bool)
    requires AllEligible(txns) && SameCurrency(txns) && NamedReferences(txns)
    requires UniqueReferences(store.rows)
    requires Run(store, txns, checks).Ok?
    ensures Batch(store, txns, checks).Ok? <==> FundedFromStart(store, store, txns, checks)
  {
    if txns != [] {
      var ids := BalanceIds(txns);
      RunRefusesSelfTransfers(store, txns, checks);
      RunLoadsBalances(store, txns, checks);
      LoadedCovers(store, txns);
      var start := Prepared(Loaded(store.balances, ids), []);
      assert store.rows + [] == store.rows;
      PrepareFollowsRun(store, store, start, txns, checks);
      if Prepare(store, start, txns, checks).Ok? {
        PrepareKeys(store, start, txns, checks);
        var ws := BatchWrites(store.balances, ids, Prepare(store, start, txns, checks).value.mem);
        assert DistinctIds(ws) by { BalanceIdsComplete(txns); }
        ApplicableIsCurrent(store.balances, ws);
      }
    }
  }

  /** Nothing is lost or gained by coalescing beyond that: a list without self-transfers is
      stored as a batch exactly when it runs one by one and is funded from the start. */
  lemma {:induction false} RunGivesBatch(store: Store, txns: seq<Txn>, checks: bool)
    requires AllEligible(txns) && SameCurrency(txns) && NamedReferences(txns)
    requires UniqueReferences(store.rows) && (checks ==> QueuedNonNegative(store.rows))
    ensures Batch(store, txns, checks).Ok? && NoSelfTransfer(txns) <==>
      Run(store, txns, checks).Ok? && FundedFromStart(store, store, txns, checks)
  {
    if Run(store, txns, checks).Ok? {
      RunRefusesSelfTransfers(store, txns, checks);
      BatchFollowsRunIff(store, txns, checks);
    }
    if Batch(store, txns, checks).Ok? && NoSelfTransfer(txns) {
      BatchRefinesRun(store, txns, checks);
    }
  }

  /** With queued checks off every list that runs is funded from the start. */
  lemma {:induction false} UncheckedIsFunded(base: Store, store: Store, txns: seq<Txn>)
    requires AllEligible(txns) && NoSelfTransfer(txns) && Run(store, txns, false).Ok?
    ensures FundedFromStart(base, store, txns, false)
    decreases |txns|
  {
    if txns != [] {
      SingleEffect(store, txns[0], 0);
      UncheckedIsFunded(base, Single(store, txns[0], false).value, txns[1..]);
    }
  }

  // ---- a batch that queued checks refuse ----------------------------------------------

  predicate TenFromA(t: Txn) {
    && Eligible(t) && !t.inflight && t.source == "a" && t.destination == "b" && t.amount == 10 && t.currency == "USD"
    && !t.allowOverdraft && t.overdraftLimit == 0.0
  }

  /** Balance a holds 30 and has two originals of 10 waiting in its queue. */
  predicate TwoQueued(store: Store) {
    && |store.rows| == 2 && TenFromA(store.rows[0]) && TenFromA(store.rows[1])
    && store.rows[0].id == "o1" && store.rows[0].parent == "" && store.rows[0].reference == "r1"
    && store.rows[1].id == "o2" && store.rows[1].parent == "" && store.rows[1].reference == "r2"
    && "a" in store.balances && "b" in store.balances && store.balances["a"].amounts == Amounts(30, 30, 0, 0, 0, 0)
  }

  lemma {:induction false} QueuedOfTwo(rows: seq<Txn>)
    requires |rows| >= 2 && TenFromA(rows[0]) && TenFromA(rows[1]) && rows[0].id == "o1" && rows[1].id == "o2"
    requires forall i | 2 <= i < |rows| :: rows[i].status != Queued
    ensures QueuedDebit(rows, "a", true) ==
      (if HasOutcome(rows, "o1") then 0 else 10) + if HasOutcome(rows, "o2") then 0 else 10
  {
    var one, two := rows[..1], rows[..2];
    assert one[..0] == [] && two[..1] == one && rows == two + rows[2..];
    QueuedDebitSkips(two, rows[2..], rows, "a");
    assert QueuedDebitIn(one, rows, "a") == if HasOutcome(rows, "o1") then 0 else 10;
  }

  /** One of the copies on its own: 10 go from a to b. */
  lemma {:induction false} CopyPosts(store: Store, copy: Txn)
    requires TenFromA(copy) && "a" in store.balances && "b" in store.balances
    requires UniqueReferences(store.rows) && !HasReference(store.rows, copy.reference)
    requires var a := store.balances["a"].amounts;
      a.balance - a.inflightDebit - QueuedDebit(store.rows, "a", true) >= 10
    ensures Single(store, copy, true).Ok?
    ensures
      var after := Single(store, copy, true).value;
      && after.rows == store.rows + [Finalized(copy)] && UniqueReferences(after.rows)
      && after.balances.Keys == store.balances.Keys
      && after.balances["a"].amounts == store.balances["a"].amounts.Debited(10, false)
  {
    var s, d := store.balances["a"], store.balances["b"];
    var debited := SourceSide(copy, s.amounts, QueuedDebit(store.rows, "a", true)).value;
    PairWritten(store.balances, Write("a", debited, s.version), Write("b", d.amounts.Credited(10, false), d.version));
    SingleEffect(store, copy, QueuedDebit(store.rows, "a", true));
  }

  /** After the first copy 10 are still waiting, and 20 are left. */
  lemma {:induction false} FirstCopyPosts(store: Store, copy: Txn)
    requires TwoQueued(store) && TenFromA(copy) && copy.parent == "o1" && copy.reference == "r1_q"
    ensures QueuedDebit(store.rows, "a", true) == 20 && Single(store, copy, true).Ok?
    ensures
      var next := Single(store, copy, true).value;
      && next.rows == store.rows + [Finalized(copy)] && UniqueReferences(next.rows)
      && "a" in next.balances && "b" in next.balances
      && next.balances["a"].amounts.balance == 20 && next.balances["a"].amounts.inflightDebit == 0
  {
    QueuedOfTwo(store.rows);
    CopyPosts(store, copy);
  }

  lemma {:induction false} SecondCopyPosts(store: Store, next: Store, one: Txn, two: Txn)
    requires TwoQueued(store) && TenFromA(one) && one.parent == "o1" && one.reference == "r1_q"
    requires TenFromA(two) && two.reference == "r2_q"
    requires next.rows == store.rows + [Finalized(one)] && UniqueReferences(next.rows)
    requires "a" in next.balances && "b" in next.balances
    requires next.balances["a"].amounts.balance == 20 && next.balances["a"].amounts.inflightDebit == 0
    ensures Single(next, two, true).Ok?
  {
    assert next.rows[2].parent == "o1" && next.rows[2].status == Applied;
    assert HasOutcome(next.rows, "o1") && !HasOutcome(next.rows, "o2");
    QueuedOfTwo(next.rows);
    CopyPosts(next, two);
  }

  lemma {:induction false} RunOfTwo(store: Store, one: Txn, two: Txn, checks: bool)
    requires Single(store, one, checks).Ok? && Single(Single(store, one, checks).value, two, checks).Ok?
    ensures Run(store, [one, two], checks).Ok?
    ensures
      var next := Single(store, one, checks).value;
      FundedFromStart(store, store, [one, two], checks) ==>
        two.source in next.balances &&
        CanProcess(two, next.balances[two.source].amounts, QueuedDebit(store.rows, two.source, checks)).Ok?
  {
    var next, txns := Single(store, one, checks).value, [one, two];
    assert txns[0] == one && txns[1..] == [two] && [two][0] == two && [two][1..] == [];
    assert Run(next, [two], checks) == Run(Single(next, two, checks).value, [], checks);
    assert Run(store, txns, checks) == Run(next, [two], checks);
    if FundedFromStart(store, store, txns, checks) {
      assert FundedFromStart(store, next, [two], checks);
    }
  }

  /** Two transactions that run one after the other although the second could not be paid for
      with the queued debit of the start. */
  predicate ShortOfTwo(store: Store, one: Txn, two: Txn, checks: bool) {
    && Eligible(one) && Eligible(two) && one.currency == two.currency && one.reference != "" && two.reference != ""
    && UniqueReferences(store.rows) && Single(store, one, checks).Ok?
    && var next := Single(store, one, checks).value;
       && Single(next, two, checks).Ok?
       && (two.source in next.balances ==>
             CanProcess(two, next.balances[two.source].amounts, QueuedDebit(store.rows, two.source, checks)).Err?)
  }

  lemma {:induction false} RefusedOfTwo(store: Store, one: Txn, two: Txn, checks: bool)
    requires ShortOfTwo(store, one, two, checks)
    ensures AllEligible([one, two]) && Run(store, [one, two], checks).Ok? && Batch(store, [one, two], checks).Err?
  {
    RunOfTwo(store, one, two, checks);
    BatchFollowsRunIff(store, [one, two], checks);
  }

  /** One by one both copies go through; as a batch the second is refused, because 20 are still
      taken to be waiting. */
  lemma {:induction false} QueuedBatchRefused(store: Store, one: Txn, two: Txn)
    requires TwoQueued(store)
    requires TenFromA(one) && one.parent == "o1" && one.reference == "r1_q"
    requires TenFromA(two) && two.parent == "o2" && two.reference == "r2_q"
    ensures Run(store, [one, two], true).Ok? && Batch(store, [one, two], true).Err?
  {
    FirstCopyPosts(store, one);
    SecondCopyPosts(store, Single(store, one, true).value, one, two);
    RefusedOfTwo(store, one, two, true);
  }

  const Ten := Txn("", "", "a", "b", "", "USD", 10, Queued, false, false, 0.0, 1.0, 0, None)

  /** The divergence is real: such a store and such copies exist. */
  lemma {:induction false} QueuedBatchDiverges() returns (store: Store, one: Txn, two: Txn)
    ensures Run(store, [one, two], true).Ok? && Batch(store, [one, two], true).Err?
  {
    store, one, two := TwoCopies();
    QueuedBatchRefused(store, one, two);
  }

  lemma {:induction false} TwoCopies() returns (store: Store, one: Txn, two: Txn)
    ensures TwoQueued(store)
    ensures TenFromA(one) && one.parent == "o1" && one.reference == "r1_q"
    ensures TenFromA(two) && two.parent == "o2" && two.reference == "r2_q"
  {
    store := Store([Ten.(id := "o1", reference := "r1"), Ten.(id := "o2", reference := "r2")],
                   map["a" := Versioned(Amounts(30, 30, 0, 0, 0, 0), 1), "b" := Versioned(ZeroAmounts, 1)]);
    one, two :=
      Ten.(id := "c1", parent := "o1", reference := "r1_q"), Ten.(id := "c2", parent := "o2", reference := "r2_q");
  }

  // ---- a batch that the single path refuses -------------------------------------------

  /** Two queued transactions from one balance, the second back to that balance, with enough at
      hand for both. */
  predicate PaidPair(store: Store, one: Txn, two: Txn, checks: bool) {
    && Eligible(one) && Eligible(two) && one.currency == two.currency && one.amount > 0 && two.amount > 0
    && one.source != one.destination && two.source == one.source && two.destination == one.source
    && one.reference != "" && two.reference != "" && one.reference != two.reference
    && UniqueReferences(store.rows) && !HasReference(store.rows, one.reference)
    && !HasReference(store.rows, two.reference)
    && one.source in store.balances && one.destination in store.balances
    && var a := store.balances[one.source].amounts;
       a.Coherent()
         && a.balance - a.inflightDebit - QueuedDebit(store.rows, one.source, checks) >= one.amount + two.amount
  }

  lemma {:induction false} PaidPairPrepared(store: Store, p: Prepared, one: Txn, two: Txn, checks: bool)
    requires PaidPair(store, one, two, checks) && p.done == [] && one.source in p.mem && one.destination in p.mem
    requires p.mem[one.source] == store.balances[one.source].amounts
    ensures Prepare(store, p, [one, two], checks).Ok?
    ensures Prepare(store, p, [one, two], checks).value.done == [Finalized(Finalized(one)), Finalized(Finalized(two))]
  {
    var q := QueuedDebit(store.rows, one.source, checks);
    var debited := p.mem[one.source].Debited(one.amount, one.inflight);
    assert SourceSide(Finalized(one), p.mem[one.source], q) == Ok(debited);
    var next := PrepareOne(store, p, one, checks).value;
    assert next.mem[one.source] == debited && next.done == [Finalized(Finalized(one))];
    assert SourceSide(Finalized(two), debited, q) == Ok(debited.Debited(two.amount, two.inflight));
    var txns := [one, two];
    assert txns[1..] == [two] && [two][1..] == [];
    assert Prepare(store, p, txns, checks) == Prepare(store, next, [two], checks);
    assert Prepare(store, next, [two], checks) ==
      Prepare(store, PrepareOne(store, next, two, checks).value, [], checks);
  }

  lemma {:induction false} TwoNewReferences(rows: seq<Txn>, one: Txn, two: Txn)
    requires UniqueReferences(rows) && one.reference != two.reference
    requires !HasReference(rows, one.reference) && !HasReference(rows, two.reference)
    ensures UniqueReferences(rows + [one, two])
  {
    var all := rows + [one, two];
    forall i, j | 0 <= i < j < |all| ensures all[i].reference != all[j].reference {
      if i < |rows| { assert rows[i] == all[i]; }
    }
  }

  lemma {:induction false} PaidPairLoaded(store: Store, one: Txn, two: Txn, checks: bool)
    requires PaidPair(store, one, two, checks)
    ensures
      var ids := BalanceIds([one, two]);
      Distinct(ids) && AllLoaded(store.balances, ids) && one.source in ids && one.destination in ids
  {
    var txns := [one, two];
    BalanceIdsComplete(txns);
    assert Mentions(txns, one.source) by { assert txns[0].source == one.source; }
    assert Mentions(txns, one.destination) by { assert txns[0].destination == one.destination; }
    var ids := BalanceIds(txns);
    forall i | 0 <= i < |ids| ensures ids[i] in store.balances {
      assert ids[i] in ids;
    }
  }

  lemma {:induction false} PreparedIsDue(store: Store, txns: seq<Txn>, checks: bool)
    requires txns != [] && SameCurrency(txns) && AllLoaded(store.balances, BalanceIds(txns))
    requires
      var p := Prepare(store, Prepared(Loaded(store.balances, BalanceIds(txns)), []), txns, checks);
      p.Ok? && UniqueReferences(store.rows + p.value.done)
    ensures Batch(store, txns, checks).Ok?
  {
    var ids := BalanceIds(txns);
    var start := Prepared(Loaded(store.balances, ids), []);
    BalanceIdsComplete(txns);
    PrepareKeys(store, start, txns, checks);
    ApplicableIsCurrent(store.balances,
      BatchWrites(store.balances, ids, Prepare(store, start, txns, checks).value.mem));
  }

  lemma {:induction false} PaidPairStored(store: Store, one: Txn, two: Txn, checks: bool)
    requires PaidPair(store, one, two, checks)
    ensures Batch(store, [one, two], checks).Ok?
  {
    var txns := [one, two];
    PaidPairLoaded(store, one, two, checks);
    PaidPairPrepared(store, Prepared(Loaded(store.balances, BalanceIds(txns)), []), one, two, checks);
    TwoNewReferences(store.rows, Finalized(Finalized(one)), Finalized(Finalized(two)));
    PreparedIsDue(store, txns, checks);
  }

  /** The batch stores them both, and one by one the second is refused. */
  lemma {:induction false} PaidPairDiverges(store: Store, one: Txn, two: Txn, checks: bool)
    requires PaidPair(store, one, two, checks)
    ensures Batch(store, [one, two], checks).Ok? && Run(store, [one, two], checks).Err?
  {
    var txns := [one, two];
    PaidPairStored(store, one, two, checks);
    if Run(store, txns, checks).Ok? {
      assert txns[1].source == txns[1].destination && txns[0] == one;
      assert AllEligible(txns);
      RunRefusesSelfTransfers(store, txns, checks);
      assert false;
    }
  }
}
