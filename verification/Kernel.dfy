/** The ledger kernel: what every run of recording, committing, voiding and hold rebuilding
    keeps true of the stored rows and balances. */
module Kernel {
  import opened Wrappers
  import opened Ledger
  import opened Storage
  import opened Execution
  import opened Inflight

  datatype Step =
    | Insert(row: Txn)
    | Record(t: Txn)
    | CommitStep(id: Id, amount: int, stamp: Stamp)
    | VoidStep(id: Id, stamp: Stamp)
    | Recompute(balance: Id)

  function Attempt(store: Store, step: Step, checks: bool): Result<Store, Error> {
    match step
    case Insert(row) => Recorded(store, [], [row])
    case Record(t) => Single(store, t, checks)
    case CommitStep(id, amount, stamp) => CommitLeg(store, id, amount, stamp, checks)
    case VoidStep(id, stamp) => VoidLeg(store, id, stamp, checks)
    case Recompute(id) => RecomputeHolds(store, id)
  }

  function Next(store: Store, step: Step, checks: bool): Store {
    var r := Attempt(store, step, checks);
    if r.Ok? then r.value else store
  }

  /** A generated id: never empty, never seen before. */
  predicate Unused(rows: seq<Txn>, id: Id) {
    id != "" && forall i | 0 <= i < |rows| :: rows[i].id != id && rows[i].parent != id
  }

  predicate NotInflightId(rows: seq<Txn>, id: Id) {
    forall i | 0 <= i < |rows| :: rows[i].status == Inflight ==> rows[i].id != id
  }

  predicate NewRow(rows: seq<Txn>, t: Txn) {
    Unused(rows, t.id) && t.parent != t.id && NotInflightId(rows, t.parent)
  }

  /** What the callers see to: generated ids are new, an ordinary transaction is not filed
      under an INFLIGHT row, and only waiting or rejected rows are inserted without touching
      the balances. A transaction recorded without a status is a net roll. */
  predicate WellFormed(store: Store, step: Step) {
    match step
    case Insert(row) => NewRow(store.rows, row) && row.status in {Queued, Scheduled, Rejected}
    case Record(t) => NewRow(store.rows, t) && t.status in {Queued, Scheduled, Applied, Unset}
    case CommitStep(id, _, stamp) => Unused(store.rows, stamp.id) && stamp.id != id
    case VoidStep(id, stamp) => Unused(store.rows, stamp.id) && stamp.id != id
    case Recompute(_) => true
  }

  function Exec(store: Store, steps: seq<Step>, checks: bool): Store
    decreases |steps|
  {
    if steps == [] then store else Exec(Next(store, steps[0], checks), steps[1..], checks)
  }

  /** Only what gets through has to be well formed: a copy that is delivered again fails on its
      reference, whatever its id. */
  predicate Admissible(store: Store, step: Step, checks: bool) {
    Attempt(store, step, checks).Ok? ==> WellFormed(store, step)
  }

  predicate AdmissibleRun(store: Store, steps: seq<Step>, checks: bool)
    decreases |steps|
  {
    steps == []
      || (Admissible(store, steps[0], checks) && AdmissibleRun(Next(store, steps[0], checks), steps[1..], checks))
  }

  // ---- the invariant ----------------------------------------------------------------------

  function SideOf(a: Amounts, debit: bool): int {
    if debit then a.debit else a.credit
  }

  function HoldSideOf(a: Amounts, debit: bool): int {
    if debit then a.inflightDebit else a.inflightCredit
  }

  /** One balance agrees with a replay of the rows. */
  predicate Replays(a: Amounts, rows: seq<Txn>, id: Id) {
    && a.Coherent()
    && (forall debit :: SideOf(a, debit) == Settled(rows, id, debit))
    && (forall debit :: HoldSideOf(a, debit) == Held(rows, rows, id, debit))
  }

  predicate AllReplay(store: Store) {
    forall id <- store.balances :: Replays(store.balances[id].amounts, store.rows, id)
  }

  predicate AllCoherent(table: Table) {
    forall id <- table :: table[id].amounts.Coherent()
  }

  /** Every unit of an INFLIGHT transaction is committed, voided or still held. */
  predicate Accounted(rows: seq<Txn>, t: Txn) {
    t.amount == Committed(rows, t.id) + ChildSum(rows, t.id, Void) + HoldOf(rows, t)
  }

  predicate AllAccounted(rows: seq<Txn>) {
    forall i | 0 <= i < |rows| :: rows[i].status == Inflight ==> Accounted(rows, rows[i])
  }

  /** Rows that moved something did so between two different stored balances. */
  predicate Placed(store: Store) {
    forall i | 0 <= i < |store.rows| :: store.rows[i].status in {Applied, Inflight, Unset} ==>
      var t := store.rows[i];
      t.source in store.balances && t.destination in store.balances && t.source != t.destination && t.amount > 0
        && t.id != ""
  }

  predicate Inv(store: Store) {
    && DistinctRows(store.rows) && UniqueReferences(store.rows)
    && Placed(store) && AllAccounted(store.rows) && AllReplay(store)
  }

  // ---- one more row -----------------------------------------------------------------------

  lemma {:induction false} OneMore(rows: seq<Txn>, c: Txn, id: Id)
    ensures forall status ::
      ChildSum(rows + [c], id, status) ==
      ChildSum(rows, id, status) + if c.parent == id && c.status == status then c.amount else 0
    ensures IsVoided(rows + [c], id) <==> IsVoided(rows, id) || (c.parent == id && c.status == Void)
    ensures forall status, debit ::
      Moved(rows + [c], status, id, debit) ==
      Moved(rows, status, id, debit) + if c.status == status && End(c, debit) == id then c.amount else 0
  {
    assert (rows + [c])[..|rows|] == rows && (rows + [c])[|rows|] == c;
    if IsVoided(rows, id) {
      var i :| 0 <= i < |rows| && rows[i].parent == id && rows[i].status == Void;
      assert (rows + [c])[i] == rows[i];
    }
  }

  lemma {:induction false} NoChildren(rows: seq<Txn>, id: Id, status: Status)
    requires forall i | 0 <= i < |rows| :: rows[i].parent == id ==> rows[i].status != status
    ensures ChildSum(rows, id, status) == 0
  {
    if rows != [] {
      NoChildren(rows[..|rows| - 1], id, status);
    }
  }

  /** A row filed under no INFLIGHT row leaves every hold as it was. */
  lemma {:induction false} HeldFrame(some: seq<Txn>, rows: seq<Txn>, c: Txn, id: Id, debit: bool)
    requires NotInflightId(some, c.parent)
    ensures Held(some, rows + [c], id, debit) == Held(some, rows, id, debit)
  {
    if some != [] {
      HeldFrame(some[..|some| - 1], rows, c, id, debit);
      OneMore(rows, c, some[|some| - 1].id);
    }
  }

  /** A child changes the hold of its parent and of nothing else. */
  lemma {:induction false} HeldDelta(some: seq<Txn>, rows: seq<Txn>, c: Txn, id: Id, debit: bool, k: nat)
    requires DistinctRows(some) && k < |some| && some[k].status == Inflight && c.parent == some[k].id
    ensures Held(some, rows + [c], id, debit) ==
      Held(some, rows, id, debit) +
        if End(some[k], debit) == id then HoldOf(rows + [c], some[k]) - HoldOf(rows, some[k]) else 0
  {
    var last := |some| - 1;
    OneMore(rows, c, some[last].id);
    if k == last {
      HeldFrame(some[..last], rows, c, id, debit);
    } else {
      assert some[k].id != some[last].id;
      HeldDelta(some[..last], rows, c, id, debit, k);
    }
  }

  /** What a posting adds to the settled and to the held column it touches. */
  function Shift(t: Txn): (int, int) {
    match t.status
    case Commit => (t.amount, -t.amount)
    case Void => (0, -t.amount)
    case _ => if t.inflight then (0, t.amount) else (t.amount, 0)
  }

  predicate ShiftedBy(a: Amounts, b: Amounts, t: Txn, debit: bool, hit: bool) {
    && SideOf(b, debit) == SideOf(a, debit) + (if hit then Shift(t).0 else 0)
    && HoldSideOf(b, debit) == HoldSideOf(a, debit) + (if hit then Shift(t).1 else 0)
  }

  lemma {:induction false} SourceShift(t: Txn, a: Amounts, queued: int)
    requires a.Coherent() && SourceSide(t, a, queued).Ok?
    ensures var b := SourceSide(t, a, queued).value;
      b.Coherent() && ShiftedBy(a, b, t, true, true) && ShiftedBy(a, b, t, false, false)
  {
  }

  lemma {:induction false} DestinationShift(t: Txn, a: Amounts)
    requires a.Coherent() && DestinationSide(t, a).Ok?
    ensures var b := DestinationSide(t, a).value;
      b.Coherent() && ShiftedBy(a, b, t, false, true) && ShiftedBy(a, b, t, true, false)
  {
  }

  predicate AllShifted(before: Table, after: Table, t: Txn) {
    && after.Keys == before.Keys
    && forall id <- after ::
         && after[id].amounts.Coherent()
         && ShiftedBy(before[id].amounts, after[id].amounts, t, true, t.source == id)
         && ShiftedBy(before[id].amounts, after[id].amounts, t, false, t.destination == id)
  }

  lemma {:induction false} SingleShifts(store: Store, t: Txn, queued: int)
    requires SingleWith(store, t, queued).Ok? && t.amount != 0 && t.source != t.destination
    requires AllCoherent(store.balances)
    ensures
      var after := SingleWith(store, t, queued).value;
      && after.rows == store.rows + [Finalized(t)] && UniqueReferences(after.rows)
      && t.source in after.balances && t.destination in after.balances
      && AllShifted(store.balances, after.balances, t)
  {
    SingleEffect(store, t, queued);
    var s, d := store.balances[t.source].amounts, store.balances[t.destination].amounts;
    SourceShift(t, s, queued);
    DestinationShift(t, d);
  }

  lemma {:induction false} CommittedGrows(rows: seq<Txn>, more: seq<Txn>, id: Id)
    requires forall i | 0 <= i < |more| :: more[i].status == Applied ==> more[i].amount >= 0
    ensures Committed(rows, id) <= Committed(rows + more, id)
  {
    if more == [] {
      assert rows + more == rows;
    } else {
      var n := |more| - 1;
      CommittedGrows(rows, more[..n], id);
      assert (rows + more)[..|rows + more| - 1] == rows + more[..n];
    }
  }

  // ---- holds after one more row -----------------------------------------------------------

  lemma {:induction false} NewRowHasNoChildren(rows: seq<Txn>, c: Txn)
    requires NewRow(rows, c)
    ensures Committed(rows + [c], c.id) == 0 && ChildSum(rows + [c], c.id, Void) == 0 && !IsVoided(rows + [c], c.id)
  {
    OneMore(rows, c, c.id);
    NoChildren(rows, c.id, Applied);
    NoChildren(rows, c.id, Void);
  }

  lemma {:induction false} HeldAfterNewRow(rows: seq<Txn>, c: Txn, id: Id, debit: bool)
    requires NewRow(rows, c) && (c.status == Inflight ==> c.amount > 0)
    ensures Held(rows + [c], rows + [c], id, debit) ==
      Held(rows, rows, id, debit) + if c.status == Inflight && End(c, debit) == id then c.amount else 0
  {
    assert (rows + [c])[..|rows|] == rows;
    HeldFrame(rows, rows, c, id, debit);
    NewRowHasNoChildren(rows, c);
  }

  /** A child that takes no more than its parent holds, and all of it when it voids. */
  predicate Takes(rows: seq<Txn>, c: Txn, t: Txn) {
    && c.parent == t.id && c.status in {Applied, Void} && !IsVoided(rows, t.id)
    && 0 < c.amount <= HoldOf(rows, t) && (c.status == Void ==> c.amount == HoldOf(rows, t))
    && c.source == t.source && c.destination == t.destination
  }

  lemma {:induction false} HoldAfterChild(rows: seq<Txn>, c: Txn, t: Txn)
    requires Takes(rows, c, t)
    ensures HoldOf(rows + [c], t) == HoldOf(rows, t) - c.amount
    ensures Accounted(rows, t) ==> Accounted(rows + [c], t)
  {
    OneMore(rows, c, t.id);
  }

  lemma {:induction false} HeldAfterChild(rows: seq<Txn>, c: Txn, id: Id, debit: bool, k: nat)
    requires DistinctRows(rows) && k < |rows| && rows[k].status == Inflight && Takes(rows, c, rows[k])
    ensures Held(rows + [c], rows + [c], id, debit) ==
      Held(rows, rows, id, debit) - if End(c, debit) == id then c.amount else 0
  {
    assert (rows + [c])[..|rows|] == rows;
    HeldDelta(rows, rows, c, id, debit, k);
    HoldAfterChild(rows, c, rows[k]);
  }

  lemma {:induction false} AccountedAfterNewRow(rows: seq<Txn>, c: Txn)
    requires NewRow(rows, c) && AllAccounted(rows) && (c.status == Inflight ==> c.amount > 0)
    ensures AllAccounted(rows + [c])
  {
    NewRowHasNoChildren(rows, c);
    forall i | 0 <= i < |rows| && rows[i].status == Inflight
      ensures Accounted(rows + [c], rows[i])
    {
      OneMore(rows, c, rows[i].id);
    }
  }

  lemma {:induction false} AccountedAfterChild(rows: seq<Txn>, c: Txn, k: nat)
    requires DistinctRows(rows) && AllAccounted(rows)
    requires k < |rows| && rows[k].status == Inflight && Takes(rows, c, rows[k])
    ensures AllAccounted(rows + [c])
  {
    forall i | 0 <= i < |rows| && rows[i].status == Inflight
      ensures Accounted(rows + [c], rows[i])
    {
      OneMore(rows, c, rows[i].id);
      if i == k { HoldAfterChild(rows, c, rows[k]); }
    }
  }

  lemma {:induction false} DistinctAfter(rows: seq<Txn>, c: Txn)
    requires DistinctRows(rows) && Unused(rows, c.id)
    ensures DistinctRows(rows + [c])
  {
  }

  lemma {:induction false} FoundAt(rows: seq<Txn>, id: Id) returns (k: nat)
    requires Find(rows, id).Some?
    ensures k < |rows| && rows[k] == Find(rows, id).value && rows[k].id == id
  {
    if rows[|rows| - 1].id == id {
      k := |rows| - 1;
    } else {
      k := FoundAt(rows[..|rows| - 1], id);
    }
  }

  lemma {:induction false} FindsIt(rows: seq<Txn>, k: nat)
    requires DistinctRows(rows) && k < |rows|
    ensures Find(rows, rows[k].id) == Some(rows[k])
  {
    if k < |rows| - 1 {
      assert rows[k].id != rows[|rows| - 1].id;
      FindsIt(rows[..|rows| - 1], k);
    }
  }

  /** An INFLIGHT row without a void holds exactly what has not been committed. */
  lemma {:induction false} HoldIsRemainder(rows: seq<Txn>, t: Txn)
    requires Accounted(rows, t) && !IsVoided(rows, t.id)
    ensures HoldOf(rows, t) == t.amount - Committed(rows, t.id)
  {
    NoChildren(rows, t.id, Void);
  }

  // ---- every step keeps the invariant -------------------------------------------------------

  lemma {:induction false} RecordReplaysSide(rows: seq<Txn>, t: Txn, a: Amounts, b: Amounts, id: Id, debit: bool)
    requires NewRow(rows, Finalized(t)) && t.status in {Queued, Scheduled, Applied, Unset} && t.amount > 0
    requires ShiftedBy(a, b, t, debit, End(t, debit) == id)
    requires SideOf(a, debit) == Settled(rows, id, debit) && HoldSideOf(a, debit) == Held(rows, rows, id, debit)
    ensures SideOf(b, debit) == Settled(rows + [Finalized(t)], id, debit)
    ensures HoldSideOf(b, debit) == Held(rows + [Finalized(t)], rows + [Finalized(t)], id, debit)
  {
    OneMore(rows, Finalized(t), id);
    HeldAfterNewRow(rows, Finalized(t), id, debit);
  }

  lemma {:induction false} RecordReplays(rows: seq<Txn>, t: Txn, a: Amounts, b: Amounts, id: Id)
    requires NewRow(rows, Finalized(t)) && t.status in {Queued, Scheduled, Applied, Unset} && t.amount > 0
    requires Replays(a, rows, id) && b.Coherent()
    requires ShiftedBy(a, b, t, true, t.source == id) && ShiftedBy(a, b, t, false, t.destination == id)
    ensures Replays(b, rows + [Finalized(t)], id)
  {
    RecordReplaysSide(rows, t, a, b, id, true);
    RecordReplaysSide(rows, t, a, b, id, false);
  }

  lemma {:induction false} RecordKeeps(store: Store, t: Txn, queued: int)
    requires Inv(store) && WellFormed(store, Record(t)) && SingleWith(store, t, queued).Ok?
    ensures Inv(SingleWith(store, t, queued).value)
  {
    var after, c := SingleWith(store, t, queued).value, Finalized(t);
    if t.source == t.destination && t.amount != 0 { SelfTransferFailsAlone(store, t, queued); }
    AllCoherentNow(store);
    SingleShifts(store, t, queued);
    DistinctAfter(store.rows, c);
    AccountedAfterNewRow(store.rows, c);
    forall id <- after.balances
      ensures Replays(after.balances[id].amounts, after.rows, id)
    {
      RecordReplays(store.rows, t, store.balances[id].amounts, after.balances[id].amounts, id);
    }
  }

  lemma {:induction false} AllCoherentNow(store: Store)
    requires AllReplay(store)
    ensures AllCoherent(store.balances)
  {
    forall id <- store.balances ensures store.balances[id].amounts.Coherent() {
      assert Replays(store.balances[id].amounts, store.rows, id);
    }
  }

  lemma {:induction false} ChildReplays(rows: seq<Txn>, child: Txn, k: nat, a: Amounts, b: Amounts, id: Id)
    requires DistinctRows(rows) && k < |rows| && rows[k].status == Inflight
    requires child.status in {Commit, Void} && !child.inflight && Takes(rows, Finalized(child), rows[k])
    requires Replays(a, rows, id) && b.Coherent()
    requires ShiftedBy(a, b, child, true, child.source == id) && ShiftedBy(a, b, child, false, child.destination == id)
    ensures Replays(b, rows + [Finalized(child)], id)
  {
    var c := Finalized(child);
    OneMore(rows, c, id);
    HeldAfterChild(rows, c, id, true, k);
    HeldAfterChild(rows, c, id, false, k);
    forall debit: bool
      ensures SideOf(b, debit) == Settled(rows + [c], id, debit)
        && HoldSideOf(b, debit) == Held(rows + [c], rows + [c], id, debit)
    {
      assert SideOf(a, debit) == Settled(rows, id, debit) && HoldSideOf(a, debit) == Held(rows, rows, id, debit);
      assert debit == true || debit == false;
    }
  }

  lemma {:induction false} ChildReplaysAll(store: Store, child: Txn, k: nat, checks: bool)
    requires Inv(store) && k < |store.rows| && store.rows[k].status == Inflight
    requires child.status in {Commit, Void} && !child.inflight && Unused(store.rows, child.id)
    requires Takes(store.rows, Finalized(child), store.rows[k])
    requires Single(store, child, checks).Ok?
    ensures AllReplay(Single(store, child, checks).value)
  {
    var after := Single(store, child, checks).value;
    SingleShifts(store, child, QueuedDebit(store.rows, child.source, checks));
    forall id <- after.balances
      ensures Replays(after.balances[id].amounts, after.rows, id)
    {
      ChildReplays(store.rows, child, k, store.balances[id].amounts, after.balances[id].amounts, id);
    }
  }

  lemma {:induction false} ChildKeeps(store: Store, child: Txn, k: nat, checks: bool)
    requires Inv(store) && k < |store.rows| && store.rows[k].status == Inflight
    requires child.status in {Commit, Void} && !child.inflight && Unused(store.rows, child.id)
    requires Takes(store.rows, Finalized(child), store.rows[k])
    requires Single(store, child, checks).Ok?
    ensures Inv(Single(store, child, checks).value)
  {
    ChildReplaysAll(store, child, k, checks);
    SingleShifts(store, child, QueuedDebit(store.rows, child.source, checks));
    DistinctAfter(store.rows, Finalized(child));
    AccountedAfterChild(store.rows, Finalized(child), k);
  }

  lemma {:induction false} InsertKeeps(store: Store, row: Txn)
    requires Inv(store) && WellFormed(store, Insert(row)) && UniqueReferences(store.rows + [row])
    ensures Inv(store.(rows := store.rows + [row]))
  {
    DistinctAfter(store.rows, row);
    AccountedAfterNewRow(store.rows, row);
    forall id <- store.balances
      ensures Replays(store.balances[id].amounts, store.rows + [row], id)
    {
      assert Replays(store.balances[id].amounts, store.rows, id);
      OneMore(store.rows, row, id);
      HeldAfterNewRow(store.rows, row, id, true);
      HeldAfterNewRow(store.rows, row, id, false);
    }
  }

  /** Rebuilding the holds of a balance changes its version and nothing else. */
  lemma {:induction false} RecomputeIsNoOp(store: Store, id: Id)
    requires Inv(store) && id in store.balances
    ensures RecomputeHolds(store, id) ==
      Ok(store.(balances := store.balances[id := store.balances[id].(version := store.balances[id].version + 1)]))
  {
    assert Replays(store.balances[id].amounts, store.rows, id);
    var a := store.balances[id].amounts;
    assert HoldSideOf(a, true) == Held(store.rows, store.rows, id, true);
    assert HoldSideOf(a, false) == Held(store.rows, store.rows, id, false);
  }

  /** And whatever has become of its hold columns and its version, rebuilding puts the balance right. */
  lemma {:induction false} RecomputeRepairs(store: Store, id: Id, damaged: Versioned)
    requires Inv(store) && id in store.balances
    requires
      var a, b := store.balances[id].amounts, damaged.amounts;
      b.balance == a.balance && b.credit == a.credit && b.debit == a.debit
    ensures
      var r := RecomputeHolds(store.(balances := store.balances[id := damaged]), id);
      r == Ok(store.(balances := store.balances[id := Versioned(store.balances[id].amounts, damaged.version + 1)]))
  {
    var a := store.balances[id].amounts;
    assert Replays(a, store.rows, id);
    assert HoldSideOf(a, true) == Held(store.rows, store.rows, id, true);
    assert HoldSideOf(a, false) == Held(store.rows, store.rows, id, false);
    var broken := store.balances[id := damaged];
    assert broken[id := Versioned(a, damaged.version + 1)] == store.balances[id := Versioned(a, damaged.version + 1)];
  }

  lemma {:induction false} CommitKeeps(store: Store, id: Id, amount: int, stamp: Stamp, checks: bool)
    requires Inv(store) && WellFormed(store, CommitStep(id, amount, stamp))
    requires CommitLeg(store, id, amount, stamp, checks).Ok?
    ensures Inv(CommitLeg(store, id, amount, stamp, checks).value)
  {
    var k := FoundAt(store.rows, id);
    var t := store.rows[k];
    HoldIsRemainder(store.rows, t);
    var part := CommitAmount(t, t.amount - Committed(store.rows, id), amount).value;
    assert CommitLeg(store, id, amount, stamp, checks) == Single(store, Child(t, Commit, part, stamp), checks);
    ChildKeeps(store, Child(t, Commit, part, stamp), k, checks);
  }

  lemma {:induction false} VoidKeeps(store: Store, id: Id, stamp: Stamp, checks: bool)
    requires Inv(store) && WellFormed(store, VoidStep(id, stamp)) && VoidLeg(store, id, stamp, checks).Ok?
    ensures Inv(VoidLeg(store, id, stamp, checks).value)
  {
    var k := FoundAt(store.rows, id);
    var t := store.rows[k];
    HoldIsRemainder(store.rows, t);
    var child := Child(t, Void, t.amount - Committed(store.rows, id), stamp);
    assert VoidLeg(store, id, stamp, checks) == Single(store, child, checks);
    ChildKeeps(store, child, k, checks);
  }

  lemma {:induction false} StepKeeps(store: Store, step: Step, checks: bool)
    requires Inv(store) && Admissible(store, step, checks)
    ensures Inv(Next(store, step, checks))
  {
    if Attempt(store, step, checks).Ok? {
      match step
      case Insert(row) => InsertKeeps(store, row);
      case Record(t) => RecordKeeps(store, t, QueuedDebit(store.rows, t.source, checks));
      case CommitStep(id, amount, stamp) => CommitKeeps(store, id, amount, stamp, checks);
      case VoidStep(id, stamp) => VoidKeeps(store, id, stamp, checks);
      case Recompute(id) => RecomputeIsNoOp(store, id);
    }
  }

  /** On every run, the stored fields agree with a replay of the rows and every INFLIGHT
      transaction is fully accounted for. */
  lemma {:induction false} RunKeeps(store: Store, steps: seq<Step>, checks: bool)
    requires Inv(store) && AdmissibleRun(store, steps, checks)
    ensures Inv(Exec(store, steps, checks))
    decreases |steps|
  {
    if steps != [] {
      StepKeeps(store, steps[0], checks);
      RunKeeps(Next(store, steps[0], checks), steps[1..], checks);
    }
  }

  predicate Untouched(table: Table) {
    forall id <- table :: table[id].amounts == ZeroAmounts
  }

  lemma {:induction false} EmptyReplays(id: Id)
    ensures Replays(ZeroAmounts, [], id)
  {
    assert Held([], [], id, true) == 0 && Held([], [], id, false) == 0;
    assert Settled([], id, true) == 0 && Settled([], id, false) == 0;
  }

  lemma {:induction false} EmptyLedgerHolds(table: Table)
    requires Untouched(table)
    ensures Inv(Store([], table))
  {
    var store := Store([], table);
    assert DistinctRows(store.rows) && UniqueReferences(store.rows) && Placed(store) && AllAccounted(store.rows);
    forall id <- store.balances
      ensures Replays(store.balances[id].amounts, store.rows, id)
    {
      EmptyReplays(id);
    }
  }

  // ---- replay of the APPLIED rows alone -----------------------------------------------------

  predicate NoRollOn(rows: seq<Txn>, id: Id) {
    forall i | 0 <= i < |rows| :: rows[i].status == Unset ==> rows[i].source != id && rows[i].destination != id
  }

  /** The settled columns are what the APPLIED rows add up to. */
  predicate AppliedReplays(a: Amounts, rows: seq<Txn>, id: Id) {
    SideOf(a, true) == Moved(rows, Applied, id, true) && SideOf(a, false) == Moved(rows, Applied, id, false)
  }

  lemma {:induction false} MovedNothingIff(rows: seq<Txn>, status: Status, id: Id, debit: bool)
    requires forall i | 0 <= i < |rows| :: rows[i].status == status ==> rows[i].amount > 0
    ensures Moved(rows, status, id, debit) >= 0
    ensures Moved(rows, status, id, debit) == 0 <==>
      forall i | 0 <= i < |rows| :: rows[i].status == status ==> End(rows[i], debit) != id
  {
    if rows != [] {
      var n := |rows| - 1;
      MovedNothingIff(rows[..n], status, id, debit);
      assert forall i | 0 <= i < n :: rows[..n][i] == rows[i];
    }
  }

  /** In a reachable ledger the APPLIED rows alone explain a balance exactly when no row stored
      without a status touches it. */
  lemma {:induction false} AppliedReplaysIff(store: Store, id: Id)
    requires Inv(store) && id in store.balances
    ensures AppliedReplays(store.balances[id].amounts, store.rows, id) <==> NoRollOn(store.rows, id)
  {
    var a := store.balances[id].amounts;
    assert Replays(a, store.rows, id);
    assert SideOf(a, true) == Settled(store.rows, id, true) && SideOf(a, false) == Settled(store.rows, id, false);
    MovedNothingIff(store.rows, Unset, id, true);
    MovedNothingIff(store.rows, Unset, id, false);
    forall i | 0 <= i < |store.rows|
      ensures (End(store.rows[i], true) != id && End(store.rows[i], false) != id) <==>
        (store.rows[i].source != id && store.rows[i].destination != id)
    {
    }
  }

  predicate NoRolls(rows: seq<Txn>) {
    forall i | 0 <= i < |rows| :: rows[i].status != Unset
  }

  predicate RollFree(steps: seq<Step>) {
    forall i | 0 <= i < |steps| :: steps[i].Record? ==> steps[i].t.status != Unset
  }

  /** A ledger without rolls is at every moment the replay of its APPLIED rows. */
  lemma {:induction false} RollFreeRunReplays(store: Store, steps: seq<Step>, checks: bool)
    requires Inv(store) && NoRolls(store.rows) && AdmissibleRun(store, steps, checks) && RollFree(steps)
    ensures NoRolls(Exec(store, steps, checks).rows)
    ensures forall id <- Exec(store, steps, checks).balances ::
      AppliedReplays(Exec(store, steps, checks).balances[id].amounts, Exec(store, steps, checks).rows, id)
    decreases |steps|
  {
    if steps == [] {
      forall id <- store.balances ensures AppliedReplays(store.balances[id].amounts, store.rows, id) {
        AppliedReplaysIff(store, id);
      }
    } else {
      var next := Next(store, steps[0], checks);
      StepKeeps(store, steps[0], checks);
      if next.rows != store.rows {
        var c := AppendedRow(store, steps[0], checks);
      }
      RollFreeRunReplays(next, steps[1..], checks);
    }
  }

  // ---- conservation -------------------------------------------------------------------------

  function SumOver(ids: seq<Id>, f: Id -> int): int {
    if ids == [] then 0 else SumOver(ids[..|ids| - 1], f) + f(ids[|ids| - 1])
  }

  lemma {:induction false} SumHit(ids: seq<Id>, f: Id -> int, g: Id -> int, x: Id, d: int)
    requires Distinct(ids)
    requires forall id <- ids :: g(id) == f(id) + if id == x then d else 0
    ensures SumOver(ids, g) == SumOver(ids, f) + if x in ids then d else 0
  {
    if ids != [] {
      SumHit(ids[..|ids| - 1], f, g, x, d);
      assert ids == ids[..|ids| - 1] + [ids[|ids| - 1]];
    }
  }

  lemma {:induction false} SumZero(ids: seq<Id>, f: Id -> int)
    requires forall id <- ids :: f(id) == 0
    ensures SumOver(ids, f) == 0
  {
    if ids != [] {
      SumZero(ids[..|ids| - 1], f);
    }
  }

  lemma {:induction false} SumDifference(ids: seq<Id>, f: Id -> int, g: Id -> int, h: Id -> int)
    requires forall id <- ids :: h(id) == f(id) - g(id)
    ensures SumOver(ids, h) == SumOver(ids, f) - SumOver(ids, g)
  {
    if ids != [] {
      SumDifference(ids[..|ids| - 1], f, g, h);
    }
  }

  function StatusTotal(rows: seq<Txn>, status: Status): int {
    if rows == [] then 0
    else
      StatusTotal(rows[..|rows| - 1], status) +
      if rows[|rows| - 1].status == status then rows[|rows| - 1].amount else 0
  }

  function LiveTotal(some: seq<Txn>, rows: seq<Txn>): int {
    if some == [] then 0
    else
      LiveTotal(some[..|some| - 1], rows) +
      if some[|some| - 1].status == Inflight then HoldOf(rows, some[|some| - 1]) else 0
  }

  predicate EndsListed(rows: seq<Txn>, ids: seq<Id>) {
    forall i | 0 <= i < |rows| :: rows[i].status in {Applied, Inflight, Unset} ==>
      rows[i].source in ids && rows[i].destination in ids
  }

  /** Both sides of the ledger add up to the same total, row by row. */
  lemma {:induction false} MovedTotal(rows: seq<Txn>, status: Status, ids: seq<Id>, debit: bool)
    requires Distinct(ids) && EndsListed(rows, ids) && status in {Applied, Unset}
    ensures SumOver(ids, id => Moved(rows, status, id, debit)) == StatusTotal(rows, status)
  {
    if rows == [] {
      SumZero(ids, id => Moved(rows, status, id, debit));
    } else {
      var rest, t := rows[..|rows| - 1], rows[|rows| - 1];
      MovedTotal(rest, status, ids, debit);
      SumHit(ids, id => Moved(rest, status, id, debit), id => Moved(rows, status, id, debit), End(t, debit),
             if t.status == status then t.amount else 0);
    }
  }

  lemma {:induction false} SettledTotal(rows: seq<Txn>, ids: seq<Id>, debit: bool)
    requires Distinct(ids) && EndsListed(rows, ids)
    ensures SumOver(ids, id => Settled(rows, id, debit)) == StatusTotal(rows, Applied) + StatusTotal(rows, Unset)
  {
    MovedTotal(rows, Applied, ids, debit);
    MovedTotal(rows, Unset, ids, debit);
    SumDifference(ids, id => Settled(rows, id, debit), id => Moved(rows, Applied, id, debit),
      id => Moved(rows, Unset, id, debit));
  }

  lemma {:induction false} HeldTotal(some: seq<Txn>, rows: seq<Txn>, ids: seq<Id>, debit: bool)
    requires Distinct(ids) && EndsListed(some, ids)
    ensures SumOver(ids, id => Held(some, rows, id, debit)) == LiveTotal(some, rows)
  {
    if some == [] {
      SumZero(ids, id => Held(some, rows, id, debit));
    } else {
      var rest, t := some[..|some| - 1], some[|some| - 1];
      HeldTotal(rest, rows, ids, debit);
      SumHit(ids, id => Held(rest, rows, id, debit), id => Held(some, rows, id, debit), End(t, debit),
             if t.status == Inflight then HoldOf(rows, t) else 0);
    }
  }

  ghost predicate Lists(ids: seq<Id>, table: Table) {
    Distinct(ids) && forall id :: id in ids <==> id in table
  }

  /** In every reachable state the balances of the whole ledger sum to zero, and so do the
      holds. */
  lemma {:induction false} ZeroSum(store: Store, ids: seq<Id>)
    requires Inv(store) && Lists(ids, store.balances)
    ensures SumOver(ids, id => if id in store.balances then store.balances[id].amounts.balance else 0) == 0
    ensures SumOver(ids, id => if id in store.balances then store.balances[id].amounts.inflight else 0) == 0
  {
    var rows := store.rows;
    assert EndsListed(rows, ids);
    SettledTotal(rows, ids, true);
    SettledTotal(rows, ids, false);
    HeldTotal(rows, rows, ids, true);
    HeldTotal(rows, rows, ids, false);
    var balance := (id: Id) => if id in store.balances then store.balances[id].amounts.balance else 0;
    var hold := (id: Id) => if id in store.balances then store.balances[id].amounts.inflight else 0;
    forall id <- ids
      ensures balance(id) == Settled(rows, id, false) - Settled(rows, id, true)
      ensures hold(id) == Held(rows, rows, id, false) - Held(rows, rows, id, true)
    {
      var a := store.balances[id].amounts;
      assert Replays(a, rows, id);
      assert SideOf(a, true) == Settled(rows, id, true) && SideOf(a, false) == Settled(rows, id, false);
      assert HoldSideOf(a, true) == Held(rows, rows, id, true) && HoldSideOf(a, false) == Held(rows, rows, id, false);
    }
    SumDifference(ids, id => Settled(rows, id, false), id => Settled(rows, id, true), balance);
    SumDifference(ids, id => Held(rows, rows, id, false), id => Held(rows, rows, id, true), hold);
    assert SumOver(ids, balance) == 0 && SumOver(ids, hold) == 0;
  }

  // ---- the life of one INFLIGHT transaction ---------------------------------------------------

  /** The hold of an INFLIGHT transaction is on both its balances in full. */
  lemma {:induction false} HoldIsBacked(some: seq<Txn>, rows: seq<Txn>, k: nat, debit: bool)
    requires k < |some| && some[k].status == Inflight
    ensures HoldOf(rows, some[k]) <= Held(some, rows, End(some[k], debit), debit)
  {
    HeldNonNegative(some[..|some| - 1], rows, End(some[k], debit), debit);
    if k < |some| - 1 {
      HoldIsBacked(some[..|some| - 1], rows, k, debit);
    }
  }

  lemma {:induction false} HeldNonNegative(some: seq<Txn>, rows: seq<Txn>, id: Id, debit: bool)
    ensures Held(some, rows, id, debit) >= 0
  {
    if some != [] {
      HeldNonNegative(some[..|some| - 1], rows, id, debit);
    }
  }

  /** What a commit may take, as the caller can see it beforehand. */
  predicate Committable(rows: seq<Txn>, k: nat, amount: int)
    requires k < |rows|
  {
    && rows[k].status == Inflight && !IsVoided(rows, rows[k].id)
    && HoldOf(rows, rows[k]) > 0 && 0 <= amount <= HoldOf(rows, rows[k])
  }

  lemma {:induction false} ChildPosts(store: Store, k: nat, child: Txn, checks: bool)
    requires Inv(store) && k < |store.rows| && store.rows[k].status == Inflight
    requires child.status in {Commit, Void} && 0 < child.amount <= HoldOf(store.rows, store.rows[k])
    requires child.source == store.rows[k].source && child.destination == store.rows[k].destination
    ensures Single(store, child, checks).Ok? <==> !HasReference(store.rows, child.reference)
  {
    var t := store.rows[k];
    HoldIsBacked(store.rows, store.rows, k, true);
    HoldIsBacked(store.rows, store.rows, k, false);
    var s, d := store.balances[t.source], store.balances[t.destination];
    assert Replays(s.amounts, store.rows, t.source) && Replays(d.amounts, store.rows, t.destination);
    assert HoldSideOf(s.amounts, true) == Held(store.rows, store.rows, t.source, true);
    assert HoldSideOf(d.amounts, false) == Held(store.rows, store.rows, t.destination, false);
    var debited := SourceSide(child, s.amounts, QueuedDebit(store.rows, t.source, checks)).value;
    var credited := DestinationSide(child, d.amounts).value;
    PairWritten(store.balances, Write(t.source, debited, s.version), Write(t.destination, credited, d.version));
  }

  /** In a reachable state a commit goes through exactly when the amount fits what is left and
      its reference is unused: a missing hold or balance never stands in the way. */
  lemma {:induction false} CommitSucceedsIff(store: Store, k: nat, amount: int, stamp: Stamp, checks: bool)
    requires Inv(store) && k < |store.rows|
    ensures CommitLeg(store, store.rows[k].id, amount, stamp, checks).Ok? <==>
      Committable(store.rows, k, amount) && !HasReference(store.rows, stamp.reference)
  {
    var t := store.rows[k];
    FindsIt(store.rows, k);
    if t.status == Inflight && !IsVoided(store.rows, t.id) {
      HoldIsRemainder(store.rows, t);
      var part := CommitAmount(t, HoldOf(store.rows, t), amount);
      CommittedNonNegative(store, t.id);
      if part.Ok? { ChildPosts(store, k, Child(t, Commit, part.value, stamp), checks); }
    }
  }

  lemma {:induction false} VoidSucceedsIff(store: Store, k: nat, stamp: Stamp, checks: bool)
    requires Inv(store) && k < |store.rows|
    ensures VoidLeg(store, store.rows[k].id, stamp, checks).Ok? <==>
      Committable(store.rows, k, 0) && !HasReference(store.rows, stamp.reference)
  {
    var t := store.rows[k];
    FindsIt(store.rows, k);
    if t.status == Inflight && !IsVoided(store.rows, t.id) {
      HoldIsRemainder(store.rows, t);
      if HoldOf(store.rows, t) > 0 {
        ChildPosts(store, k, Child(t, Void, HoldOf(store.rows, t), stamp), checks);
      }
    }
  }

  /** How a commit is answered, case by case; what is left is the amount less the committed children. */
  lemma {:induction false} CommitAnswers(store: Store, k: nat, amount: int, stamp: Stamp, checks: bool)
    requires Inv(store) && k < |store.rows|
    ensures
      var t, r := store.rows[k], CommitLeg(store, store.rows[k].id, amount, stamp, checks);
      var voided := exists i | 0 <= i < |store.rows| :: store.rows[i].parent == t.id && store.rows[i].status == Void;
      var left := t.amount - ChildSum(store.rows, t.id, Applied);
      if t.status != Inflight then r == Err(NotInflight)
      else if voided then r == Err(AlreadyVoided)
      else if left <= 0 then r == Err(AlreadyCommitted)
      else if amount < 0 then r == Err(NegativeAmount)
      else if amount > t.amount then r == Err(ExceedsOriginal)
      else if amount > left then r == Err(ExceedsRemaining)
      else if HasReference(store.rows, stamp.reference) then r == Err(DuplicateReference)
      else r.Ok?
  {
    var t := store.rows[k];
    FindsIt(store.rows, k);
    if t.status == Inflight && !IsVoided(store.rows, t.id) {
      HoldIsRemainder(store.rows, t);
      CommittedNonNegative(store, t.id);
      CommitSucceedsIff(store, k, amount, stamp, checks);
    }
  }

  lemma {:induction false} VoidAnswers(store: Store, k: nat, stamp: Stamp, checks: bool)
    requires Inv(store) && k < |store.rows|
    ensures
      var t, r := store.rows[k], VoidLeg(store, store.rows[k].id, stamp, checks);
      var voided := exists i | 0 <= i < |store.rows| :: store.rows[i].parent == t.id && store.rows[i].status == Void;
      var left := t.amount - ChildSum(store.rows, t.id, Applied);
      if t.status != Inflight then r == Err(NotInflight)
      else if voided then r == Err(AlreadyVoided)
      else if left <= 0 then r == Err(AlreadyCommitted)
      else if HasReference(store.rows, stamp.reference) then r == Err(DuplicateReference)
      else r.Ok?
  {
    var t := store.rows[k];
    FindsIt(store.rows, k);
    if t.status == Inflight && !IsVoided(store.rows, t.id) {
      HoldIsRemainder(store.rows, t);
      VoidSucceedsIff(store, k, stamp, checks);
    }
  }

  lemma {:induction false} ChildSumNonNegative(rows: seq<Txn>, id: Id)
    requires forall i | 0 <= i < |rows| :: rows[i].status == Applied ==> rows[i].amount > 0
    ensures Committed(rows, id) >= 0
  {
    if rows != [] {
      ChildSumNonNegative(rows[..|rows| - 1], id);
    }
  }

  lemma {:induction false} CommittedNonNegative(store: Store, id: Id)
    requires Inv(store)
    ensures Committed(store.rows, id) >= 0
  {
    ChildSumNonNegative(store.rows, id);
  }

  /** The one child a successful commit adds: as much as was asked for, or everything that is
      left when asked for zero; the hold shrinks by exactly that. */
  lemma {:induction false} CommitTakes(store: Store, k: nat, amount: int, stamp: Stamp, checks: bool)
    requires Inv(store) && k < |store.rows|
    requires CommitLeg(store, store.rows[k].id, amount, stamp, checks).Ok?
    ensures
      var t, after := store.rows[k], CommitLeg(store, store.rows[k].id, amount, stamp, checks).value;
      var taken := if amount == 0 then HoldOf(store.rows, t) else amount;
      && after.rows == store.rows + [Finalized(Child(t, Commit, taken, stamp))]
      && HoldOf(after.rows, t) == HoldOf(store.rows, t) - taken
      && Committed(after.rows, t.id) == Committed(store.rows, t.id) + taken
  {
    CommitSucceedsIff(store, k, amount, stamp, checks);
    var t := store.rows[k];
    FindsIt(store.rows, k);
    HoldIsRemainder(store.rows, t);
    var child := Child(t, Commit, if amount == 0 then HoldOf(store.rows, t) else amount, stamp);
    SingleEffect(store, child, QueuedDebit(store.rows, child.source, checks));
    HoldAfterChild(store.rows, Finalized(child), t);
    OneMore(store.rows, Finalized(child), t.id);
  }

  /** A child of an INFLIGHT row: its ends and currency under a new id and reference, dated when it is
      made, whatever date the row itself carried. */
  predicate IsChildOf(c: Txn, t: Txn, status: Status, amount: int, stamp: Stamp) {
    && c.id == stamp.id && c.reference == stamp.reference && c.parent == t.id && c.source == t.source
    && c.destination == t.destination && c.currency == t.currency && c.amount == amount && c.status == status
    && !c.inflight && c.createdAt == stamp.now && c.effectiveDate == Some(stamp.now)
  }

  lemma {:induction false} CommitAdds(store: Store, k: nat, amount: int, stamp: Stamp, checks: bool)
    requires Inv(store) && k < |store.rows|
    requires CommitLeg(store, store.rows[k].id, amount, stamp, checks).Ok?
    ensures
      var t, rows := store.rows[k], CommitLeg(store, store.rows[k].id, amount, stamp, checks).value.rows;
      var taken := if amount == 0 then t.amount - ChildSum(store.rows, t.id, Applied) else amount;
      |rows| == |store.rows| + 1 && store.rows <= rows && IsChildOf(rows[|store.rows|], t, Applied, taken, stamp)
  {
    CommitSucceedsIff(store, k, amount, stamp, checks);
    CommitTakes(store, k, amount, stamp, checks);
    HoldIsRemainder(store.rows, store.rows[k]);
  }

  /** A void adds one child of everything that was not committed. */
  lemma {:induction false} VoidAdds(store: Store, k: nat, stamp: Stamp, checks: bool)
    requires Inv(store) && k < |store.rows| && VoidLeg(store, store.rows[k].id, stamp, checks).Ok?
    ensures
      var t, rows := store.rows[k], VoidLeg(store, store.rows[k].id, stamp, checks).value.rows;
      var left := t.amount - ChildSum(store.rows, t.id, Applied);
      |rows| == |store.rows| + 1 && store.rows <= rows && IsChildOf(rows[|store.rows|], t, Void, left, stamp)
  {
    var t := store.rows[k];
    FindsIt(store.rows, k);
    var child := Child(t, Void, t.amount - Committed(store.rows, t.id), stamp);
    SingleEffect(store, child, QueuedDebit(store.rows, child.source, checks));
  }

  function Children(rows: seq<Txn>, id: Id): seq<Txn> {
    if rows == [] then []
    else Children(rows[..|rows| - 1], id) + if rows[|rows| - 1].parent == id then [rows[|rows| - 1]] else []
  }

  /** One step of a run: rows are only ever appended, and a transaction with no hold left
      gets no further child. */
  lemma {:induction false} ClosedStep(store: Store, k: nat, step: Step, checks: bool)
    requires Inv(store) && Admissible(store, step, checks)
    requires k < |store.rows| && store.rows[k].status == Inflight && HoldOf(store.rows, store.rows[k]) == 0
    ensures
      var after, t := Next(store, step, checks), store.rows[k];
      && store.rows <= after.rows && HoldOf(after.rows, t) == 0
      && Children(after.rows, t.id) == Children(store.rows, t.id)
  {
    var t := store.rows[k];
    var after := Next(store, step, checks);
    if after.rows != store.rows {
      var c := AppendedRow(store, step, checks);
      assert (store.rows + [c])[..|store.rows|] == store.rows;
      OneMore(store.rows, c, t.id);
      if c.parent == t.id {
        FindsIt(store.rows, k);
        if step.CommitStep? { CommitSucceedsIff(store, k, step.amount, step.stamp, checks); }
        if step.VoidStep? { VoidSucceedsIff(store, k, step.stamp, checks); }
        assert false;
      }
    }
  }

  lemma {:induction false} SingleAppends(store: Store, t: Txn, checks: bool)
    requires Single(store, t, checks).Ok? && Single(store, t, checks).value.rows != store.rows
    ensures Single(store, t, checks).value.rows == store.rows + [Finalized(t)]
  {
  }

  lemma {:induction false} CommitAppends(store: Store, id: Id, amount: int, stamp: Stamp, checks: bool) returns (c: Txn)
    requires CommitLeg(store, id, amount, stamp, checks).Ok?
    requires CommitLeg(store, id, amount, stamp, checks).value.rows != store.rows
    ensures CommitLeg(store, id, amount, stamp, checks).value.rows == store.rows + [c]
    ensures c.parent == id && c.id == stamp.id && c.status in {Applied, Inflight}
  {
    var k := FoundAt(store.rows, id);
    var t := store.rows[k];
    var child := Child(t, Commit, CommitAmount(t, t.amount - Committed(store.rows, id), amount).value, stamp);
    SingleAppends(store, child, checks);
    c := Finalized(child);
  }

  lemma {:induction false} VoidAppends(store: Store, id: Id, stamp: Stamp, checks: bool) returns (c: Txn)
    requires VoidLeg(store, id, stamp, checks).Ok? && VoidLeg(store, id, stamp, checks).value.rows != store.rows
    ensures VoidLeg(store, id, stamp, checks).value.rows == store.rows + [c]
    ensures c.parent == id && c.id == stamp.id && c.status in {Void, Inflight}
  {
    var k := FoundAt(store.rows, id);
    var t := store.rows[k];
    var child := Child(t, Void, t.amount - Committed(store.rows, id), stamp);
    SingleAppends(store, child, checks);
    c := Finalized(child);
  }

  lemma {:induction false} AppendedRow(store: Store, step: Step, checks: bool) returns (c: Txn)
    requires Inv(store) && WellFormed(store, step) && Next(store, step, checks).rows != store.rows
    ensures Next(store, step, checks).rows == store.rows + [c]
    ensures step.Insert? || step.Record? ==> NewRow(store.rows, c)
    ensures c.status == Unset ==> step.Record? && step.t.status == Unset
    ensures if step.Insert? then c == step.row else c.status != Queued
    ensures step.CommitStep? || step.VoidStep? ==> c.parent == step.id && c.id == step.stamp.id
  {
    match step
    case Insert(row) => c := row;
    case Record(t) =>
      SingleAppends(store, t, checks);
      c := Finalized(t);
    case CommitStep(id, amount, stamp) => c := CommitAppends(store, id, amount, stamp, checks);
    case VoidStep(id, stamp) => c := VoidAppends(store, id, stamp, checks);
  }

  /** Once a transaction is voided or fully committed, no run ever adds a child to it. */
  lemma {:induction false} ClosedForever(store: Store, k: nat, steps: seq<Step>, checks: bool)
    requires Inv(store) && AdmissibleRun(store, steps, checks)
    requires k < |store.rows| && store.rows[k].status == Inflight && HoldOf(store.rows, store.rows[k]) == 0
    ensures Children(Exec(store, steps, checks).rows, store.rows[k].id) == Children(store.rows, store.rows[k].id)
    decreases |steps|
  {
    if steps != [] {
      StepKeeps(store, steps[0], checks);
      ClosedStep(store, k, steps[0], checks);
      var after := Next(store, steps[0], checks);
      assert after.rows[k] == store.rows[k];
      ClosedForever(after, k, steps[1..], checks);
    }
  }

  // ---- coalesced batches ------------------------------------------------------------------------

  /** The ids of a batch are new, and no member is filed under an INFLIGHT row or another
      member. */
  predicate NewBatch(rows: seq<Txn>, txns: seq<Txn>) {
    && (forall i | 0 <= i < |txns| :: NewRow(rows, txns[i]))
    && (forall i, j | 0 <= i < |txns| && 0 <= j < |txns| :: txns[i].parent != txns[j].id)
    && (forall i, j | 0 <= i < j < |txns| :: txns[i].id != txns[j].id)
  }

  lemma {:induction false} NewBatchStays(store: Store, txns: seq<Txn>, queued: int)
    requires NewBatch(store.rows, txns) && txns != [] && txns[0].status !in {Commit, Void}
    requires SingleWith(store, txns[0], queued).Ok?
    ensures NewBatch(SingleWith(store, txns[0], queued).value.rows, txns[1..])
  {
    var t := txns[0];
    if t.source == t.destination && t.amount != 0 { SelfTransferFailsAlone(store, t, queued); }
    SingleEffect(store, t, queued);
  }

  lemma {:induction false} SinglesKeep(store: Store, txns: seq<Txn>, checks: bool)
    requires Inv(store) && AllEligible(txns) && NewBatch(store.rows, txns)
    requires Run(store, txns, checks).Ok?
    ensures Inv(Run(store, txns, checks).value)
    decreases |txns|
  {
    if txns != [] {
      var queued := QueuedDebit(store.rows, txns[0].source, checks);
      RecordKeeps(store, txns[0], queued);
      NewBatchStays(store, txns, queued);
      SinglesKeep(Single(store, txns[0], checks).value, txns[1..], checks);
    }
  }

  /** The invariant is about rows and amounts; versions do not come into it. */
  lemma {:induction false} SameAmountsKeep(single: Store, batched: Store)
    requires Inv(single) && batched.rows == single.rows && batched.balances.Keys == single.balances.Keys
    requires forall id <- single.balances :: batched.balances[id].amounts == single.balances[id].amounts
    ensures Inv(batched)
  {
    forall id <- batched.balances
      ensures Replays(batched.balances[id].amounts, batched.rows, id)
    {
      assert Replays(single.balances[id].amounts, single.rows, id);
    }
  }

  /** A coalesced batch keeps the invariant as well: it stands where the single path would. */
  lemma {:induction false} BatchKeeps(store: Store, txns: seq<Txn>, checks: bool)
    requires Inv(store) && AllEligible(txns) && NoSelfTransfer(txns) && NewBatch(store.rows, txns)
    requires checks ==> QueuedNonNegative(store.rows)
    requires Batch(store, txns, checks).Ok?
    ensures Inv(Batch(store, txns, checks).value)
  {
    BatchRefinesRun(store, txns, checks);
    SinglesKeep(store, txns, checks);
    var batched, single := Batch(store, txns, checks).value, Run(store, txns, checks).value;
    forall id <- single.balances ensures batched.balances[id].amounts == single.balances[id].amounts {
      assert RowRefines(store.balances[id], batched.balances[id], single.balances[id], Touches(txns, id));
    }
    SameAmountsKeep(single, batched);
  }

  /** What a commit or void validated still holds as long as nobody else files a child under
      the same transaction; the lock on it sees to that. */
  lemma {:induction false} TakesStays(rows: seq<Txn>, more: seq<Txn>, c: Txn, t: Txn)
    requires forall i | 0 <= i < |more| :: more[i].parent != t.id
    ensures Takes(rows + more, c, t) <==> Takes(rows, c, t)
  {
    if more == [] {
      assert rows + more == rows;
    } else {
      var n := |more| - 1;
      TakesStays(rows, more[..n], c, t);
      assert rows + more == (rows + more[..n]) + [more[n]];
      OneMore(rows + more[..n], more[n], t.id);
    }
  }
}
