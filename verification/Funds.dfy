/** What a balance can spend: what is settled on it, less what it has promised to holds and to the
    queue, and how far overdraft lets it go beyond that (model/model.go:147-205). */
module Funds {
  import opened Wrappers
  import opened Ledger
  import opened Storage
  import opened Execution
  import opened Inflight
  import opened Kernel
  import Concurrency

  /** What is settled and not on hold for somebody else. */
  function Free(a: Amounts): int {
    a.balance - a.inflightDebit
  }

  // ---- one transaction --------------------------------------------------------------------

  /** An ordinary transaction that nothing but its funds can stop. */
  predicate Ready(store: Store, t: Txn) {
    && t.status !in {Commit, Void} && t.amount > 0 && t.source != t.destination
    && t.source in store.balances && t.destination in store.balances
    && UniqueReferences(store.rows) && !HasReference(store.rows, t.reference)
  }

  predicate NoOverdraft(t: Txn) {
    t.overdraftLimit < 0.0 || (t.overdraftLimit == 0.0 && !t.allowOverdraft)
  }

  /** The limit in minor units, rounded to the nearest and halves up. */
  predicate HasLimit(t: Txn, limit: int) {
    t.overdraftLimit > 0.0 && limit as real - 0.5 <= t.overdraftLimit * t.precision < limit as real + 0.5
  }

  /** Without overdraft a transaction goes through exactly when what is free on its source, less
      what is queued there, covers it: a hold counts as spent. */
  lemma {:induction false} PaidForIff(store: Store, t: Txn, queued: int)
    requires Ready(store, t) && NoOverdraft(t)
    ensures
      var a := store.balances[t.source].amounts;
      if a.balance - a.inflightDebit - queued >= t.amount then SingleWith(store, t, queued).Ok?
      else SingleWith(store, t, queued) == Err(InsufficientFunds)
  {
    FundedPosts(store, t, queued);
  }

  /** With a limit it may take what is free below zero, as far as the limit. */
  lemma {:induction false} WithinLimitIff(store: Store, t: Txn, queued: int, limit: int)
    requires Ready(store, t) && HasLimit(t, limit)
    ensures
      var a := store.balances[t.source].amounts;
      var left := a.balance - a.inflightDebit - queued - t.amount;
      if left >= 0 || left >= -limit then SingleWith(store, t, queued).Ok?
      else SingleWith(store, t, queued) == Err(OverdraftExceeded)
  {
    FundedPosts(store, t, queued);
  }

  /** Overdraft without a limit needs no funds at all. */
  lemma {:induction false} UnlimitedGoesThrough(store: Store, t: Txn, queued: int)
    requires Ready(store, t) && t.allowOverdraft && t.overdraftLimit == 0.0
    ensures SingleWith(store, t, queued).Ok?
  {
    FundedPosts(store, t, queued);
  }

  lemma {:induction false} FundedPosts(store: Store, t: Txn, queued: int)
    requires Ready(store, t)
    ensures SingleWith(store, t, queued).Ok? <==> CanProcess(t, store.balances[t.source].amounts, queued).Ok?
    ensures CanProcess(t, store.balances[t.source].amounts, queued).Err? ==>
      SingleWith(store, t, queued) == Err(CanProcess(t, store.balances[t.source].amounts, queued).error)
  {
    var s, d := store.balances[t.source], store.balances[t.destination];
    if CanProcess(t, s.amounts, queued).Ok? {
      var debited, credited := s.amounts.Debited(t.amount, t.inflight), d.amounts.Credited(t.amount, t.inflight);
      PairWritten(store.balances, Write(t.source, debited, s.version), Write(t.destination, credited, d.version));
      NewReference(store.rows, Finalized(t));
    }
  }

  lemma {:induction false} NewReference(rows: seq<Txn>, t: Txn)
    requires UniqueReferences(rows) && !HasReference(rows, t.reference)
    ensures UniqueReferences(rows + [t])
  {
  }

  // ---- how far down a balance can go --------------------------------------------------------

  /** A transaction that takes its source no further below zero than `floor`. */
  predicate KeepsWithin(t: Txn, floor: nat) {
    NoOverdraft(t) || (t.overdraftLimit > 0.0 && t.overdraftLimit * t.precision < floor as real + 0.5)
  }

  lemma {:induction false} PaidKeepsWithin(t: Txn, a: Amounts, queued: int, floor: nat)
    requires KeepsWithin(t, floor) && queued >= 0 && CanProcess(t, a, queued).Ok?
    ensures a.balance - a.inflightDebit - t.amount + floor >= 0
  {
    if t.overdraftLimit > 0.0 {
      assert PreciseLimit(t) <= floor;
    }
  }

  /** Ordinary transactions: from the source its amount, and to the destination, unless held, its
      amount. */
  lemma {:induction false} SingleMovesFree(store: Store, t: Txn, queued: int, id: Id)
    requires AllCoherent(store.balances) && t.status !in {Commit, Void} && SingleWith(store, t, queued).Ok?
    requires id in store.balances
    ensures t.amount > 0 && t.source != t.destination && id in SingleWith(store, t, queued).value.balances
    ensures AllCoherent(SingleWith(store, t, queued).value.balances)
    ensures Free(SingleWith(store, t, queued).value.balances[id].amounts) == Free(store.balances[id].amounts)
      - (if id == t.source then t.amount else 0) + (if id == t.destination && !t.inflight then t.amount else 0)
    ensures id == t.source ==> CanProcess(t, store.balances[id].amounts, queued).Ok?
  {
    if t.source == t.destination { SelfTransferFailsAlone(store, t, queued); }
    SingleShifts(store, t, queued);
    SingleEffect(store, t, queued);
  }

  lemma {:induction false} SingleKeepsFree(store: Store, t: Txn, queued: int, id: Id, floor: nat)
    requires AllCoherent(store.balances) && t.status !in {Commit, Void} && SingleWith(store, t, queued).Ok?
    requires id in store.balances && queued >= 0 && Free(store.balances[id].amounts) + floor >= 0
    requires t.source == id ==> KeepsWithin(t, floor)
    ensures AllCoherent(SingleWith(store, t, queued).value.balances)
    ensures id in SingleWith(store, t, queued).value.balances
    ensures Free(SingleWith(store, t, queued).value.balances[id].amounts) + floor >= 0
  {
    SingleMovesFree(store, t, queued, id);
    if t.source == id { PaidKeepsWithin(t, store.balances[id].amounts, queued, floor); }
  }

  /** A commit takes from the hold what it debits, and a void gives it back: neither lowers what is
      free anywhere. */
  lemma {:induction false} ChildKeepsFree(store: Store, c: Txn, checks: bool, id: Id)
    requires AllCoherent(store.balances) && c.status in {Commit, Void} && !c.inflight
    requires c.amount > 0 && c.source != c.destination && Single(store, c, checks).Ok? && id in store.balances
    ensures id in Single(store, c, checks).value.balances
    ensures Free(Single(store, c, checks).value.balances[id].amounts) >= Free(store.balances[id].amounts)
  {
    SingleShifts(store, c, QueuedDebit(store.rows, c.source, checks));
  }

  lemma {:induction false} QueuedDebitNonNegative(some: seq<Txn>, rows: seq<Txn>, id: Id)
    requires QueuedNonNegative(some)
    ensures QueuedDebitIn(some, rows, id) >= 0
  {
    if some != [] {
      QueuedDebitNonNegative(some[..|some| - 1], rows, id);
    }
  }

  // ---- steps and runs -------------------------------------------------------------------------

  /** What is asked of a step: it takes this balance no further down than the floor, and what it
      queues is not negative. */
  predicate Careful(step: Step, id: Id, floor: nat) {
    match step
    case Insert(row) => row.status == Queued ==> row.amount >= 0
    case Record(t) => t.source == id ==> KeepsWithin(t, floor)
    case _ => true
  }

  lemma {:induction false} ChildOfKeepsFree(store: Store, t: Txn, status: Status, amount: int, stamp: Stamp,
                                            checks: bool, id: Id)
    requires Inv(store) && t in store.rows && t.status == Inflight && status in {Commit, Void}
    requires amount > 0 && id in store.balances && Single(store, Child(t, status, amount, stamp), checks).Ok?
    ensures id in Single(store, Child(t, status, amount, stamp), checks).value.balances
    ensures Free(Single(store, Child(t, status, amount, stamp), checks).value.balances[id].amounts) >=
            Free(store.balances[id].amounts)
  {
    AllCoherentNow(store);
    ChildKeepsFree(store, Child(t, status, amount, stamp), checks, id);
  }

  lemma {:induction false} CommitKeepsFree(store: Store, step: Step, checks: bool, id: Id)
    requires Inv(store) && step.CommitStep? && id in store.balances && Attempt(store, step, checks).Ok?
    ensures
      var after := Next(store, step, checks);
      id in after.balances && Free(after.balances[id].amounts) >= Free(store.balances[id].amounts)
  {
    var k := FoundAt(store.rows, step.id);
    var t := store.rows[k];
    var left := t.amount - Committed(store.rows, step.id);
    assert left >= 0 by { HoldIsRemainder(store.rows, t); }
    var part := CommitAmount(t, left, step.amount).value;
    assert Attempt(store, step, checks) == Single(store, Child(t, Commit, part, step.stamp), checks);
    ChildOfKeepsFree(store, t, Commit, part, step.stamp, checks, id);
  }

  lemma {:induction false} VoidKeepsFree(store: Store, step: Step, checks: bool, id: Id)
    requires Inv(store) && step.VoidStep? && id in store.balances && Attempt(store, step, checks).Ok?
    ensures
      var after := Next(store, step, checks);
      id in after.balances && Free(after.balances[id].amounts) >= Free(store.balances[id].amounts)
  {
    var k := FoundAt(store.rows, step.id);
    var t := store.rows[k];
    var left := t.amount - Committed(store.rows, step.id);
    assert left >= 0 by { HoldIsRemainder(store.rows, t); }
    assert Attempt(store, step, checks) == Single(store, Child(t, Void, left, step.stamp), checks);
    ChildOfKeepsFree(store, t, Void, left, step.stamp, checks, id);
  }

  lemma {:induction false} StepKeepsFree(store: Store, step: Step, checks: bool, id: Id, floor: nat)
    requires Inv(store) && Admissible(store, step, checks) && QueuedNonNegative(store.rows)
    requires id in store.balances && Free(store.balances[id].amounts) + floor >= 0 && Careful(step, id, floor)
    ensures
      var after := Next(store, step, checks);
      && QueuedNonNegative(after.rows) && id in after.balances && Free(after.balances[id].amounts) + floor >= 0
  {
    if Next(store, step, checks).rows != store.rows {
      var c := AppendedRow(store, step, checks);
    }
    if Attempt(store, step, checks).Ok? {
      AllCoherentNow(store);
      match step
      case Insert(_) =>
      case Record(t) =>
        QueuedDebitNonNegative(store.rows, store.rows, t.source);
        SingleKeepsFree(store, t, QueuedDebit(store.rows, t.source, checks), id, floor);
      case CommitStep(_, _, _) => CommitKeepsFree(store, step, checks, id);
      case VoidStep(_, _) => VoidKeepsFree(store, step, checks, id);
      case Recompute(b) => RecomputeIsNoOp(store, b);
    }
  }

  /** Over every run a balance whose debits allow no more overdraft than the floor never has less
      free than that: with no overdraft at all, what is settled always covers what is on hold. */
  lemma {:induction false} RunKeepsFree(store: Store, steps: seq<Step>, checks: bool, id: Id, floor: nat)
    requires Inv(store) && AdmissibleRun(store, steps, checks) && QueuedNonNegative(store.rows)
    requires id in store.balances && Free(store.balances[id].amounts) + floor >= 0
    requires forall i | 0 <= i < |steps| :: Careful(steps[i], id, floor)
    ensures
      var after := Exec(store, steps, checks);
      id in after.balances && after.balances[id].amounts.balance - after.balances[id].amounts.inflightDebit + floor >= 0
    decreases |steps|
  {
    if steps != [] {
      StepKeeps(store, steps[0], checks);
      StepKeepsFree(store, steps[0], checks, id, floor);
      RunKeepsFree(Next(store, steps[0], checks), steps[1..], checks, id, floor);
    }
  }

  // ---- batches ----------------------------------------------------------------------------------

  predicate AllWithin(txns: seq<Txn>, id: Id, floor: nat) {
    forall i | 0 <= i < |txns| :: txns[i].source == id ==> KeepsWithin(txns[i], floor)
  }

  predicate MemWithin(mem: map<Id, Amounts>, id: Id, floor: nat) {
    && (forall b <- mem :: mem[b].Coherent())
    && (id in mem ==> Free(mem[id]) + floor >= 0)
  }

  lemma {:induction false} PostKeepsFree(mem: map<Id, Amounts>, t: Txn, queued: int, id: Id, floor: nat)
    requires MemWithin(mem, id, floor) && queued >= 0 && t.status !in {Commit, Void} && Post(mem, t, queued).Ok?
    requires t.source == id ==> KeepsWithin(t, floor)
    ensures MemWithin(Post(mem, t, queued).value, id, floor)
  {
    PostKeepsCoherence(mem, t, queued);
    if t.source == id { PaidKeepsWithin(t, mem[id], queued, floor); }
    var debited := mem[t.source := SourceSide(t, mem[t.source], queued).value];
    assert id in mem ==> Free(debited[id]) + floor >= 0;
  }

  lemma {:induction false} FinalizedKeepsWithin(t: Txn, floor: nat)
    requires KeepsWithin(t, floor)
    ensures KeepsWithin(Finalized(t), floor)
  {
  }

  lemma {:induction false} PrepareOneKeepsFree(store: Store, p: Prepared, t: Txn, checks: bool, id: Id, floor: nat)
    requires QueuedNonNegative(store.rows) && Eligible(t) && (t.source == id ==> KeepsWithin(t, floor))
    requires MemWithin(p.mem, id, floor) && PrepareOne(store, p, t, checks).Ok?
    ensures MemWithin(PrepareOne(store, p, t, checks).value.mem, id, floor)
  {
    var final, queued := Finalized(t), QueuedDebit(store.rows, t.source, checks);
    assert queued >= 0 by { QueuedDebitNonNegative(store.rows, store.rows, t.source); }
    if t.source == id { FinalizedKeepsWithin(t, floor); }
    assert Post(p.mem, final, queued).Ok?
      && PrepareOne(store, p, t, checks).value.mem == Post(p.mem, final, queued).value;
    PostKeepsFree(p.mem, final, queued, id, floor);
  }

  lemma {:induction false} PrepareKeepsFree(store: Store, p: Prepared, txns: seq<Txn>, checks: bool, id: Id, floor: nat)
    requires QueuedNonNegative(store.rows) && AllEligible(txns) && AllWithin(txns, id, floor)
    requires MemWithin(p.mem, id, floor) && Prepare(store, p, txns, checks).Ok?
    ensures MemWithin(Prepare(store, p, txns, checks).value.mem, id, floor)
    decreases |txns|
  {
    if txns != [] {
      PrepareOneKeepsFree(store, p, txns[0], checks, id, floor);
      PrepareKeepsFree(store, PrepareOne(store, p, txns[0], checks).value, txns[1..], checks, id, floor);
    }
  }

  /** The same for every batch that is stored, also with self-transfers in it. */
  lemma {:induction false} BatchKeepsFree(store: Store, txns: seq<Txn>, checks: bool, id: Id, floor: nat)
    requires AllCoherent(store.balances) && QueuedNonNegative(store.rows) && AllEligible(txns)
    requires id in store.balances && Free(store.balances[id].amounts) + floor >= 0 && AllWithin(txns, id, floor)
    requires Batch(store, txns, checks).Ok?
    ensures
      var after := Batch(store, txns, checks).value;
      id in after.balances && after.balances[id].amounts.balance - after.balances[id].amounts.inflightDebit + floor >= 0
  {
    if txns != [] {
      var ids := BalanceIds(txns);
      var start := Prepared(Loaded(store.balances, ids), []);
      PrepareKeepsFree(store, start, txns, checks, id, floor);
      PrepareKeys(store, start, txns, checks);
      var mem := Prepare(store, start, txns, checks).value.mem;
      BalanceIdsComplete(txns);
      var other := if id in ids then store.balances[id := Versioned(mem[id], 0)] else store.balances;
      Concurrency.WritesMirror(store.balances, ids, mem, other, id);
    }
  }

  // ---- concurrent workers -------------------------------------------------------------------------

  predicate SeenNonNegative(w: Concurrency.Worker) {
    forall b <- w.seen :: w.seen[b].queued >= 0
  }

  /** What is asked of the workers: they take this balance no further down than the floor. */
  predicate WorkersWithin(s: Concurrency.State, id: Id, floor: nat) {
    forall w | 0 <= w < |s.workers| :: SeenNonNegative(s.workers[w]) && AllWithin(s.workers[w].txns, id, floor)
  }

  predicate EventWithin(e: Concurrency.Event, id: Id, floor: nat) {
    match e
    case Begin(txns) => AllWithin(txns, id, floor)
    case Add(row) => row.status == Queued ==> row.amount >= 0
    case _ => true
  }

  lemma {:induction false} RunWithKeepsFree(store: Store, txns: seq<Txn>, queued: map<Id, int>, id: Id, floor: nat)
    requires AllCoherent(store.balances) && Concurrency.AllOrdinary(txns) && AllWithin(txns, id, floor)
    requires (forall b <- queued :: queued[b] >= 0) && Concurrency.RunWith(store, txns, queued).Ok?
    requires id in store.balances && Free(store.balances[id].amounts) + floor >= 0
    ensures
      var after := Concurrency.RunWith(store, txns, queued).value;
      id in after.balances && Free(after.balances[id].amounts) + floor >= 0
    decreases |txns|
  {
    if txns != [] {
      var q := queued[txns[0].source];
      SingleKeepsFree(store, txns[0], q, id, floor);
      RunWithKeepsFree(SingleWith(store, txns[0], q).value, txns[1..], queued, id, floor);
    }
  }

  lemma {:induction false} IsChildTakes(store: Store, c: Txn)
    requires Concurrency.IsChild(store.rows, c)
    ensures c.amount > 0 && c.source != c.destination && c.source != "" && c.destination != ""
  {
  }

  lemma {:induction false} AtomicChildKeepsFree(store: Store, c: Txn, queued: map<Id, int>, id: Id)
    requires Inv(store) && Concurrency.IsChild(store.rows, c) && Concurrency.Atomic(store, [c], queued).Ok?
    requires id in store.balances
    ensures id in Concurrency.Atomic(store, [c], queued).value.balances
    ensures Free(Concurrency.Atomic(store, [c], queued).value.balances[id].amounts) >=
            Free(store.balances[id].amounts)
  {
    AllCoherentNow(store);
    IsChildTakes(store, c);
    Concurrency.AtomicIsSingle(store, c, queued);
    assert SingleWith(store, c, queued[c.source]) == Single(store, c, false);
    ChildKeepsFree(store, c, false, id);
  }

  lemma {:induction false} AtomicKeepsFree(store: Store, txns: seq<Txn>, queued: map<Id, int>, id: Id, floor: nat)
    requires Inv(store) && Concurrency.FitToStore(store.rows, txns) && AllWithin(txns, id, floor)
    requires (forall b <- queued :: queued[b] >= 0) && Concurrency.Atomic(store, txns, queued).Ok?
    requires id in store.balances && Free(store.balances[id].amounts) + floor >= 0
    ensures
      var after := Concurrency.Atomic(store, txns, queued).value;
      id in after.balances && Free(after.balances[id].amounts) + floor >= 0
  {
    AllCoherentNow(store);
    if Concurrency.AllOrdinary(txns) && NewBatch(store.rows, txns) {
      Concurrency.AtomicRefinesRun(store, txns, queued);
      RunWithKeepsFree(store, txns, queued, id, floor);
    } else {
      assert txns == [txns[0]];
      AtomicChildKeepsFree(store, txns[0], queued, id);
    }
  }

  lemma {:induction false} EventKeepsFree(s: Concurrency.State, e: Concurrency.Event, checks: bool, id: Id, floor: nat)
    requires Concurrency.AllFaithful(s) && Inv(s.store) && Concurrency.Fit(s, e) && QueuedNonNegative(s.store.rows)
    requires WorkersWithin(s, id, floor) && EventWithin(e, id, floor)
    requires id in s.store.balances && Free(s.store.balances[id].amounts) + floor >= 0
    ensures
      var after := Concurrency.Transition(s, e, checks).store;
      id in after.balances && Free(after.balances[id].amounts) + floor >= 0
  {
    if Concurrency.Transition(s, e, checks).store != s.store {
      match e
      case Rebuild(b) => RecomputeIsNoOp(s.store, b);
      case Finish(w) =>
        var worker := s.workers[w];
        Concurrency.SubmittedIsAtomic(s.store, worker);
        AtomicKeepsFree(s.store, worker.txns, Concurrency.SeenQueued(worker.seen), id, floor);
      case _ =>
    }
  }

  lemma {:induction false} LoadKeepsWithin(s: Concurrency.State, w: nat, b: Id, checks: bool, id: Id, floor: nat)
    requires QueuedNonNegative(s.store.rows) && WorkersWithin(s, id, floor)
    ensures WorkersWithin(Concurrency.Transition(s, Concurrency.Load(w, b), checks), id, floor)
  {
    QueuedDebitNonNegative(s.store.rows, s.store.rows, b);
    var after := Concurrency.Transition(s, Concurrency.Load(w, b), checks);
    forall v | 0 <= v < |after.workers|
      ensures SeenNonNegative(after.workers[v]) && AllWithin(after.workers[v].txns, id, floor)
    {
      assert SeenNonNegative(s.workers[v]) && AllWithin(s.workers[v].txns, id, floor);
    }
  }

  lemma {:induction false} FinalizedNeverQueued(rows: seq<Txn>, txns: seq<Txn>)
    requires QueuedNonNegative(rows)
    ensures QueuedNonNegative(rows + Concurrency.FinalizedAll(txns))
  {
    Concurrency.FinalizedEach(txns);
    var done := Concurrency.FinalizedAll(txns);
    forall i | 0 <= i < |done| ensures done[i].status != Queued {
      assert done[i] == Finalized(txns[i]);
    }
  }

  lemma {:induction false} SubmittedKeepsQueued(store: Store, w: Concurrency.Worker)
    requires QueuedNonNegative(store.rows) && Concurrency.Submitted(store, w).Ok?
    ensures QueuedNonNegative(Concurrency.Submitted(store, w).value.rows)
  {
    FinalizedNeverQueued(store.rows, w.txns);
  }

  lemma {:induction false} FinishKeepsQueued(s: Concurrency.State, w: nat, checks: bool)
    requires QueuedNonNegative(s.store.rows)
    ensures QueuedNonNegative(Concurrency.Transition(s, Concurrency.Finish(w), checks).store.rows)
  {
    if w < |s.workers| && Concurrency.Submitted(s.store, s.workers[w]).Ok? {
      SubmittedKeepsQueued(s.store, s.workers[w]);
    }
  }

  lemma {:induction false} FinishKeepsWithin(s: Concurrency.State, w: nat, checks: bool, id: Id, floor: nat)
    requires WorkersWithin(s, id, floor)
    ensures WorkersWithin(Concurrency.Transition(s, Concurrency.Finish(w), checks), id, floor)
  {
    var after := Concurrency.Transition(s, Concurrency.Finish(w), checks);
    forall v | 0 <= v < |after.workers|
      ensures SeenNonNegative(after.workers[v]) && AllWithin(after.workers[v].txns, id, floor)
    {
      assert SeenNonNegative(s.workers[v]) && AllWithin(s.workers[v].txns, id, floor);
    }
  }

  lemma {:induction false} EventKeepsWithin(s: Concurrency.State, e: Concurrency.Event, checks: bool, id: Id,
                                            floor: nat)
    requires QueuedNonNegative(s.store.rows) && WorkersWithin(s, id, floor) && EventWithin(e, id, floor)
    ensures WorkersWithin(Concurrency.Transition(s, e, checks), id, floor)
    ensures QueuedNonNegative(Concurrency.Transition(s, e, checks).store.rows)
  {
    match e
    case Load(w, b) => LoadKeepsWithin(s, w, b, checks, id, floor);
    case Finish(w) =>
      FinishKeepsQueued(s, w, checks);
      FinishKeepsWithin(s, w, checks, id, floor);
    case _ =>
  }

  /** And over every interleaving of workers with batches, commits and voids, however stale the
      queued debits they decide on: the guarded writes see to it that the balances are not. */
  lemma {:induction false} InterleavingsKeepFree(s: Concurrency.State, events: seq<Concurrency.Event>, checks: bool,
                                                 id: Id, floor: nat)
    requires Concurrency.AllFaithful(s) && Inv(s.store) && Concurrency.FitRun(s, events, checks)
    requires QueuedNonNegative(s.store.rows) && WorkersWithin(s, id, floor)
    requires forall i | 0 <= i < |events| :: EventWithin(events[i], id, floor)
    requires id in s.store.balances && Free(s.store.balances[id].amounts) + floor >= 0
    ensures
      var after := Concurrency.Transitions(s, events, checks).store;
      id in after.balances && after.balances[id].amounts.balance - after.balances[id].amounts.inflightDebit + floor >= 0
    decreases |events|
  {
    if events != [] {
      var e := events[0];
      Concurrency.FaithfulAfter(s, e, checks);
      Concurrency.InterleavingsKeepKernel(s, [e], checks);
      assert [e][1..] == [];
      assert Concurrency.Transitions(s, [e], checks) == Concurrency.Transition(s, e, checks);
      EventKeepsFree(s, e, checks, id, floor);
      EventKeepsWithin(s, e, checks, id, floor);
      InterleavingsKeepFree(Concurrency.Transition(s, e, checks), events[1..], checks, id, floor);
    }
  }
}
