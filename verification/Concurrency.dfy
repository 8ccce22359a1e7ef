/** Optimistic writers over the balance table: workers read balances one at a time, compute
    from what they read, and store the result only where every version is still the one they
    read (database/balance.go, transaction_execution.go, transaction_coalescing.go). The
    distributed locks are not relied on. */
module Concurrency {
  import opened Wrappers
  import opened Ledger
  import opened Storage
  import opened Execution
  import opened Inflight
  import Kernel

  /** What one balance looked like when a worker read it, with its queued debit. */
  datatype Sighting = Sighting(row: Versioned, queued: int)

  /** A worker holds the transactions it wants stored together and what it has read so far. */
  datatype Worker = Worker(txns: seq<Txn>, seen: map<Id, Sighting>)

  datatype Entry =
    | Stored(txns: seq<Txn>, queued: map<Id, int>)
    | Refreshed(id: Id)
    | Inserted(row: Txn)

  datatype State = State(store: Store, workers: seq<Worker>, log: seq<Entry>)

  datatype Event =
    | Begin(txns: seq<Txn>)
    | Load(w: nat, id: Id)
    | Finish(w: nat)
    | Rebuild(id: Id)
    | Add(row: Txn)

  /** Applying transactions one after another to balances in memory. */
  function Posted(mem: map<Id, Amounts>, txns: seq<Txn>, queued: map<Id, int>): Result<map<Id, Amounts>, Error>
    decreases |txns|
  {
    if txns == [] then Ok(mem)
    else if txns[0].source !in queued then Err(BalanceNotFound)
    else
      var next :- Post(mem, txns[0], queued[txns[0].source]);
      Posted(next, txns[1..], queued)
  }

  function FinalizedAll(txns: seq<Txn>): seq<Txn> {
    if txns == [] then [] else FinalizedAll(txns[..|txns| - 1]) + [Finalized(txns[|txns| - 1])]
  }

  lemma {:induction false} FinalizedEach(txns: seq<Txn>)
    ensures |FinalizedAll(txns)| == |txns|
    ensures forall i | 0 <= i < |txns| :: FinalizedAll(txns)[i] == Finalized(txns[i])
  {
    if txns != [] {
      FinalizedEach(txns[..|txns| - 1]);
    }
  }

  /** Reading, computing and storing in one indivisible step. */
  function Atomic(store: Store, txns: seq<Txn>, queued: map<Id, int>): Result<Store, Error> {
    var ids := BalanceIds(txns);
    if !AllLoaded(store.balances, ids) then Err(BalanceNotFound)
    else
      var mem :- Posted(Loaded(store.balances, ids), txns, queued);
      if !(forall i | 0 <= i < |ids| :: ids[i] in mem) then Err(BalanceNotFound)
      else Recorded(store, BatchWrites(store.balances, ids, mem), FinalizedAll(txns))
  }

  function Effect(store: Store, entry: Entry): Result<Store, Error> {
    match entry
    case Stored(txns, queued) => Atomic(store, txns, queued)
    case Refreshed(id) => RecomputeHolds(store, id)
    case Inserted(row) => Recorded(store, [], [row])
  }

  /** The sequential fold of a log. */
  function Replayed(store: Store, log: seq<Entry>): Result<Store, Error> {
    if log == [] then Ok(store)
    else
      var before :- Replayed(store, log[..|log| - 1]);
      Effect(before, log[|log| - 1])
  }

  // ---- what a worker does ---------------------------------------------------------------

  function SeenQueued(seen: map<Id, Sighting>): map<Id, int> {
    map id | id in seen :: seen[id].queued
  }

  function SeenTable(seen: map<Id, Sighting>): Table {
    map id | id in seen :: seen[id].row
  }

  /** The database transaction a worker submits: everything in it comes from its own reads. */
  function Submitted(store: Store, w: Worker): Result<Store, Error> {
    var ids := BalanceIds(w.txns);
    if !AllLoaded(SeenTable(w.seen), ids) then Err(BalanceNotFound)
    else
      var mem :- Posted(Loaded(SeenTable(w.seen), ids), w.txns, SeenQueued(w.seen));
      if !(forall i | 0 <= i < |ids| :: ids[i] in mem) then Err(BalanceNotFound)
      else Recorded(store, BatchWrites(SeenTable(w.seen), ids, mem), FinalizedAll(w.txns))
  }

  function Transition(s: State, e: Event, checks: bool): State {
    match e
    case Begin(txns) => s.(workers := s.workers + [Worker(txns, map[])])
    case Load(w, id) =>
      if w < |s.workers| && id in BalanceIds(s.workers[w].txns) && id in s.store.balances then
        var sighting := Sighting(s.store.balances[id], QueuedDebit(s.store.rows, id, checks));
        s.(workers := s.workers[w := s.workers[w].(seen := s.workers[w].seen[id := sighting])])
      else s
    case Finish(w) =>
      if w < |s.workers| && s.workers[w].txns != [] then
        var worker := s.workers[w];
        var r := Submitted(s.store, worker);
        if r.Ok? then
          State(r.value, s.workers[w := Worker([], map[])], s.log + [Stored(worker.txns, SeenQueued(worker.seen))])
        else s.(workers := s.workers[w := worker.(seen := map[])])
      else s
    case Rebuild(id) =>
      var r := RecomputeHolds(s.store, id);
      if r.Ok? then s.(store := r.value, log := s.log + [Refreshed(id)]) else s
    case Add(row) =>
      var r := Recorded(s.store, [], [row]);
      if r.Ok? then s.(store := r.value, log := s.log + [Inserted(row)]) else s
  }

  function Transitions(s: State, events: seq<Event>, checks: bool): State
    decreases |events|
  {
    if events == [] then s else Transitions(Transition(s, events[0], checks), events[1..], checks)
  }

  // ---- versions identify contents -------------------------------------------------------

  /** A read is never ahead of the table, and where the version has not moved the contents
      have not either. */
  predicate Faithful(table: Table, seen: map<Id, Sighting>) {
    forall id <- seen ::
      && id in table && seen[id].row.version <= table[id].version
      && (seen[id].row.version == table[id].version ==> seen[id].row == table[id])
  }

  /** Between two tables every row either stays or moves on to a later version. */
  predicate MovesOn(before: Table, after: Table) {
    forall id <- before :: id in after && (after[id] == before[id] || after[id].version > before[id].version)
  }

  lemma {:induction false} WritesMoveOn(table: Table, ws: seq<Write>)
    ensures MovesOn(table, Written(table, ws))
  {
    if ws != [] {
      var next := WrittenOne(table, ws[0]);
      WritesMoveOn(next, ws[1..]);
      assert MovesOn(table, next);
    }
  }

  lemma {:induction false} SubmittedMovesOn(store: Store, w: Worker)
    requires Submitted(store, w).Ok?
    ensures MovesOn(store.balances, Submitted(store, w).value.balances)
  {
    var ids := BalanceIds(w.txns);
    var mem := Posted(Loaded(SeenTable(w.seen), ids), w.txns, SeenQueued(w.seen)).value;
    WritesMoveOn(store.balances, BatchWrites(SeenTable(w.seen), ids, mem));
  }

  predicate AllFaithful(s: State) {
    forall i | 0 <= i < |s.workers| :: Faithful(s.store.balances, s.workers[i].seen)
  }

  lemma {:induction false} FaithfulAfter(s: State, e: Event, checks: bool)
    requires AllFaithful(s)
    ensures AllFaithful(Transition(s, e, checks))
    ensures MovesOn(s.store.balances, Transition(s, e, checks).store.balances)
  {
    var after := Transition(s, e, checks);
    match e
    case Begin(_) =>
    case Load(_, _) =>
    case Rebuild(_) =>
    case Add(_) =>
    case Finish(w) =>
      if after.store != s.store { SubmittedMovesOn(s.store, s.workers[w]); }
  }

  // ---- a submitted transaction is the indivisible one ------------------------------------

  lemma {:induction false} AcceptedReadsAreCurrent(store: Store, w: Worker)
    requires Submitted(store, w).Ok?
    requires Faithful(store.balances, w.seen)
    ensures AllLoaded(store.balances, BalanceIds(w.txns))
    ensures forall id <- BalanceIds(w.txns) :: id in w.seen && store.balances[id] == w.seen[id].row
  {
    var ids := BalanceIds(w.txns);
    BalanceIdsComplete(w.txns);
    var mem := Posted(Loaded(SeenTable(w.seen), ids), w.txns, SeenQueued(w.seen)).value;
    var ws := BatchWrites(SeenTable(w.seen), ids, mem);
    ApplicableIsCurrent(store.balances, ws);
    forall i | 0 <= i < |ids|
      ensures ids[i] in store.balances && store.balances[ids[i]] == w.seen[ids[i]].row
    {
      assert ids[i] in SeenTable(w.seen);
      assert Current(store.balances, ws[i]);
    }
  }

  lemma {:induction false} SubmittedIsAtomic(store: Store, w: Worker)
    requires Faithful(store.balances, w.seen)
    requires Submitted(store, w).Ok?
    ensures Submitted(store, w) == Atomic(store, w.txns, SeenQueued(w.seen))
  {
    var ids := BalanceIds(w.txns);
    AcceptedReadsAreCurrent(store, w);
    assert forall i | 0 <= i < |ids| :: ids[i] in ids && ids[i] in SeenTable(w.seen);
    assert Loaded(SeenTable(w.seen), ids) == Loaded(store.balances, ids);
    var mem := Posted(Loaded(SeenTable(w.seen), ids), w.txns, SeenQueued(w.seen)).value;
    assert BatchWrites(SeenTable(w.seen), ids, mem) == BatchWrites(store.balances, ids, mem);
  }

  /** A step either leaves store and log alone or logs the entry that it has carried out. */
  lemma {:induction false} StepIsLogged(s: State, e: Event, checks: bool)
    requires AllFaithful(s)
    ensures
      var next := Transition(s, e, checks);
      if next.log == s.log then next.store == s.store
      else
        && |next.log| == |s.log| + 1 && next.log[..|s.log|] == s.log
        && Effect(s.store, next.log[|s.log|]) == Ok(next.store)
  {
    var next := Transition(s, e, checks);
    if next.log != s.log && e.Finish? {
      SubmittedIsAtomic(s.store, s.workers[e.w]);
    }
  }

  /** No update is lost: whatever the interleaving of reads, computations, guarded writes and
      row-locked rebuilds, the store is the sequential fold of what was committed, in commit
      order. */
  lemma {:induction false} NoLostUpdate(base: Store, s: State, events: seq<Event>, checks: bool)
    requires AllFaithful(s) && Replayed(base, s.log) == Ok(s.store)
    ensures Replayed(base, Transitions(s, events, checks).log) == Ok(Transitions(s, events, checks).store)
    decreases |events|
  {
    if events != [] {
      FaithfulAfter(s, events[0], checks);
      StepIsLogged(s, events[0], checks);
      NoLostUpdate(base, Transition(s, events[0], checks), events[1..], checks);
    }
  }

  /** A worker whose reads have been overtaken on any row it writes stores nothing. */
  lemma {:induction false} OvertakenFails(store: Store, w: Worker, id: Id)
    requires Faithful(store.balances, w.seen)
    requires id in BalanceIds(w.txns) && id in w.seen && store.balances[id].version != w.seen[id].row.version
    ensures Submitted(store, w).Err?
  {
    if Submitted(store, w).Ok? {
      AcceptedReadsAreCurrent(store, w);
      assert false;
    }
  }

  // ---- one transaction per worker: the kernel invariant under every interleaving ----------

  /** One worker, one transaction: storing it indivisibly is the single path. */
  lemma {:induction false} AtomicIsSingle(store: Store, t: Txn, queued: map<Id, int>)
    requires t.source != t.destination && t.source != "" && t.destination != ""
    requires t.amount != 0 && Atomic(store, [t], queued).Ok?
    ensures t.source in queued && Atomic(store, [t], queued) == SingleWith(store, t, queued[t.source])
  {
    var ids := BalanceIds([t]);
    assert [t][..0] == [] && BalanceIds([]) == [];
    assert ids == AddId(AddId([], t.source), t.destination) == [t.source, t.destination];
    assert ids[0] in store.balances && ids[1] in store.balances;
    assert [t][1..] == [];
    var mem := Loaded(store.balances, ids);
    var posted := Post(mem, t, queued[t.source]).value;
    assert Posted(mem, [t], queued) == Posted(posted, [], queued) == Ok(posted);
    var s, d := store.balances[t.source], store.balances[t.destination];
    var debited := SourceSide(t, s.amounts, queued[t.source]).value;
    var credited := DestinationSide(t, d.amounts).value;
    assert BatchWrites(store.balances, ids, posted)
        == [Write(t.source, debited, s.version), Write(t.destination, credited, d.version)];
    FinalizedEach([t]);
    assert FinalizedAll([t]) == [Finalized(t)];
    LastIsNew(store.rows, Finalized(t));
  }

  // ---- batches, commits and voids in the interleaving -------------------------------------

  /** One after another, each with the queued debit its source was read with. */
  function RunWith(store: Store, txns: seq<Txn>, queued: map<Id, int>): Result<Store, Error>
    decreases |txns|
  {
    if txns == [] then Ok(store)
    else if txns[0].source !in queued then Err(BalanceNotFound)
    else
      var next :- SingleWith(store, txns[0], queued[txns[0].source]);
      RunWith(next, txns[1..], queued)
  }

  predicate Ordinary(t: Txn) {
    && t.status in {Queued, Scheduled, Applied, Unset} && t.amount != 0
    && t.source != t.destination && t.source != "" && t.destination != ""
  }

  predicate AllOrdinary(txns: seq<Txn>) {
    forall i | 0 <= i < |txns| :: Ordinary(txns[i])
  }

  predicate Mirrors(mem: map<Id, Amounts>, table: Table) {
    forall id <- mem :: id in table && table[id].amounts == mem[id]
  }

  lemma {:induction false} OneMirrors(store: Store, t: Txn, queued: int, mem: map<Id, Amounts>)
    requires Ordinary(t) && Mirrors(mem, store.balances) && Post(mem, t, queued).Ok?
    requires UniqueReferences(store.rows + [Finalized(t)])
    ensures SingleWith(store, t, queued).Ok?
    ensures
      var after := SingleWith(store, t, queued).value;
      && after.rows == store.rows + [Finalized(t)] && after.balances.Keys == store.balances.Keys
      && Mirrors(Post(mem, t, queued).value, after.balances) && Post(mem, t, queued).value.Keys == mem.Keys
      && forall id <- store.balances :: id !in mem ==> after.balances[id] == store.balances[id]
  {
    LastIsNew(store.rows, Finalized(t));
    var s, d := store.balances[t.source], store.balances[t.destination];
    var debited, credited := SourceSide(t, s.amounts, queued).value, DestinationSide(t, d.amounts).value;
    PairWritten(store.balances, Write(t.source, debited, s.version), Write(t.destination, credited, d.version));
    SingleEffect(store, t, queued);
  }

  /** Where the members of a batch could be posted in memory, they also run one by one. */
  lemma {:induction false} RunMirrors(store: Store, txns: seq<Txn>, queued: map<Id, int>, mem: map<Id, Amounts>)
    requires AllOrdinary(txns) && Mirrors(mem, store.balances) && Posted(mem, txns, queued).Ok?
    requires UniqueReferences(store.rows + FinalizedAll(txns))
    ensures RunWith(store, txns, queued).Ok?
    ensures
      var after := RunWith(store, txns, queued).value;
      && after.rows == store.rows + FinalizedAll(txns) && after.balances.Keys == store.balances.Keys
      && Mirrors(Posted(mem, txns, queued).value, after.balances) && Posted(mem, txns, queued).value.Keys == mem.Keys
      && forall id <- store.balances :: id !in mem ==> after.balances[id] == store.balances[id]
    decreases |txns|
  {
    if txns == [] {
      assert store.rows + FinalizedAll(txns) == store.rows;
    } else {
      var t, rest := txns[0], txns[1..];
      FinalizedFirst(txns);
      var c := Finalized(t);
      assert store.rows + FinalizedAll(txns) == (store.rows + [c]) + FinalizedAll(rest);
      UniquePrefix(store.rows + [c], FinalizedAll(rest));
      OneMirrors(store, t, queued[t.source], mem);
      RunMirrors(SingleWith(store, t, queued[t.source]).value, rest, queued, Post(mem, t, queued[t.source]).value);
    }
  }

  lemma {:induction false} FinalizedFirst(txns: seq<Txn>)
    requires txns != []
    ensures FinalizedAll(txns) == [Finalized(txns[0])] + FinalizedAll(txns[1..])
  {
    FinalizedEach(txns);
    FinalizedEach(txns[1..]);
  }

  lemma {:induction false} RunWithKeeps(store: Store, txns: seq<Txn>, queued: map<Id, int>)
    requires Kernel.Inv(store) && AllOrdinary(txns) && Kernel.NewBatch(store.rows, txns)
    requires RunWith(store, txns, queued).Ok?
    ensures Kernel.Inv(RunWith(store, txns, queued).value)
    decreases |txns|
  {
    if txns != [] {
      var q := queued[txns[0].source];
      Kernel.RecordKeeps(store, txns[0], q);
      Kernel.NewBatchStays(store, txns, q);
      RunWithKeeps(SingleWith(store, txns[0], q).value, txns[1..], queued);
    }
  }

  /** A batch written in one indivisible step stands where its members one by one would. */
  lemma {:induction false} AtomicRefinesRun(store: Store, txns: seq<Txn>, queued: map<Id, int>)
    requires AllOrdinary(txns) && Atomic(store, txns, queued).Ok?
    ensures RunWith(store, txns, queued).Ok?
    ensures
      var batched, single := Atomic(store, txns, queued).value, RunWith(store, txns, queued).value;
      && batched.rows == single.rows && batched.balances.Keys == single.balances.Keys
      && forall id <- single.balances :: batched.balances[id].amounts == single.balances[id].amounts
  {
    var ids := BalanceIds(txns);
    var mem := Loaded(store.balances, ids);
    RunMirrors(store, txns, queued, mem);
    var posted := Posted(mem, txns, queued).value;
    var single := RunWith(store, txns, queued).value;
    BalanceIdsComplete(txns);
    WrittenKeys(store.balances, BatchWrites(store.balances, ids, posted));
    forall id <- single.balances
      ensures Written(store.balances, BatchWrites(store.balances, ids, posted))[id].amounts ==
        single.balances[id].amounts
    {
      WritesMirror(store.balances, ids, posted, single.balances, id);
    }
  }

  /** Writing amounts at current versions gives a table with those amounts. */
  lemma {:induction false} WritesMirror(table: Table, ids: seq<Id>, mem: map<Id, Amounts>, other: Table, id: Id)
    requires Distinct(ids) && AllLoaded(table, ids) && forall i | 0 <= i < |ids| :: ids[i] in mem
    requires id in table && id in other
    requires if id in ids then other[id].amounts == mem[id] else other[id] == table[id]
    ensures
      var after := Written(table, BatchWrites(table, ids, mem));
      id in after && after[id].amounts == other[id].amounts
  {
    var ws := BatchWrites(table, ids, mem);
    WrittenKeys(table, ws);
    if id in ids {
      var k :| 0 <= k < |ids| && ids[k] == id;
      WrittenAt(table, ws, k);
    } else {
      WrittenElsewhere(table, ws, id);
    }
  }

  /** A commit or void of what is left, as its worker validated it under the lock on the
      INFLIGHT transaction. */
  predicate IsChild(rows: seq<Txn>, c: Txn) {
    && c.status in {Commit, Void} && !c.inflight && Kernel.Unused(rows, c.id)
    && c.source != c.destination && c.source != "" && c.destination != ""
    && exists k | 0 <= k < |rows| :: rows[k].status == Inflight && Kernel.Takes(rows, Finalized(c), rows[k])
  }

  /** What is asked of what a worker stores: a batch of ordinary transactions under new ids, or
      one commit or void; and of what is inserted. Nothing is asked of what is refused, such as
      a copy that is delivered again. */
  predicate Fit(s: State, e: Event) {
    match e
    case Add(row) => Recorded(s.store, [], [row]).Ok? ==> Kernel.WellFormed(s.store, Kernel.Insert(row))
    case Finish(w) =>
      w < |s.workers| && s.workers[w].txns != [] && Submitted(s.store, s.workers[w]).Ok? ==>
        FitToStore(s.store.rows, s.workers[w].txns)
    case _ => true
  }

  predicate FitToStore(rows: seq<Txn>, txns: seq<Txn>) {
    || (AllOrdinary(txns) && Kernel.NewBatch(rows, txns))
    || (|txns| == 1 && IsChild(rows, txns[0]))
  }

  predicate FitRun(s: State, events: seq<Event>, checks: bool)
    decreases |events|
  {
    events == [] || (Fit(s, events[0]) && FitRun(Transition(s, events[0], checks), events[1..], checks))
  }

  lemma {:induction false} AtomicKeeps(store: Store, txns: seq<Txn>, queued: map<Id, int>)
    requires Kernel.Inv(store) && Atomic(store, txns, queued).Ok?
    requires FitToStore(store.rows, txns)
    ensures Kernel.Inv(Atomic(store, txns, queued).value)
  {
    if AllOrdinary(txns) && Kernel.NewBatch(store.rows, txns) {
      AtomicRefinesRun(store, txns, queued);
      RunWithKeeps(store, txns, queued);
      Kernel.SameAmountsKeep(RunWith(store, txns, queued).value, Atomic(store, txns, queued).value);
    } else {
      assert txns == [txns[0]];
      AtomicChildKeeps(store, txns[0], queued);
    }
  }

  lemma {:induction false} AtomicChildKeeps(store: Store, c: Txn, queued: map<Id, int>)
    requires Kernel.Inv(store) && IsChild(store.rows, c) && Atomic(store, [c], queued).Ok?
    ensures Kernel.Inv(Atomic(store, [c], queued).value)
  {
    var k :| 0 <= k < |store.rows| && store.rows[k].status == Inflight
      && Kernel.Takes(store.rows, Finalized(c), store.rows[k]);
    AtomicIsSingle(store, c, queued);
    assert SingleWith(store, c, queued[c.source]) == Single(store, c, false);
    Kernel.ChildKeeps(store, c, k, false);
  }

  /** Replay agreement and accounting survive every interleaving of optimistic workers with
      their batches, commits and voids, even when the queued debits a worker decided on are out
      of date. */
  lemma {:induction false} InterleavingsKeepKernel(s: State, events: seq<Event>, checks: bool)
    requires AllFaithful(s) && Kernel.Inv(s.store) && FitRun(s, events, checks)
    ensures Kernel.Inv(Transitions(s, events, checks).store)
    decreases |events|
  {
    if events != [] {
      var e, next := events[0], Transition(s, events[0], checks);
      FaithfulAfter(s, e, checks);
      if next.store != s.store {
        match e
        case Begin(_) =>
        case Load(_, _) =>
        case Rebuild(id) => Kernel.StepKeeps(s.store, Kernel.Recompute(id), checks);
        case Add(row) => Kernel.StepKeeps(s.store, Kernel.Insert(row), checks);
        case Finish(w) =>
          var worker := s.workers[w];
          SubmittedIsAtomic(s.store, worker);
          AtomicKeeps(s.store, worker.txns, SeenQueued(worker.seen));
      }
      InterleavingsKeepKernel(next, events[1..], checks);
    }
  }
}
