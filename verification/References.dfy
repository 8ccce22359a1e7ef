/** The `<ref>_q` protocol: queue workers, batches that pull siblings, recovery and rejection
    all store a queued original's outcome under the one copy reference
    (transaction_queue.go, transaction_coalescing.go, queue_recovery.go,
    transaction_rejection.go). */
module References {
  import opened Wrappers
  import opened Ledger
  import opened Storage
  import opened Execution
  import opened Coalescing
  import opened Concurrency

  /** How a copy of an original ends up in the table: rejected, or stored with the status that
      moves or holds the money. */
  predicate EndedAs(c: Txn, original: Txn) {
    c.status == Rejected || c.status == if original.inflight then Inflight else Applied
  }

  /** Whatever is filed under a queued original carries that original's copy reference and is in all
      that matters the same transaction: on its way it is still queued, and once stored it has
      ended one way or the other. */
  predicate FiledRight(rows: seq<Txn>, c: Txn, stored: bool) {
    forall i | 0 <= i < |rows| && rows[i].status == Queued && rows[i].id == c.parent ::
      && c.reference == CopyReference(rows[i].reference) && SameDeal(c, rows[i])
      && if stored then EndedAs(c, rows[i]) else c.status == Queued
  }

  predicate AllFiledRight(rows: seq<Txn>, some: seq<Txn>, stored: bool) {
    forall i | 0 <= i < |some| :: FiledRight(rows, some[i], stored)
  }

  predicate NobodyUnder(s: State, id: Id) {
    && (forall i | 0 <= i < |s.store.rows| :: s.store.rows[i].parent != id)
    && (forall w, i | 0 <= w < |s.workers| && 0 <= i < |s.workers[w].txns| :: s.workers[w].txns[i].parent != id)
  }

  /** What is asked of the protocol's events: whatever is begun or inserted under a queued
      original is a copy of it under its copy reference, and a new original starts with nothing
      under it. */
  predicate Proper(s: State, e: Event) {
    match e
    case Begin(txns) => AllFiledRight(s.store.rows, txns, false)
    case Add(row) =>
      FiledRight(s.store.rows, row, true) && (row.status == Queued ==> row.parent != row.id && NobodyUnder(s, row.id))
    case _ => true
  }

  predicate ProperRun(s: State, events: seq<Event>, checks: bool)
    decreases |events|
  {
    events == [] || (Proper(s, events[0]) && ProperRun(Transition(s, events[0], checks), events[1..], checks))
  }

  /** Queued originals have ids of their own. */
  predicate QueuedApart(rows: seq<Txn>) {
    forall i, j | 0 <= i < j < |rows| :: rows[i].status == Queued && rows[j].status == Queued ==>
      rows[i].id != rows[j].id
  }

  lemma {:induction false} CopyIsFiledRight(rows: seq<Txn>, k: nat, c: Txn, stored: bool)
    requires QueuedApart(rows) && k < |rows| && rows[k].status == Queued
    requires c.parent == rows[k].id && c.reference == CopyReference(rows[k].reference) && SameDeal(c, rows[k])
    requires if stored then EndedAs(c, rows[k]) else c.status == Queued
    ensures FiledRight(rows, c, stored)
  {
    forall i | 0 <= i < |rows| && rows[i].status == Queued && rows[i].id == c.parent
      ensures i == k
    {
    }
  }

  lemma {:induction false} CopiesAreFiledRight(rows: seq<Txn>, siblings: seq<(Request, Id)>)
    requires QueuedApart(rows)
    requires forall i | 0 <= i < |siblings| :: siblings[i].0.txn in rows
    ensures AllFiledRight(rows, Copies(siblings), false)
  {
    if siblings != [] {
      var last := siblings[|siblings| - 1];
      CopiesAreFiledRight(rows, siblings[..|siblings| - 1]);
      if CanCoalesceOriginal(last.0) {
        var k :| 0 <= k < |rows| && rows[k] == last.0.txn;
        CopyIsFiledRight(rows, k, QueueCopy(Reloaded(last.0.txn), last.1), false);
      }
    }
  }

  predicate AllStored(rows: seq<Txn>, lookups: seq<Lookup>) {
    forall i | 0 <= i < |lookups| && lookups[i].Some? ::
      forall j | 0 <= j < |lookups[i].value| :: lookups[i].value[j].0.txn in rows
  }

  lemma {:induction false} BatchIsFiledRight(rows: seq<Txn>, leader: Request, lookups: seq<Lookup>, size: nat)
    requires QueuedApart(rows) && FiledRight(rows, leader.txn, false) && AllStored(rows, lookups) && size >= 2
    ensures AllFiledRight(rows, BuiltBatch(leader, lookups, size), false)
    decreases |lookups|
  {
    if lookups != [] && lookups[0].Some? {
      var siblings := Limited(lookups[0].value, size - 1);
      assert forall i | 0 <= i < |siblings| :: siblings[i] == lookups[0].value[i];
      CopiesAreFiledRight(rows, siblings);
      BatchIsFiledRight(rows, leader, lookups[1..], size);
    }
  }

  predicate Orderly(s: State) {
    && UniqueReferences(s.store.rows) && AllFiledRight(s.store.rows, s.store.rows, true)
    && forall w | 0 <= w < |s.workers| :: AllFiledRight(s.store.rows, s.workers[w].txns, false)
  }

  lemma {:induction false} StoredRows(store: Store, w: Worker)
    requires Submitted(store, w).Ok?
    ensures Submitted(store, w).value.rows == store.rows + FinalizedAll(w.txns)
    ensures UniqueReferences(Submitted(store, w).value.rows)
  {
  }

  lemma {:induction false} FinalizedStayFiled(rows: seq<Txn>, txns: seq<Txn>)
    requires AllFiledRight(rows, txns, false)
    ensures AllFiledRight(rows, FinalizedAll(txns), true)
    ensures forall i | 0 <= i < |FinalizedAll(txns)| :: FinalizedAll(txns)[i].status != Queued
  {
    FinalizedEach(txns);
    forall i | 0 <= i < |txns|
      ensures FiledRight(rows, FinalizedAll(txns)[i], true)
    {
      assert FiledRight(rows, txns[i], false);
    }
  }

  lemma {:induction false} StepStaysOrderly(s: State, e: Event, checks: bool)
    requires Orderly(s) && Proper(s, e)
    ensures Orderly(Transition(s, e, checks))
  {
    var after := Transition(s, e, checks);
    match e
    case Begin(_) =>
    case Load(_, _) =>
    case Rebuild(_) =>
    case Finish(w) =>
      if after.log != s.log {
        StoredRows(s.store, s.workers[w]);
        FinalizedStayFiled(s.store.rows, s.workers[w].txns);
        FiledAfterOutcomes(s.store.rows, FinalizedAll(s.workers[w].txns), s.store.rows, true);
        FiledAfterOutcomes(s.store.rows, FinalizedAll(s.workers[w].txns), FinalizedAll(s.workers[w].txns), true);
        forall v | 0 <= v < |after.workers|
          ensures AllFiledRight(after.store.rows, after.workers[v].txns, false)
        {
          FiledAfterOutcomes(s.store.rows, FinalizedAll(s.workers[w].txns), after.workers[v].txns, false);
        }
      }
    case Add(row) =>
      if after.log != s.log {
        FiledAfterRow(s, row, s.store.rows, true);
        FiledAfterRow(s, row, [row], true);
        forall v | 0 <= v < |after.workers|
          ensures AllFiledRight(after.store.rows, after.workers[v].txns, false)
        {
          FiledAfterRow(s, row, after.workers[v].txns, false);
        }
      }
  }

  lemma {:induction false} FiledAfterRow(s: State, row: Txn, some: seq<Txn>, stored: bool)
    requires Proper(s, Add(row)) && AllFiledRight(s.store.rows, some, stored)
    requires row.status == Queued ==> forall i | 0 <= i < |some| :: some[i].parent != row.id
    ensures AllFiledRight(s.store.rows + [row], some, stored)
  {
    if row.status == Queued {
      FiledAfterOriginal(s.store.rows, row, some, stored);
    } else {
      FiledAfterOutcomes(s.store.rows, [row], some, stored);
    }
  }

  lemma {:induction false} FiledAfterOutcomes(rows: seq<Txn>, done: seq<Txn>, some: seq<Txn>, stored: bool)
    requires AllFiledRight(rows, some, stored)
    requires forall i | 0 <= i < |done| :: done[i].status != Queued
    ensures AllFiledRight(rows + done, some, stored)
  {
    forall i | 0 <= i < |some|
      ensures FiledRight(rows + done, some[i], stored)
    {
      assert FiledRight(rows, some[i], stored);
    }
  }

  lemma {:induction false} FiledAfterOriginal(rows: seq<Txn>, row: Txn, some: seq<Txn>, stored: bool)
    requires AllFiledRight(rows, some, stored)
    requires forall i | 0 <= i < |some| :: some[i].parent != row.id
    ensures AllFiledRight(rows + [row], some, stored)
  {
    forall i | 0 <= i < |some|
      ensures FiledRight(rows + [row], some[i], stored)
    {
      assert FiledRight(rows, some[i], stored);
    }
  }

  lemma {:induction false} RunStaysOrderly(s: State, events: seq<Event>, checks: bool)
    requires Orderly(s) && ProperRun(s, events, checks)
    ensures Orderly(Transitions(s, events, checks))
    decreases |events|
  {
    if events != [] {
      StepStaysOrderly(s, events[0], checks);
      RunStaysOrderly(Transition(s, events[0], checks), events[1..], checks);
    }
  }

  // ---- at most one outcome ----------------------------------------------------------------

  function Outcomes(rows: seq<Txn>, id: Id): nat {
    if rows == [] then 0
    else Outcomes(rows[..|rows| - 1], id) + if rows[|rows| - 1].parent == id then 1 else 0
  }

  /** How often the work stored for an original has moved balances. */
  function Moves(log: seq<Entry>, id: Id): nat {
    if log == [] then 0
    else
      Moves(log[..|log| - 1], id) +
      if log[|log| - 1].Stored? then Outcomes(RowsOf(log[|log| - 1]), id) else 0
  }

  function RowsOf(entry: Entry): seq<Txn> {
    match entry
    case Stored(txns, _) => FinalizedAll(txns)
    case Inserted(row) => [row]
    case Refreshed(_) => []
  }

  lemma {:induction false} EffectAddsRows(store: Store, entry: Entry)
    requires Effect(store, entry).Ok?
    ensures Effect(store, entry).value.rows == store.rows + RowsOf(entry)
  {
  }

  lemma {:induction false} OutcomesSplit(a: seq<Txn>, b: seq<Txn>, id: Id)
    ensures Outcomes(a + b, id) == Outcomes(a, id) + Outcomes(b, id)
  {
    if b == [] {
      assert a + b == a;
    } else {
      assert (a + b)[..|a + b| - 1] == a + b[..|b| - 1];
      OutcomesSplit(a, b[..|b| - 1], id);
    }
  }

  lemma {:induction false} SomeOutcome(rows: seq<Txn>, id: Id) returns (i: nat)
    requires Outcomes(rows, id) > 0
    ensures i < |rows| && rows[i].parent == id
  {
    if rows[|rows| - 1].parent == id {
      i := |rows| - 1;
    } else {
      i := SomeOutcome(rows[..|rows| - 1], id);
    }
  }

  lemma {:induction false} OneReferenceOneOutcome(rows: seq<Txn>, id: Id, reference: string)
    requires UniqueReferences(rows)
    requires forall i | 0 <= i < |rows| :: rows[i].parent == id ==> rows[i].reference == reference
    ensures Outcomes(rows, id) <= 1
  {
    if rows != [] {
      var rest := rows[..|rows| - 1];
      OneReferenceOneOutcome(rest, id, reference);
      if rows[|rows| - 1].parent == id && Outcomes(rest, id) > 0 {
        var i := SomeOutcome(rest, id);
        assert false;
      }
    }
  }

  lemma {:induction false} MovesAreRows(base: Store, log: seq<Entry>, id: Id)
    requires Replayed(base, log).Ok?
    ensures Outcomes(base.rows, id) + Moves(log, id) <= Outcomes(Replayed(base, log).value.rows, id)
  {
    if log != [] {
      var rest := log[..|log| - 1];
      MovesAreRows(base, rest, id);
      var before, entry := Replayed(base, rest).value, log[|log| - 1];
      EffectAddsRows(before, entry);
      OutcomesSplit(before.rows, RowsOf(entry), id);
    }
  }

  /** The outcome of an original: between its balances, of its amount and currency, and with the
      status that fits it. */
  predicate IsOutcomeOf(c: Txn, original: Txn) {
    && c.source == original.source && c.destination == original.destination
    && c.amount == original.amount && c.currency == original.currency
    && (c.status == Rejected || c.status == if original.inflight then Inflight else Applied)
  }

  /** In every interleaving of workers, batches, recovery replays and rejections, a queued
      original has at most one stored outcome, so its copies move balances at most once and it
      is never both applied and rejected; and that outcome is of the original's ends, amount and
      currency. */
  lemma {:induction false} AtMostOneOutcome(base: Store, s: State, events: seq<Event>, checks: bool, k: nat)
    requires AllFaithful(s) && Replayed(base, s.log) == Ok(s.store)
    requires Orderly(s) && ProperRun(s, events, checks)
    requires k < |Transitions(s, events, checks).store.rows|
    requires Transitions(s, events, checks).store.rows[k].status == Queued
    ensures
      var after := Transitions(s, events, checks);
      var id := after.store.rows[k].id;
      && Outcomes(after.store.rows, id) <= 1
      && Moves(after.log, id) <= 1
      && forall i, j | 0 <= i < |after.store.rows| && 0 <= j < |after.store.rows| ::
           after.store.rows[i].parent == id && after.store.rows[j].parent == id ==> i == j
    ensures
      var rows := Transitions(s, events, checks).store.rows;
      forall i | 0 <= i < |rows| && rows[i].parent == rows[k].id :: IsOutcomeOf(rows[i], rows[k])
  {
    RunStaysOrderly(s, events, checks);
    NoLostUpdate(base, s, events, checks);
    var after := Transitions(s, events, checks);
    var original := after.store.rows[k];
    forall i | 0 <= i < |after.store.rows| && after.store.rows[i].parent == original.id
      ensures after.store.rows[i].reference == CopyReference(original.reference)
      ensures IsOutcomeOf(after.store.rows[i], original)
    {
      assert FiledRight(after.store.rows, after.store.rows[i], true);
    }
    OneReferenceOneOutcome(after.store.rows, original.id, CopyReference(original.reference));
    MovesAreRows(base, after.log, original.id);
  }

  // ---- the actors -----------------------------------------------------------------------------

  /** Who does what. A new original is stored; its copy is run by a queue worker, or read back
      and run by recovery, alone or as the leader of a batch; it is rejected; transactions that
      belong to no queued original are run or stored; and the workers go about their steps. */
  datatype Act =
    | Enqueue(original: Txn)
    | RunCopy(k: nat, copyId: Id, reloaded: bool)
    | RunBatch(k: nat, copyId: Id, reloaded: bool, lookups: seq<Lookup>, size: int)
    | RejectCopy(k: nat, copyId: Id, reloaded: bool)
    | RunOthers(txns: seq<Txn>)
    | StoreOther(row: Txn)
    | LoadOne(w: nat, id: Id)
    | FinishOne(w: nat)
    | RebuildOne(id: Id)

  function CopyOf(t: Txn, copyId: Id, reloaded: bool): Txn {
    QueueCopy(if reloaded then Reloaded(t) else t, copyId)
  }

  function EventOf(s: State, a: Act): Event
    requires Possible(s, a)
  {
    match a
    case Enqueue(original) => Add(original)
    case RunCopy(k, copyId, reloaded) => Begin([CopyOf(s.store.rows[k], copyId, reloaded)])
    case RunBatch(k, copyId, reloaded, lookups, size) =>
      Begin(Planned(Plain(CopyOf(s.store.rows[k], copyId, reloaded)), lookups, size))
    case RejectCopy(k, copyId, reloaded) => Add(CopyOf(s.store.rows[k], copyId, reloaded).(status := Rejected))
    case RunOthers(txns) => Begin(txns)
    case StoreOther(row) => Add(row)
    case LoadOne(w, id) => Load(w, id)
    case FinishOne(w) => Finish(w)
    case RebuildOne(id) => Rebuild(id)
  }

  predicate IsQueued(rows: seq<Txn>, k: nat) {
    k < |rows| && rows[k].status == Queued
  }

  predicate BelongsToNone(rows: seq<Txn>, t: Txn) {
    forall i | 0 <= i < |rows| :: rows[i].status == Queued ==> rows[i].id != t.parent
  }

  /** A new original has a fresh id and no parent; copies are made of stored originals, and the
      siblings of a batch are stored rows. */
  predicate Possible(s: State, a: Act) {
    match a
    case Enqueue(t) =>
      && t.status == Queued && t.parent == "" && t.id != "" && NobodyUnder(s, t.id)
      && (forall i | 0 <= i < |s.store.rows| :: s.store.rows[i].id != t.id)
    case RunCopy(k, _, _) => IsQueued(s.store.rows, k)
    case RunBatch(k, _, _, lookups, _) => IsQueued(s.store.rows, k) && AllStored(s.store.rows, lookups)
    case RejectCopy(k, _, _) => IsQueued(s.store.rows, k)
    case RunOthers(txns) => forall i | 0 <= i < |txns| :: BelongsToNone(s.store.rows, txns[i])
    case StoreOther(row) => row.status != Queued && BelongsToNone(s.store.rows, row)
    case _ => true
  }

  /** Queued originals are named, and no two are named alike. */
  predicate Named(rows: seq<Txn>) {
    QueuedApart(rows) && forall i | 0 <= i < |rows| :: rows[i].status == Queued ==> rows[i].id != ""
  }

  lemma {:induction false} ActIsProper(s: State, a: Act)
    requires Named(s.store.rows) && Possible(s, a)
    ensures Proper(s, EventOf(s, a))
  {
    var rows := s.store.rows;
    match a
    case RunCopy(k, copyId, reloaded) => CopyIsFiledRight(rows, k, CopyOf(rows[k], copyId, reloaded), false);
    case RunBatch(k, copyId, reloaded, lookups, size) =>
      var leader := Plain(CopyOf(rows[k], copyId, reloaded));
      CopyIsFiledRight(rows, k, leader.txn, false);
      if size >= 2 { BatchIsFiledRight(rows, leader, lookups, size); }
    case RejectCopy(k, copyId, reloaded) =>
      CopyIsFiledRight(rows, k, CopyOf(rows[k], copyId, reloaded).(status := Rejected), true);
    case _ =>
  }

  lemma {:induction false} NamesStay(rows: seq<Txn>, more: seq<Txn>)
    requires Named(rows) && forall i | 0 <= i < |more| :: more[i].status != Queued
    ensures Named(rows + more)
  {
  }

  lemma {:induction false} StoringKeepsNames(s: State, w: nat, checks: bool)
    requires Named(s.store.rows)
    ensures Named(Transition(s, Finish(w), checks).store.rows)
  {
    var after := Transition(s, Finish(w), checks);
    if after.log != s.log {
      var txns := s.workers[w].txns;
      StoredRows(s.store, s.workers[w]);
      FinalizedEach(txns);
      NamesStay(s.store.rows, FinalizedAll(txns));
    }
  }

  lemma {:induction false} ActKeepsNames(s: State, a: Act, checks: bool)
    requires Named(s.store.rows) && Possible(s, a)
    ensures Named(Transition(s, EventOf(s, a), checks).store.rows)
  {
    match a
    case FinishOne(w) => StoringKeepsNames(s, w, checks);
    case RejectCopy(k, copyId, reloaded) =>
      NamesStay(s.store.rows, [CopyOf(s.store.rows[k], copyId, reloaded).(status := Rejected)]);
    case StoreOther(row) => NamesStay(s.store.rows, [row]);
    case _ =>
  }

  predicate PossibleRun(s: State, acts: seq<Act>, checks: bool)
    decreases |acts|
  {
    acts == [] ||
    (Possible(s, acts[0]) && PossibleRun(Transition(s, EventOf(s, acts[0]), checks), acts[1..], checks))
  }

  function EventsOf(s: State, acts: seq<Act>, checks: bool): seq<Event>
    requires PossibleRun(s, acts, checks)
    decreases |acts|
  {
    if acts == [] then []
    else
      var e := EventOf(s, acts[0]);
      [e] + EventsOf(Transition(s, e, checks), acts[1..], checks)
  }

  lemma {:induction false} ActsAreProper(s: State, acts: seq<Act>, checks: bool)
    requires Named(s.store.rows) && PossibleRun(s, acts, checks)
    ensures ProperRun(s, EventsOf(s, acts, checks), checks)
    decreases |acts|
  {
    if acts != [] {
      var e := EventOf(s, acts[0]);
      ActIsProper(s, acts[0]);
      ActKeepsNames(s, acts[0], checks);
      var rest := EventsOf(Transition(s, e, checks), acts[1..], checks);
      ActsAreProper(Transition(s, e, checks), acts[1..], checks);
      assert ([e] + rest)[1..] == rest;
    }
  }

  /** Whatever the workers, batches, recovery and rejection do, in whatever order, a queued
      original has at most one stored outcome and moves balances at most once. */
  lemma {:induction false} ActorsAtMostOneOutcome(base: Store, s: State, acts: seq<Act>, checks: bool, k: nat)
    requires AllFaithful(s) && Replayed(base, s.log) == Ok(s.store)
    requires Orderly(s) && Named(s.store.rows) && PossibleRun(s, acts, checks)
    requires IsQueued(Transitions(s, EventsOf(s, acts, checks), checks).store.rows, k)
    ensures
      var after := Transitions(s, EventsOf(s, acts, checks), checks);
      var id := after.store.rows[k].id;
      && Outcomes(after.store.rows, id) <= 1
      && Moves(after.log, id) <= 1
      && forall i, j | 0 <= i < |after.store.rows| && 0 <= j < |after.store.rows| ::
           after.store.rows[i].parent == id && after.store.rows[j].parent == id ==> i == j
    ensures
      var rows := Transitions(s, EventsOf(s, acts, checks), checks).store.rows;
      forall i | 0 <= i < |rows| && rows[i].parent == rows[k].id :: IsOutcomeOf(rows[i], rows[k])
  {
    ActsAreProper(s, acts, checks);
    AtMostOneOutcome(base, s, EventsOf(s, acts, checks), checks, k);
  }

  // ---- recovery -----------------------------------------------------------------------------

  const MaxRecoveryAttempts := 3

  function Attempts(meta: map<Id, nat>, id: Id): nat {
    if id in meta then meta[id] else 0
  }

  predicate Settled(rows: seq<Txn>, t: Txn) {
    HasReference(rows, CopyReference(t.reference))
  }

  /** What the lookup of a stuck row's atomic group comes to. */
  datatype Siblings = LookupFailed | NoneRejected | OneRejected

  /** One stuck row as a recovery sweep meets it; `recorded` is whether the update of its
      metadata gets through, which is only logged when it does not. */
  datatype Stuck = Stuck(q: Request, copyId: Id, lookups: seq<Lookup>, hot: bool, siblings: Siblings, recorded: bool)

  /** A pass that ends before anything is tried or recorded. */
  predicate Skipped(s: Stuck) {
    s.q.atomic && s.siblings != NoneRejected
  }

  /** How many more passes a stuck original can take before it must be settled. */
  function PassesLeft(rows: seq<Txn>, meta: map<Id, nat>, t: Txn): nat {
    if Settled(rows, t) then 0
    else if Attempts(meta, t.id) >= MaxRecoveryAttempts then 1
    else MaxRecoveryAttempts + 1 - Attempts(meta, t.id)
  }

  lemma {:induction false} SettledStays(rows: seq<Txn>, more: seq<Txn>, t: Txn)
    requires Settled(rows, t)
    ensures Settled(rows + more, t)
  {
    ReferencesSplit(rows, more, CopyReference(t.reference));
  }

  /** The single path leaves the reference behind when it succeeds, and has found it there
      when it reports a duplicate. */
  lemma {:induction false} SingleSettles(store: Store, t: Txn, queued: int)
    requires t.status == Queued && UniqueReferences(store.rows)
    ensures
      var r := SingleWith(store, t, queued);
      && (r == Err(DuplicateReference) ==> HasReference(store.rows, t.reference))
      && (r.Ok? ==>
        HasReference(r.value.rows, t.reference) && store.rows <= r.value.rows && UniqueReferences(r.value.rows))
  {
    var r := SingleWith(store, t, queued);
    if r.Ok? {
      assert r.value.rows == store.rows + [Finalized(t)];
      assert r.value.rows[|store.rows|].reference == t.reference;
    } else if r == Err(DuplicateReference) && !HasReference(store.rows, t.reference) {
      RefusedMeansTaken(store.rows, Finalized(t));
    }
  }

  lemma {:induction false} BatchSettles(store: Store, txns: seq<Txn>, checks: bool)
    requires txns != [] && Batch(store, txns, checks).Ok?
    ensures HasReference(Batch(store, txns, checks).value.rows, txns[0].reference)
    ensures store.rows <= Batch(store, txns, checks).value.rows
    ensures UniqueReferences(Batch(store, txns, checks).value.rows)
  {
    var start := Prepared(Loaded(store.balances, BalanceIds(txns)), []);
    var next := PrepareOne(store, start, txns[0], checks).value;
    var p := Prepare(store, start, txns, checks).value;
    PrepareExtends(store, next, txns[1..], checks);
    assert next.done[0].reference == txns[0].reference && p.done[0] == next.done[0];
    var after := Batch(store, txns, checks).value;
    assert after.rows == store.rows + p.done && after.rows[|store.rows|] == p.done[0];
  }

  /** More rows and higher attempt counts never add a pass. */
  lemma {:induction false} NeverFurther(rows: seq<Txn>, rows': seq<Txn>, meta: map<Id, nat>, meta': map<Id, nat>)
    requires rows <= rows' && forall id :: Attempts(meta, id) <= Attempts(meta', id)
    ensures forall t: Txn :: PassesLeft(rows', meta', t) <= PassesLeft(rows, meta, t)
  {
    forall t: Txn
      ensures PassesLeft(rows', meta', t) <= PassesLeft(rows, meta, t)
    {
      if Settled(rows, t) {
        assert rows' == rows + rows'[|rows|..];
        SettledStays(rows, rows'[|rows|..], t);
      }
    }
  }

  class Recovery {
    const blnk: Blnk
    /** The recovery_attempts entry of each stuck row's metadata. */
    var attempts: map<Id, nat>

    constructor (blnk: Blnk)
      ensures this.blnk == blnk && attempts == map[]
    {
      this.blnk, attempts := blnk, map[];
    }

    /** Storing a rejected copy; finding its reference taken is as good. */
    method Reject(copy: Txn) returns (r: Result<(), Error>)
      requires UniqueReferences(blnk.ds.rows)
      modifies blnk.ds
      ensures r.Ok? && UniqueReferences(blnk.ds.rows) && old(blnk.ds.rows) <= blnk.ds.rows
      ensures HasReference(blnk.ds.rows, copy.reference) && blnk.ds.balances == old(blnk.ds.balances)
      ensures blnk.ds.rows ==
        old(blnk.ds.rows) + if HasReference(old(blnk.ds.rows), copy.reference) then [] else [copy.(status := Rejected)]
    {
      var rejected := copy.(status := Rejected);
      OneMoreReference(blnk.ds.rows, rejected);
      r := blnk.ds.InsertRows([rejected]);
      if r.Ok? {
        LastIsNew(old(blnk.ds.rows), rejected);
      } else {
        RefusedMeansTaken(blnk.ds.rows, rejected);
        r := Ok(());
      }
    }

    /** Running a copy through the executor; a duplicate reference means it already ran. */
    method Replay(copy: Request, lookups: seq<Lookup>, hot: bool) returns (r: Result<(), Error>)
      requires copy.txn.status == Queued && UniqueReferences(blnk.ds.rows)
      modifies blnk.ds
      ensures UniqueReferences(blnk.ds.rows) && old(blnk.ds.rows) <= blnk.ds.rows
      ensures ReplayedTo(old(blnk.ds.Snapshot()), copy, lookups, hot, blnk.ds.Snapshot(), r)
      ensures r.Ok? ==> HasReference(blnk.ds.rows, copy.txn.reference)
    {
      ghost var before := blnk.ds.Snapshot();
      ReplaySettles(before, copy, lookups, hot);
      r := blnk.ProcessQueued(copy, lookups, hot);
      if r == Err(DuplicateReference) { r := Ok(()); }
    }

    /** The executor's outcome, except that a duplicate reference counts as done. */
    predicate ReplayedTo(before: Store, copy: Request, lookups: seq<Lookup>, hot: bool, after: Store,
                         r: Result<(), Error>) {
      var spec := blnk.Executed(before, copy, lookups, hot);
      && after == (if spec.Ok? then spec.value else before)
      && (r.Ok? <==> spec.Ok? || spec.error == DuplicateReference)
      && (r.Err? ==> r.error == spec.error)
    }

    lemma {:induction false} ReplaySettles(before: Store, copy: Request, lookups: seq<Lookup>, hot: bool)
      requires copy.txn.status == Queued && UniqueReferences(before.rows)
      ensures
        var spec := blnk.Executed(before, copy, lookups, hot);
        && (spec == Err(DuplicateReference) ==> HasReference(before.rows, copy.txn.reference))
        && (spec.Ok? ==>
              && HasReference(spec.value.rows, copy.txn.reference)
              && before.rows <= spec.value.rows && UniqueReferences(spec.value.rows))
    {
      var batch := Planned(copy, lookups, BatchSize(blnk.coalescing, blnk.batchSize, hot));
      if batch != [] && Batch(before, batch, blnk.queuedChecks).Ok? {
        BatchSettles(before, batch, blnk.queuedChecks);
      } else {
        SingleSettles(before, copy.txn, QueuedDebit(before.rows, copy.txn.source, blnk.queuedChecks));
      }
    }

    /** One pass over one stuck original. It ends settled, or one attempt nearer to rejection
        if that could be recorded, or, in an atomic group, given up with nothing recorded
        because a sibling is rejected or could not be looked up. */
    method ProcessStuck(s: Stuck) returns (r: Result<(), Error>)
      requires s.q.txn.status == Queued && UniqueReferences(blnk.ds.rows)
      modifies this, blnk.ds
      ensures UniqueReferences(blnk.ds.rows) && old(blnk.ds.rows) <= blnk.ds.rows
      ensures
        var n := Attempts(old(attempts), s.q.txn.id) + 1;
        var copy := QueueCopy(Reloaded(s.q.txn), s.copyId);
        if n > 3 then
          && r.Ok? && attempts == old(attempts) && blnk.ds.balances == old(blnk.ds.balances)
          && blnk.ds.rows == old(blnk.ds.rows) +
            if Settled(old(blnk.ds.rows), s.q.txn) then [] else [copy.(status := Rejected)]
        else if s.q.atomic && s.siblings != NoneRejected then
          && (r.Ok? <==> s.siblings == OneRejected)
          && attempts == old(attempts) && blnk.ds.Snapshot() == old(blnk.ds.Snapshot())
        else
          && attempts == (if s.recorded then old(attempts)[s.q.txn.id := n] else old(attempts))
          && ReplayedTo(old(blnk.ds.Snapshot()), s.q.(txn := copy), s.lookups, s.hot, blnk.ds.Snapshot(), r)
      ensures r.Ok? && !Skipped(s) ==> Settled(blnk.ds.rows, s.q.txn)
    {
      var q, n := s.q, Attempts(attempts, s.q.txn.id) + 1;
      var copy := QueueCopy(Reloaded(q.txn), s.copyId);
      if n > MaxRecoveryAttempts {
        r := Reject(copy);
        return;
      }
      if q.atomic {
        if s.siblings == LookupFailed { return Err(Unavailable); }
        if s.siblings == OneRejected { return Ok(()); }
      }
      r := Replay(q.(txn := copy), s.lookups, s.hot);
      if s.recorded { attempts := attempts[q.txn.id := n]; }
    }

    /** A sweep over the stuck originals, one after another; a failure on one is logged and
        the sweep goes on. Every original that is not skipped and whose attempt is recorded ends
        settled or one pass nearer, so four such sweeps settle it. */
    method Recover(stuck: seq<Stuck>) returns (processed: nat)
      requires UniqueReferences(blnk.ds.rows)
      requires forall i | 0 <= i < |stuck| :: stuck[i].q.txn.status == Queued
      modifies this, blnk.ds
      ensures processed == |stuck|
      ensures UniqueReferences(blnk.ds.rows) && old(blnk.ds.rows) <= blnk.ds.rows
      ensures forall i | 0 <= i < |stuck| && !Skipped(stuck[i]) && stuck[i].recorded ::
        PassesLeft(blnk.ds.rows, attempts, stuck[i].q.txn) == 0 ||
        PassesLeft(blnk.ds.rows, attempts, stuck[i].q.txn) < PassesLeft(old(blnk.ds.rows), old(attempts),
          stuck[i].q.txn)
      ensures forall t: Txn ::
        PassesLeft(blnk.ds.rows, attempts, t) <= PassesLeft(old(blnk.ds.rows), old(attempts), t)
    {
      for i := 0 to |stuck|
        invariant UniqueReferences(blnk.ds.rows) && old(blnk.ds.rows) <= blnk.ds.rows
        invariant forall k | 0 <= k < i && !Skipped(stuck[k]) && stuck[k].recorded ::
          PassesLeft(blnk.ds.rows, attempts, stuck[k].q.txn) == 0 ||
          PassesLeft(blnk.ds.rows, attempts, stuck[k].q.txn) < PassesLeft(old(blnk.ds.rows), old(attempts),
            stuck[k].q.txn)
        invariant forall t: Txn ::
          PassesLeft(blnk.ds.rows, attempts, t) <= PassesLeft(old(blnk.ds.rows), old(attempts), t)
      {
        ghost var rows, meta := blnk.ds.rows, attempts;
        var s := stuck[i];
        var r := ProcessStuck(s);
        NeverFurther(rows, blnk.ds.rows, meta, attempts);
      }
      return |stuck|;
    }
  }

  lemma {:induction false} RefusedMeansTaken(rows: seq<Txn>, t: Txn)
    requires UniqueReferences(rows) && !UniqueReferences(rows + [t])
    ensures HasReference(rows, t.reference)
  {
    var i, j :| 0 <= i < j < |rows + [t]| && (rows + [t])[i].reference == (rows + [t])[j].reference;
    assert j == |rows|;
  }
}
