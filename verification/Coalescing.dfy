/** Building a coalesced batch from queued siblings and executing it, with the single path
    as the way out (transaction_coalescing.go, transaction_execution.go). */
module Coalescing {
  import opened Wrappers
  import opened Ledger
  import opened Storage
  import opened Execution

  /** A transaction together with the request fields that are not columns of its row. */
  datatype Request = Request(txn: Txn, atomic: bool, skipQueue: bool, split: bool, scheduled: bool)

  predicate CanCoalesceOriginal(q: Request) {
    && q.txn.status == Queued && !q.atomic && !q.skipQueue && !q.split && !q.scheduled
    && q.txn.source != "" && q.txn.destination != "" && q.txn.currency != ""
  }

  predicate CanCoalesce(q: Request) {
    q.txn.parent != "" && CanCoalesceOriginal(q)
  }

  function CopyReference(reference: string): string {
    reference + "_q"
  }

  /** The copy that goes on the queue for a stored original; `id` is the generated one. */
  function QueueCopy(t: Txn, id: Id): Txn {
    t.(id := id, parent := t.id, reference := CopyReference(t.reference))
  }

  lemma {:induction false} CopyReferenceInjective(a: string, b: string)
    requires CopyReference(a) == CopyReference(b)
    ensures a == b
  {
    assert a == CopyReference(a)[..|a|] && b == CopyReference(b)[..|b|];
  }

  /** What is left of a request once it has been stored and read back by a sibling lookup:
      the row keeps the overdraft flag but has no column for the limit, and the lookup does
      not select the effective date. */
  function Reloaded(t: Txn): Txn {
    t.(overdraftLimit := 0.0, effectiveDate := None)
  }

  /** What every copy has in common with its original: all it says about the money. Only the two
      fields that the row does not give back may be missing. */
  predicate SameDeal(c: Txn, t: Txn) {
    && c.source == t.source && c.destination == t.destination && c.amount == t.amount && c.currency == t.currency
    && c.inflight == t.inflight && c.precision == t.precision && c.createdAt == t.createdAt
    && c.allowOverdraft == t.allowOverdraft && (c.overdraftLimit == t.overdraftLimit || c.overdraftLimit == 0.0)
    && (c.effectiveDate == t.effectiveDate || c.effectiveDate == None)
  }

  /** A limit that the stored row cannot lose: none at all, or one that never mattered because
      it is negative or rounds to nothing where overdraft is not allowed anyway. */
  predicate LimitSurvives(t: Txn) {
    t.overdraftLimit == 0.0 || (!t.allowOverdraft && (t.overdraftLimit < 0.0 || PreciseLimit(t) <= 0))
  }

  /** Accepted or refused alike, and with the same effect. */
  predicate DecidedAlike(x: Result<Amounts, Error>, y: Result<Amounts, Error>) {
    if x.Ok? then x == y else y.Err?
  }

  /** A balance on which losing the overdraft limit changes the decision. */
  function Telling(t: Txn): Amounts {
    var gap := if t.overdraftLimit > 0.0 && t.allowOverdraft && PreciseLimit(t) > 0 then PreciseLimit(t) else 0;
    ZeroAmounts.(balance := t.amount - gap - 1)
  }

  /** A queued debit pulled into a batch is decided exactly as its own queued copy would be,
      on every balance, precisely when it carries no overdraft limit to lose. */
  lemma {:induction false} SiblingDecidedAlikeIff(t: Txn)
    requires t.status == Queued && t.amount > 0
    ensures (forall a, queued :: DecidedAlike(SourceSide(Reloaded(t), a, queued), SourceSide(t, a, queued))) <==>
      LimitSurvives(t)
  {
    if !LimitSurvives(t) {
      var a := Telling(t);
      assert !DecidedAlike(SourceSide(Reloaded(t), a, 0), SourceSide(t, a, 0));
    }
  }

  // ---- batch construction -------------------------------------------------------------

  const MaxQueuedCoalescingBatchSize := 10000

  function BatchSize(enabled: bool, configured: int, force: bool): int {
    if !force && !enabled then 0
    else if configured <= 1 then configured
    else if configured > MaxQueuedCoalescingBatchSize then MaxQueuedCoalescingBatchSize
    else configured
  }

  /** A sibling lookup: the originals found, oldest first, or nothing when the query failed.
      The second component is the id generated for the queue copy. */
  type Lookup = Option<seq<(Request, Id)>>

  function Copies(siblings: seq<(Request, Id)>): seq<Txn> {
    if siblings == [] then []
    else
      var last := siblings[|siblings| - 1];
      Copies(siblings[..|siblings| - 1]) +
      if CanCoalesceOriginal(last.0) then [QueueCopy(Reloaded(last.0.txn), last.1)] else []
  }

  function Limited(siblings: seq<(Request, Id)>, limit: nat): seq<(Request, Id)> {
    if |siblings| <= limit then siblings else siblings[..limit]
  }

  lemma {:induction false} CopiesEligible(siblings: seq<(Request, Id)>)
    ensures AllEligible(Copies(siblings)) && |Copies(siblings)| <= |siblings|
  {
    if siblings != [] {
      CopiesEligible(siblings[..|siblings| - 1]);
    }
  }

  /** What may be pulled into a batch. */
  predicate MayJoin(q: Request) {
    && q.txn.status == Queued && q.txn.source != "" && q.txn.destination != "" && q.txn.currency != ""
    && !q.atomic && !q.skipQueue && !q.split && !q.scheduled
  }

  predicate IsCopy(c: Txn, sibling: (Request, Id)) {
    var t := sibling.0.txn;
    c.id == sibling.1 && c.parent == t.id && c.reference == t.reference + "_q" && c.status == t.status && SameDeal(c, t)
  }

  /** The positions of the siblings that may join. */
  function Joining(siblings: seq<(Request, Id)>): seq<nat> {
    if siblings == [] then []
    else
      var n := |siblings| - 1;
      Joining(siblings[..n]) + if MayJoin(siblings[n].0) then [n] else []
  }

  lemma {:induction false} JoiningInOrder(siblings: seq<(Request, Id)>)
    ensures forall k | 0 <= k < |Joining(siblings)| ::
      Joining(siblings)[k] < |siblings| && MayJoin(siblings[Joining(siblings)[k]].0)
    ensures forall k, l | 0 <= k < l < |Joining(siblings)| :: Joining(siblings)[k] < Joining(siblings)[l]
    ensures forall i | 0 <= i < |siblings| && MayJoin(siblings[i].0) :: i in Joining(siblings)
  {
    if siblings != [] {
      var n := |siblings| - 1;
      var before, all := Joining(siblings[..n]), Joining(siblings);
      JoiningInOrder(siblings[..n]);
      forall i | 0 <= i < |siblings| && MayJoin(siblings[i].0) ensures i in all {
        if i == n {
          assert all[|before|] == n;
        } else {
          assert MayJoin(siblings[..n][i].0);
        }
      }
    }
  }

  lemma {:induction false} CopyOfJoining(siblings: seq<(Request, Id)>, k: nat)
    requires k < |Copies(siblings)|
    ensures |Joining(siblings)| == |Copies(siblings)| && Joining(siblings)[k] < |siblings|
    ensures IsCopy(Copies(siblings)[k], siblings[Joining(siblings)[k]])
  {
    var n := |siblings| - 1;
    if k < |Copies(siblings[..n])| {
      CopyOfJoining(siblings[..n], k);
    } else {
      AsManyCopies(siblings[..n]);
    }
  }

  lemma {:induction false} AsManyCopies(siblings: seq<(Request, Id)>)
    ensures |Joining(siblings)| == |Copies(siblings)|
  {
    if siblings != [] {
      AsManyCopies(siblings[..|siblings| - 1]);
    }
  }

  /** Which siblings a batch copies: exactly those that may join, each once and in order; an atomic,
      split or scheduled one, or one that skips the queue, never. */
  lemma {:induction false} CopiesArePicked(siblings: seq<(Request, Id)>) returns (picks: seq<nat>)
    ensures |picks| == |Copies(siblings)|
    ensures forall k | 0 <= k < |picks| ::
      picks[k] < |siblings| && MayJoin(siblings[picks[k]].0) && IsCopy(Copies(siblings)[k], siblings[picks[k]])
    ensures forall k, l | 0 <= k < l < |picks| :: picks[k] < picks[l]
    ensures forall i | 0 <= i < |siblings| && MayJoin(siblings[i].0) :: i in picks
  {
    picks := Joining(siblings);
    AsManyCopies(siblings);
    JoiningInOrder(siblings);
    forall k | 0 <= k < |picks| ensures picks[k] < |siblings| && IsCopy(Copies(siblings)[k], siblings[picks[k]]) {
      CopyOfJoining(siblings, k);
    }
  }

  method BuildForScope(leader: Request, lookup: seq<(Request, Id)>, limit: nat) returns (batch: seq<Txn>)
    ensures batch == [leader.txn] + Copies(Limited(lookup, limit))
  {
    var siblings := Limited(lookup, limit);
    batch := [leader.txn];
    var i := 0;
    while i < |siblings|
      invariant 0 <= i <= |siblings|
      invariant batch == [leader.txn] + Copies(siblings[..i])
    {
      assert siblings[..i + 1][..i] == siblings[..i];
      if CanCoalesceOriginal(siblings[i].0) {
        batch := batch + [QueueCopy(Reloaded(siblings[i].0.txn), siblings[i].1)];
      }
      i := i + 1;
    }
    assert siblings[..|siblings|] == siblings;
  }

  /** Pair, then source, then destination: the first scope that yields at least two. A failed
      lookup ends the search. */
  function BuiltBatch(leader: Request, lookups: seq<Lookup>, size: nat): seq<Txn>
    requires size >= 2
    decreases |lookups|
  {
    if lookups == [] || lookups[0].None? then []
    else
      var batch := [leader.txn] + Copies(Limited(lookups[0].value, size - 1));
      if |batch| >= 2 then batch else BuiltBatch(leader, lookups[1..], size)
  }

  lemma {:induction false} BuiltBatchShape(leader: Request, lookups: seq<Lookup>, size: nat)
    requires size >= 2 && CanCoalesce(leader)
    ensures
      var batch := BuiltBatch(leader, lookups, size);
      batch != [] ==> 2 <= |batch| <= size && batch[0] == leader.txn && AllEligible(batch)
    decreases |lookups|
  {
    if lookups != [] && lookups[0].Some? {
      CopiesEligible(Limited(lookups[0].value, size - 1));
      BuiltBatchShape(leader, lookups[1..], size);
    }
  }

  /** Among the first `room` siblings there is none that may join. */
  predicate NoneJoins(siblings: seq<(Request, Id)>, room: nat) {
    forall i | 0 <= i < |siblings| && i < room :: !MayJoin(siblings[i].0)
  }

  lemma {:induction false} NoneJoinsIff(siblings: seq<(Request, Id)>, room: nat)
    ensures NoneJoins(siblings, room) <==> Copies(Limited(siblings, room)) == []
  {
    var first := Limited(siblings, room);
    var picks := CopiesArePicked(first);
    if |picks| > 0 {
      assert MayJoin(siblings[picks[0]].0);
    } else {
      forall i | 0 <= i < |siblings| && i < room ensures !MayJoin(siblings[i].0) {
        assert siblings[i] == first[i];
      }
    }
  }

  /** Which scope a batch is built from: the first whose lookup yields, among the oldest siblings that
      there is room for, one that may join; and there is no batch when no scope does or a lookup fails
      before. */
  lemma {:induction false} BuiltFromFirst(leader: Request, lookups: seq<Lookup>, size: nat) returns (k: nat)
    requires size >= 2
    ensures k <= |lookups|
    ensures forall i | 0 <= i < k :: lookups[i].Some? && NoneJoins(lookups[i].value, size - 1)
    ensures
      if k < |lookups| && lookups[k].Some? then
        var found := lookups[k].value;
        && !NoneJoins(found, size - 1)
        && BuiltBatch(leader, lookups, size) == [leader.txn] + Copies(found[..Min(|found|, size - 1)])
      else BuiltBatch(leader, lookups, size) == []
    decreases |lookups|
  {
    k := 0;
    if lookups != [] && lookups[0].Some? {
      var found := lookups[0].value;
      NoneJoinsIff(found, size - 1);
      assert Limited(found, size - 1) == found[..Min(|found|, size - 1)];
      if NoneJoins(found, size - 1) {
        assert BuiltBatch(leader, lookups, size) == BuiltBatch(leader, lookups[1..], size);
        var rest := BuiltFromFirst(leader, lookups[1..], size);
        k := rest + 1;
        forall i | 0 <= i < k ensures lookups[i].Some? && NoneJoins(lookups[i].value, size - 1) {
          if i > 0 { assert lookups[i] == lookups[1..][i - 1]; }
        }
      }
    }
  }

  /** The batch that a leader is stored with, if any: at least two members, or none at all. */
  function Planned(leader: Request, lookups: seq<Lookup>, size: int): (batch: seq<Txn>)
    ensures batch != [] ==> 2 <= |batch| <= size && batch[0] == leader.txn && AllEligible(batch)
  {
    if !CanCoalesce(leader) || size < 2 then []
    else (BuiltBatchShape(leader, lookups, size); BuiltBatch(leader, lookups, size))
  }

  /** A batch is built exactly when coalescing is on or forced, the configured size allows for two, and
      the leader is a queue copy that may be batched; and it is no larger than configured. */
  lemma {:induction false} PlannedIff(leader: Request, lookups: seq<Lookup>, enabled: bool, configured: int,
                                      force: bool)
    ensures
      var batch := Planned(leader, lookups, BatchSize(enabled, configured, force));
      if (enabled || force) && configured >= 2 && leader.txn.parent != "" && MayJoin(leader) then
        && batch == BuiltBatch(leader, lookups, Min(configured, 10000))
        && (batch != [] ==> 2 <= |batch| <= configured && |batch| <= 10000 && batch[0] == leader.txn)
      else batch == []
  {
  }

  method BuildBatch(leader: Request, lookups: seq<Lookup>, size: nat) returns (batch: seq<Txn>)
    requires size >= 2
    ensures batch == BuiltBatch(leader, lookups, size)
  {
    var i := 0;
    while i < |lookups|
      invariant 0 <= i <= |lookups|
      invariant BuiltBatch(leader, lookups, size) == BuiltBatch(leader, lookups[i..], size)
    {
      assert lookups[i..][0] == lookups[i] && lookups[i..][1..] == lookups[i + 1..];
      if lookups[i].None? { return []; }
      batch := BuildForScope(leader, lookups[i].value, size - 1);
      if |batch| >= 2 { return; }
      i := i + 1;
    }
    return [];
  }

  // ---- a batch that the single path would refuse ------------------------------------------

  function Plain(t: Txn): Request {
    Request(t, false, false, false, false)
  }

  /** Two originals waiting in the queue, the second a self-transfer of the first one's source,
      and the copies they are run as: the first as the leader, the second as its sibling. */
  predicate SelfTransferWaiting(store: Store, o1: Txn, o2: Txn, id1: Id, id2: Id, checks: bool) {
    && o1 in store.rows && o2 in store.rows && o1.id != ""
    && PaidPair(store, QueueCopy(o1, id1), QueueCopy(Reloaded(o2), id2), checks)
  }

  lemma {:induction false} OneCopy(sibling: Request, id: Id)
    ensures Copies([(sibling, id)]) ==
      if CanCoalesceOriginal(sibling) then [QueueCopy(Reloaded(sibling.txn), id)] else []
  {
    assert [(sibling, id)][..0] == [] && Copies([]) == [];
  }

  /** A lookup by pair that finds nothing, and one by source that finds one sibling. */
  lemma {:induction false} PairBuilt(leader: Request, sibling: Request, id: Id, size: int)
    requires CanCoalesce(leader) && CanCoalesceOriginal(sibling) && size >= 2
    ensures Planned(leader, [Some([]), Some([(sibling, id)])], size) ==
      [leader.txn, QueueCopy(Reloaded(sibling.txn), id)]
  {
    var none: Lookup, found: Lookup := Some([]), Some([(sibling, id)]);
    OneCopy(sibling, id);
    assert Limited(found.value, size - 1) == found.value;
    assert [none, found][1..] == [found];
    assert BuiltBatch(leader, [found], size) == [leader.txn] + Copies(found.value);
    assert Copies(Limited(none.value, size - 1)) == [];
    assert BuiltBatch(leader, [none, found], size) == BuiltBatch(leader, [found], size);
  }

  /** The lookup by pair finds nothing and the one by source finds the self-transfer: the executor
      coalesces the two and stores them; one by one the second would have been refused. */
  lemma {:induction false} SelfTransferDiverges(store: Store, o1: Txn, o2: Txn, id1: Id, id2: Id, size: int,
                                                checks: bool)
    requires SelfTransferWaiting(store, o1, o2, id1, id2, checks) && size >= 2
    ensures
      var batch := Planned(Plain(QueueCopy(o1, id1)), [Some([]), Some([(Plain(o2), id2)])], size);
      && batch == [QueueCopy(o1, id1), QueueCopy(Reloaded(o2), id2)]
      && Batch(store, batch, checks).Ok? && Run(store, batch, checks).Err?
  {
    PairBuilt(Plain(QueueCopy(o1, id1)), Plain(o2), id2, size);
    PaidPairDiverges(store, QueueCopy(o1, id1), QueueCopy(Reloaded(o2), id2), checks);
  }

  const Waiting := Txn("", "", "a", "b", "", "USD", 10, Queued, false, false, 0.0, 1.0, 0, None)

  /** Such a ledger exists: 100 on a balance with two originals of 10 waiting. */
  lemma {:induction false} SelfTransferCanWait() returns (store: Store, o1: Txn, o2: Txn)
    ensures SelfTransferWaiting(store, o1, o2, "c1", "c2", false)
  {
    o1 := Waiting.(id := "o1", reference := "r1");
    o2 := Waiting.(id := "o2", reference := "r2", destination := "a");
    store := Store([o1, o2], map["a" := Versioned(Amounts(100, 100, 0, 0, 0, 0), 1), "b" := Versioned(ZeroAmounts, 1)]);
    assert store.rows[0] == o1 && store.rows[1] == o2;
    var one, two := QueueCopy(o1, "c1"), QueueCopy(Reloaded(o2), "c2");
    assert |one.reference| == 4 && |two.reference| == 4;
    assert one.reference[1] == '1' && two.reference[1] == '2';
  }

  // ---- the engine -----------------------------------------------------------------------

  predicate Keyed(byId: map<Id, Balance>) {
    forall id <- byId :: byId[id].id == id
  }

  function Views(byId: map<Id, Balance>): map<Id, Amounts>
    reads byId.Values
  {
    map id | id in byId :: byId[id].View()
  }

  lemma {:induction false} UniqueOfDistinct(bs: seq<Balance>)
    requires DistinctBalances(bs) && forall i | 0 <= i < |bs| :: bs[i].id != ""
    ensures Unique(bs) == bs
  {
    if bs != [] {
      var rest, b := bs[..|bs| - 1], bs[|bs| - 1];
      UniqueOfDistinct(rest);
      assert bs == rest + [b];
      assert !Listed(rest, b.id);
    }
  }

  lemma {:induction false} OneMoreReference(done: seq<Txn>, t: Txn)
    ensures forall ref :: HasReference(done + [t], ref) <==> HasReference(done, ref) || ref == t.reference
  {
    forall ref
      ensures HasReference(done + [t], ref) <==> HasReference(done, ref) || ref == t.reference
    {
      ReferencesSplit(done, [t], ref);
      assert [t][0] == t;
    }
  }

  function Ordered(byId: map<Id, Balance>, ids: seq<Id>): (bs: seq<Balance>)
    requires forall i | 0 <= i < |ids| :: ids[i] in byId
    ensures |bs| == |ids| && forall i | 0 <= i < |ids| :: bs[i] == byId[ids[i]]
  {
    seq(|ids|, i requires 0 <= i < |ids| => byId[ids[i]])
  }

  /** Writing the loaded objects in order is the batch's set of writes. */
  lemma {:induction false} OrderedWrites(byId: map<Id, Balance>, txns: seq<Txn>, table: Table)
    requires Keyed(byId)
    requires forall i | 0 <= i < |BalanceIds(txns)| :: BalanceIds(txns)[i] in byId
    requires forall id <- byId :: id in table && byId[id].version == table[id].version
    ensures Unique(Ordered(byId, BalanceIds(txns))) == Ordered(byId, BalanceIds(txns))
    ensures Writes(Ordered(byId, BalanceIds(txns))) == BatchWrites(table, BalanceIds(txns), Views(byId))
  {
    var ids := BalanceIds(txns);
    BalanceIdsComplete(txns);
    var ordered := Ordered(byId, ids);
    assert forall i | 0 <= i < |ids| :: ids[i] in ids && ordered[i].id == ids[i];
    UniqueOfDistinct(ordered);
  }

  lemma {:induction false} BatchOf(store: Store, txns: seq<Txn>, checks: bool, p: Prepared)
    requires txns != [] && SameCurrency(txns) && AllLoaded(store.balances, BalanceIds(txns))
    requires Prepare(store, Prepared(Loaded(store.balances, BalanceIds(txns)), []), txns, checks) == Ok(p)
    ensures forall i | 0 <= i < |BalanceIds(txns)| :: BalanceIds(txns)[i] in p.mem
    ensures Batch(store, txns, checks) == Recorded(store, BatchWrites(store.balances, BalanceIds(txns), p.mem), p.done)
  {
    PrepareKeys(store, Prepared(Loaded(store.balances, BalanceIds(txns)), []), txns, checks);
  }

  class Blnk {
    const ds: Datasource
    const queuedChecks: bool
    const batchReferenceCheck: bool
    const coalescing: bool
    const batchSize: int

    constructor (ds: Datasource, queuedChecks: bool, batchReferenceCheck: bool, coalescing: bool, batchSize: int)
      ensures this.ds == ds && this.queuedChecks == queuedChecks && this.batchReferenceCheck == batchReferenceCheck
      ensures this.coalescing == coalescing && this.batchSize == batchSize
    {
      this.ds, this.queuedChecks, this.batchReferenceCheck := ds, queuedChecks, batchReferenceCheck;
      this.coalescing, this.batchSize := coalescing, batchSize;
    }

    /** Reads one balance into a new object. */
    method GetBalance(id: Id) returns (r: Result<Balance, Error>)
      ensures r.Ok? <==> id in ds.balances
      ensures r.Err? ==> r.error == BalanceNotFound
      ensures r.Ok? ==>
        && fresh(r.value) && r.value.id == id
        && r.value.View() == ds.balances[id].amounts && r.value.version == ds.balances[id].version
        && r.value.queuedDebit == QueuedDebit(ds.rows, id, queuedChecks)
    {
      if id !in ds.balances { return Err(BalanceNotFound); }
      var b := new Balance(id, ds.balances[id].amounts, QueuedDebit(ds.rows, id, queuedChecks),
        ds.balances[id].version);
      return Ok(b);
    }

    /** The single path under its lock: check the reference, load, apply, store. */
    method RecordTransactionSingle(t: Txn) returns (r: Result<(), Error>)
      modifies ds
      ensures Outcome(Single(old(ds.Snapshot()), t, queuedChecks), old(ds.Snapshot()), ds.Snapshot(), r)
    {
      if HasReference(ds.rows, t.reference) { return Err(DuplicateReference); }
      var source := GetBalance(t.source);
      if source.Err? { return Err(source.error); }
      var destination := GetBalance(t.destination);
      if destination.Err? { return Err(destination.error); }
      r := ApplyTransactionToBalances(t, source.value, destination.value);
      if r.Err? { return; }
      if t.amount == 0 { return Ok(()); }
      r := ds.RecordTransactionWithBalances(Finalized(t), source.value, destination.value);
    }

    method CollectBalanceIds(txns: seq<Txn>) returns (ids: seq<Id>)
      ensures ids == BalanceIds(txns)
    {
      var seen: set<Id> := {};
      ids := [];
      for i := 0 to |txns|
        invariant ids == BalanceIds(txns[..i])
        invariant forall id :: id in seen <==> id in ids
      {
        assert txns[..i + 1][..i] == txns[..i];
        var pair := [txns[i].source, txns[i].destination];
        ghost var was := ids;
        for k := 0 to 2
          invariant ids == match k
                           case 0 => was
                           case 1 => AddId(was, txns[i].source)
                           case _ => AddId(AddId(was, txns[i].source), txns[i].destination)
          invariant forall id :: id in seen <==> id in ids
        {
          var id := pair[k];
          if id != "" && id !in seen {
            seen := seen + {id};
            ids := ids + [id];
          }
        }
      }
      assert txns[..|txns|] == txns;
    }

    method LoadBalances(ids: seq<Id>) returns (r: Result<map<Id, Balance>, Error>)
      ensures r.Ok? <==> AllLoaded(ds.balances, ids)
      ensures r.Err? ==> r.error == BalanceNotFound
      ensures r.Ok? ==>
        && Keyed(r.value) && r.value.Keys == (set id | id in ids)
        && (forall b <- r.value.Values :: fresh(b))
        && (forall id <- r.value ::
              && id in ds.balances && r.value[id].View() == ds.balances[id].amounts
              && r.value[id].version == ds.balances[id].version
              && r.value[id].queuedDebit == QueuedDebit(ds.rows, id, queuedChecks))
    {
      var byId: map<Id, Balance> := map[];
      for i := 0 to |ids|
        invariant AllLoaded(ds.balances, ids[..i])
        invariant Keyed(byId) && byId.Keys == set id | id in ids[..i]
        invariant forall id <- byId :: fresh(byId[id])
        invariant forall id <- byId ::
          && id in ds.balances && byId[id].View() == ds.balances[id].amounts
          && byId[id].version == ds.balances[id].version
          && byId[id].queuedDebit == QueuedDebit(ds.rows, id, queuedChecks)
      {
        assert ids[..i + 1] == ids[..i] + [ids[i]];
        var b := GetBalance(ids[i]);
        if b.Err? { return Err(b.error); }
        byId := byId[ids[i] := b.value];
      }
      assert ids[..|ids|] == ids;
      return Ok(byId);
    }

    /** The references of the batch, deduplicated, and which of them are already stored. */
    method ReferenceSets(txns: seq<Txn>) returns (prefetched: set<string>, existing: set<string>)
      ensures forall ref <- existing :: HasReference(ds.rows, ref)
      ensures forall ref <- prefetched :: HasReference(ds.rows, ref) ==> ref in existing
    {
      prefetched, existing := {}, {};
      if !batchReferenceCheck { return; }
      for i := 0 to |txns|
        invariant forall ref <- existing :: HasReference(ds.rows, ref)
        invariant forall ref <- prefetched :: HasReference(ds.rows, ref) ==> ref in existing
      {
        var ref := txns[i].reference;
        if ref != "" && ref !in prefetched {
          prefetched := prefetched + {ref};
          if HasReference(ds.rows, ref) { existing := existing + {ref}; }
        }
      }
    }

    /** However the reference sets were prefetched, the decision is the one a direct check
        against the batch so far and the stored rows would give. */
    method ValidateReference(t: Txn, prefetched: set<string>, existing: set<string>, seen: set<string>)
      returns (r: Result<(), Error>)
      requires forall ref <- existing :: HasReference(ds.rows, ref)
      requires forall ref <- prefetched :: HasReference(ds.rows, ref) ==> ref in existing
      ensures r == if t.reference == "" then Err(EmptyReference)
                   else if t.reference in seen || HasReference(ds.rows, t.reference) then Err(DuplicateReference)
                   else Ok(())
    {
      if t.reference == "" { return Err(EmptyReference); }
      if t.reference in seen || t.reference in existing { return Err(DuplicateReference); }
      if t.reference !in prefetched && HasReference(ds.rows, t.reference) { return Err(DuplicateReference); }
      return Ok(());
    }

    /** Applies a transaction to the objects its two ids name. */
    method ApplyKeyed(t: Txn, byId: map<Id, Balance>, ghost queued: int) returns (r: Result<(), Error>)
      requires Keyed(byId) && t.source in byId && t.destination in byId
      requires byId[t.source].queuedDebit == queued
      modifies byId.Values
      ensures forall id <- byId ::
        byId[id].queuedDebit == old(byId[id].queuedDebit) && byId[id].version == old(byId[id].version)
      ensures
        var spec := Post(old(Views(byId)), t, queued);
        if spec.Err? then r == Err(spec.error) else r.Ok? && Views(byId) == spec.value
    {
      var source, destination := byId[t.source], byId[t.destination];
      assert source == destination <==> t.source == t.destination;
      ghost var before := Views(byId);
      ghost var side := SourceSide(t, before[t.source], queued);
      r := ApplyTransactionToBalances(t, source, destination);
      if r.Ok? {
        ghost var debited := before[t.source := side.value];
        ghost var other := DestinationSide(t, debited[t.destination]);
        assert Views(byId) == debited[t.destination := other.value];
      }
    }

    /** One batch member against the shared balance objects. */
    method PrepareTransaction(t: Txn, byId: map<Id, Balance>, prefetched: set<string>, existing: set<string>,
                              seen: set<string>, ghost done: seq<Txn>)
      returns (r: Result<Txn, Error>)
      requires Keyed(byId)
      requires forall id <- byId :: byId[id].queuedDebit == QueuedDebit(ds.rows, id, queuedChecks)
      requires forall ref :: ref in seen <==> HasReference(done, ref)
      requires forall ref <- existing :: HasReference(ds.rows, ref)
      requires forall ref <- prefetched :: HasReference(ds.rows, ref) ==> ref in existing
      modifies byId.Values
      ensures forall id <- byId ::
        byId[id].queuedDebit == old(byId[id].queuedDebit) && byId[id].version == old(byId[id].version)
      ensures
        var spec := PrepareOne(ds.Snapshot(), Prepared(old(Views(byId)), done), t, queuedChecks);
        if spec.Err? then r == Err(spec.error)
        else r.Ok? && spec.value == Prepared(Views(byId), done + [r.value]) && r.value.reference == t.reference
    {
      if t.source !in byId || t.destination !in byId { return Err(BalanceNotFound); }
      var ok := ValidateReference(t, prefetched, existing, seen);
      if ok.Err? { return Err(ok.error); }
      var final := Finalized(t);
      ok := ApplyKeyed(final, byId, QueuedDebit(ds.rows, t.source, queuedChecks));
      if ok.Err? { return Err(ok.error); }
      if final.amount == 0 { return Err(ZeroAmount); }
      return Ok(Finalized(final));
    }

    /** Every member of the batch in order, all against the same balance objects. */
    method PrepareAll(txns: seq<Txn>, byId: map<Id, Balance>, prefetched: set<string>, existing: set<string>)
      returns (r: Result<seq<Txn>, Error>)
      requires Keyed(byId)
      requires forall ref <- existing :: HasReference(ds.rows, ref)
      requires forall ref <- prefetched :: HasReference(ds.rows, ref) ==> ref in existing
      requires forall id <- byId :: byId[id].queuedDebit == QueuedDebit(ds.rows, id, queuedChecks)
      modifies byId.Values
      ensures forall id <- byId :: byId[id].version == old(byId[id].version)
      ensures
        var spec := Prepare(ds.Snapshot(), Prepared(old(Views(byId)), []), txns, queuedChecks);
        if spec.Err? then r == Err(spec.error) else r.Ok? && spec.value == Prepared(Views(byId), r.value)
    {
      ghost var store := ds.Snapshot();
      ghost var spec := Prepare(store, Prepared(Views(byId), []), txns, queuedChecks);
      var seen: set<string>, done: seq<Txn> := {}, [];
      var i := 0;
      while i < |txns|
        invariant 0 <= i <= |txns|
        invariant forall id <- byId :: byId[id].queuedDebit == QueuedDebit(ds.rows, id, queuedChecks)
        invariant forall id <- byId :: byId[id].version == old(byId[id].version)
        invariant forall ref :: ref in seen <==> HasReference(done, ref)
        invariant spec == Prepare(store, Prepared(Views(byId), done), txns[i..], queuedChecks)
      {
        assert txns[i..][0] == txns[i] && txns[i..][1..] == txns[i + 1..];
        var work := PrepareTransaction(txns[i], byId, prefetched, existing, seen, done);
        if work.Err? { return Err(work.error); }
        OneMoreReference(done, work.value);
        done := done + [work.value];
        seen := seen + {txns[i].reference};
        i := i + 1;
      }
      assert txns[|txns|..] == [];
      return Ok(done);
    }

    /** Applies the members to the loaded objects and stores everything in one database
        transaction. */
    method PersistLoaded(txns: seq<Txn>, ids: seq<Id>, byId: map<Id, Balance>) returns (r: Result<(), Error>)
      requires txns != [] && SameCurrency(txns) && ids == BalanceIds(txns) && AllLoaded(ds.balances, ids)
      requires Keyed(byId) && Views(byId) == Loaded(ds.balances, ids)
      requires forall id <- byId :: id in ds.balances && byId[id].version == ds.balances[id].version
      requires forall id <- byId :: byId[id].queuedDebit == QueuedDebit(ds.rows, id, queuedChecks)
      modifies ds, byId.Values
      ensures Outcome(Batch(old(ds.Snapshot()), txns, queuedChecks), old(ds.Snapshot()), ds.Snapshot(), r)
    {
      ghost var store := ds.Snapshot();
      var prefetched, existing := ReferenceSets(txns);
      var done := PrepareAll(txns, byId, prefetched, existing);
      if done.Err? { return Err(done.error); }
      assert ds.Snapshot() == store;
      ghost var p := Prepared(Views(byId), done.value);
      BatchOf(store, txns, queuedChecks, p);
      var ordered := Ordered(byId, ids);
      OrderedWrites(byId, txns, store.balances);
      assert Writes(Unique(ordered)) == BatchWrites(store.balances, ids, p.mem);
      r := ds.RecordTransactionsWithBalanceSet(done.value, ordered);
    }

    /** The batch under its lock, with every balance loaded once. */
    method PersistBatch(txns: seq<Txn>) returns (r: Result<(), Error>)
      modifies ds
      ensures Outcome(Batch(old(ds.Snapshot()), txns, queuedChecks), old(ds.Snapshot()), ds.Snapshot(), r)
    {
      if !SameCurrency(txns) { return Err(MixedCurrencies); }
      if txns == [] { return Ok(()); }
      var ids := CollectBalanceIds(txns);
      var loaded := LoadBalances(ids);
      if loaded.Err? { return Err(loaded.error); }
      r := PersistLoaded(txns, ids, loaded.value);
    }

    /** What a queued transaction's execution does to the store: its batch where there is one
        that can be stored, otherwise the single path. */
    function Executed(store: Store, leader: Request, lookups: seq<Lookup>, force: bool): Result<Store, Error> {
      var batch := Planned(leader, lookups, BatchSize(coalescing, batchSize, force));
      if batch != [] && Batch(store, batch, queuedChecks).Ok? then Batch(store, batch, queuedChecks)
      else Single(store, leader.txn, queuedChecks)
    }

    /** No queued copy is lost by coalescing: whatever batch was tried, the copy is executed whenever the
        single path would execute it; and when it is executed its own row is stored, together with rows
        of nobody but the batch's members. */
    lemma {:induction false} LeaderIsExecuted(store: Store, leader: Request, lookups: seq<Lookup>, force: bool)
      requires leader.txn.status == Queued && leader.txn.amount != 0
      ensures Single(store, leader.txn, queuedChecks).Ok? ==> Executed(store, leader, lookups, force).Ok?
      ensures
        var r := Executed(store, leader, lookups, force);
        r.Ok? ==>
          && !HasReference(store.rows, leader.txn.reference)
          && |r.value.rows| > |store.rows| && store.rows <= r.value.rows
          && IsDue(r.value.rows[|store.rows|], leader.txn)
    {
      var batch := Planned(leader, lookups, BatchSize(coalescing, batchSize, force));
      if batch != [] && Batch(store, batch, queuedChecks).Ok? {
        BatchAsks(store, batch, queuedChecks);
        BatchAdds(store, batch, queuedChecks);
        assert IsDue(Batch(store, batch, queuedChecks).value.rows[|store.rows| + 0], batch[0]);
      } else if Single(store, leader.txn, queuedChecks).Ok? {
        var t, queued := leader.txn, QueuedDebit(store.rows, leader.txn.source, queuedChecks);
        if t.source == t.destination { SelfTransferFailsAlone(store, t, queued); }
        SingleEffect(store, t, queued);
      }
    }

    /** Reports whether the batch was stored; every refusal and failure leaves the store as it
        was and hands the leader back to the caller. */
    method TryRecordBatch(leader: Request, lookups: seq<Lookup>, force: bool) returns (handled: bool)
      modifies ds
      ensures
        var batch := Planned(leader, lookups, BatchSize(coalescing, batchSize, force));
        var spec := Batch(old(ds.Snapshot()), batch, queuedChecks);
        if batch != [] && spec.Ok? then handled && ds.Snapshot() == spec.value
        else !handled && ds.Snapshot() == old(ds.Snapshot())
    {
      if !CanCoalesce(leader) { return false; }
      var size := BatchSize(coalescing, batchSize, force);
      if size < 2 { return false; }
      var batch := BuildBatch(leader, lookups, size);
      if |batch| < 2 { return false; }
      var r := PersistBatch(batch);
      return r.Ok?;
    }

    /** The executor: a batch when one can be stored, otherwise exactly the single path. */
    method ProcessQueued(leader: Request, lookups: seq<Lookup>, force: bool) returns (r: Result<(), Error>)
      modifies ds
      ensures Outcome(Executed(old(ds.Snapshot()), leader, lookups, force), old(ds.Snapshot()), ds.Snapshot(), r)
    {
      var handled := TryRecordBatch(leader, lookups, force);
      if handled { return Ok(()); }
      r := RecordTransactionSingle(leader.txn);
    }
  }
}
