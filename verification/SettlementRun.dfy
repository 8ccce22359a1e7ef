/** A settlement run over several matured buckets, one after another (brokerage.go:922-957). */
module SettlementRun {
  import opened Wrappers
  import opened Ledger
  import opened Storage
  import opened Inflight
  import opened Kernel
  import opened Settlement

  /** One bucket of a run with the ids generated for it, one a commit and one for the roll;
      `reach` is how many commits go through before something outside the ledger fails, such as
      the journal. */
  datatype Bucket = Bucket(future: Id, spot: Id, stamps: seq<Stamp>, roll: Stamp, reach: nat)

  function Order(store: Store, trades: Trades, future: Id): seq<Id> {
    CommitOrder(Legs(store, trades, future), trades)
  }

  predicate Completes(store: Store, trades: Trades, b: Bucket, checks: bool) {
    && |b.stamps| == |Order(store, trades, b.future)| < b.reach
    && SettleFuture(store, trades, b.future, b.spot, b.stamps, b.roll, checks).Ok?
  }

  /** A bucket that fails keeps the commits made before the failure. */
  function Turn(store: Store, trades: Trades, b: Bucket, checks: bool): Store {
    var order := Order(store, trades, b.future);
    if |b.stamps| != |order| then store
    else if Completes(store, trades, b, checks) then
      SettleFuture(store, trades, b.future, b.spot, b.stamps, b.roll, checks).value
    else
      var k := Min(b.reach, |order|);
      CommitsUpTo(store, order[..k], b.stamps[..k], checks).store
  }

  /** Where a run ends, and which of its buckets were settled. */
  datatype RunResult = RunResult(store: Store, settled: seq<bool>)

  /** The buckets in turn; the run goes on past a bucket that fails. */
  function SettleAll(store: Store, trades: Trades, buckets: seq<Bucket>, checks: bool): (o: RunResult)
    ensures |o.settled| == |buckets|
  {
    if buckets == [] then RunResult(store, [])
    else
      var b := buckets[|buckets| - 1];
      var before := SettleAll(store, trades, buckets[..|buckets| - 1], checks);
      RunResult(Turn(before.store, trades, b, checks), before.settled + [Completes(before.store, trades, b, checks)])
  }

  /** Everything a run commits. */
  function Orders(store: Store, trades: Trades, buckets: seq<Bucket>): seq<Id> {
    if buckets == [] then []
    else Orders(store, trades, buckets[..|buckets| - 1]) + Order(store, trades, buckets[|buckets| - 1].future)
  }

  function Stamps(buckets: seq<Bucket>): seq<Stamp> {
    if buckets == [] then []
    else Stamps(buckets[..|buckets| - 1]) + (buckets[|buckets| - 1].stamps + [buckets[|buckets| - 1].roll])
  }

  /** What a bucket will bring to spot. */
  function Net(store: Store, trades: Trades, future: Id): int
    requires future in store.balances
  {
    store.balances[future].amounts.balance + Bought(store, trades, future) - Sold(store, trades, future)
  }

  predicate Stored(store: Store, buckets: seq<Bucket>) {
    forall i | 0 <= i < |buckets| :: buckets[i].future in store.balances && buckets[i].spot in store.balances
  }

  /** What the settled ones among the buckets bring to a spot balance. */
  function NetInto(store: Store, trades: Trades, buckets: seq<Bucket>, settled: seq<bool>, spot: Id): int
    requires Stored(store, buckets) && |settled| == |buckets|
  {
    if buckets == [] then 0
    else
      var n := |buckets| - 1;
      NetInto(store, trades, buckets[..n], settled[..n], spot) +
      if settled[n] && buckets[n].spot == spot then Net(store, trades, buckets[n].future) else 0
  }

  /** What the first k commits of a bucket move on it. */
  function Part(rows: seq<Txn>, order: seq<Id>, future: Id, k: nat): int
    requires k <= |order|
  {
    AllBring(rows, order[..k], future, false) - AllBring(rows, order[..k], future, true)
  }

  /** A bucket that was not settled: some of its commits, in order, and nothing else. */
  predicate HalfDone(store: Store, after: Store, trades: Trades, b: Bucket)
    requires b.future in store.balances && b.future in after.balances
  {
    var order := Order(store, trades, b.future);
    exists k | 0 <= k <= |order| ::
      after.balances[b.future].amounts.balance ==
        store.balances[b.future].amounts.balance + Part(store.rows, order, b.future, k)
  }

  /** A list whose commits move nothing on a balance. */
  predicate StaysOff(rows: seq<Txn>, ids: seq<Id>, balance: Id) {
    forall id <- ids :: Clear(rows, id, balance)
  }

  /** The commits of a bucket stay off another bucket and off its spot balance. */
  predicate Separate(store: Store, trades: Trades, a: Bucket, b: Bucket) {
    && a.future != b.future && a.spot != b.future && b.spot != a.future
    && StaysOff(store.rows, Order(store, trades, a.future), b.future)
    && StaysOff(store.rows, Order(store, trades, a.future), b.spot)
    && StaysOff(store.rows, Order(store, trades, b.future), a.future)
    && StaysOff(store.rows, Order(store, trades, b.future), a.spot)
  }

  /** How the trades of a whole run are booked, judged before it starts. */
  predicate AllBooked(store: Store, trades: Trades, buckets: seq<Bucket>) {
    && (forall i | 0 <= i < |buckets| ::
          WellBooked(store, trades, buckets[i].future, buckets[i].spot)
          && |buckets[i].stamps| == |Order(store, trades, buckets[i].future)|)
    && (forall i, j | 0 <= i < j < |buckets| :: Separate(store, trades, buckets[i], buckets[j]))
    && Distinct(Orders(store, trades, buckets))
    && NewStamps(store.rows, Orders(store, trades, buckets), Stamps(buckets))
  }

  lemma {:induction false} FewerBooked(store: Store, trades: Trades, buckets: seq<Bucket>)
    requires AllBooked(store, trades, buckets) && buckets != []
    ensures AllBooked(store, trades, buckets[..|buckets| - 1])
  {
    var rest, b := buckets[..|buckets| - 1], buckets[|buckets| - 1];
    var ids, stamps := Orders(store, trades, rest), Stamps(rest);
    var more, last := Order(store, trades, b.future), b.stamps + [b.roll];
    assert Orders(store, trades, buckets) == ids + more && Stamps(buckets) == stamps + last;
    SplitStamps(store.rows, ids, more, stamps, last);
    DistinctPart(ids, more);
    forall i, j | 0 <= i < j < |rest| ensures Separate(store, trades, rest[i], rest[j]) {
      assert Separate(store, trades, buckets[i], buckets[j]) && rest[i] == buckets[i] && rest[j] == buckets[j];
    }
  }

  lemma {:induction false} DistinctPart(ids: seq<Id>, more: seq<Id>)
    requires Distinct(ids + more)
    ensures Distinct(ids)
  {
    assert forall i, j | 0 <= i < j < |ids| :: (ids + more)[i] == ids[i] && (ids + more)[j] == ids[j];
  }

  /** New ids for two stretches are new ids for each, and each stays off the other's list. */
  lemma {:induction false} SplitStamps(rows: seq<Txn>, ids: seq<Id>, more: seq<Id>, stamps: seq<Stamp>,
                                       last: seq<Stamp>)
    requires NewStamps(rows, ids + more, stamps + last)
    ensures NewStamps(rows, ids, stamps) && NewStamps(rows, more, last)
    ensures forall k | 0 <= k < |stamps| :: stamps[k].id !in more
    ensures forall k | 0 <= k < |last| :: last[k].id !in ids
    ensures forall k, l | 0 <= k < |stamps| && 0 <= l < |last| :: stamps[k].id != last[l].id
  {
    var all := stamps + last;
    assert forall k | 0 <= k < |stamps| :: all[k] == stamps[k];
    assert forall k | 0 <= k < |last| :: all[|stamps| + k] == last[k];
  }

  // ---- a bucket that has not been settled yet ---------------------------------------------------

  /** What settling other buckets leaves as it was: a transaction that was not committed. */
  predicate Elsewhere(ids: seq<Id>, stamps: seq<Stamp>, id: Id) {
    id !in ids && forall k | 0 <= k < |stamps| :: stamps[k].id != id
  }

  predicate AllElsewhere(ids: seq<Id>, stamps: seq<Stamp>, more: seq<Id>) {
    forall id <- more :: Elsewhere(ids, stamps, id)
  }

  lemma {:induction false} StillBrings(store: Store, after: Store, ids: seq<Id>, stamps: seq<Stamp>, id: Id)
    requires Adds(store, after, ids, stamps) && Elsewhere(ids, stamps, id)
    ensures Find(after.rows, id) == Find(store.rows, id)
    ensures Committed(after.rows, id) == Committed(store.rows, id)
      && (IsVoided(after.rows, id) <==> IsVoided(store.rows, id))
    ensures forall balance: Id, debit: bool ::
      Brings(after.rows, id, balance, debit) == Brings(store.rows, id, balance, debit)
  {
    LeftAlone(store, after, ids, stamps, id, |after.rows|);
    assert after.rows[..|after.rows|] == after.rows;
    if Find(store.rows, id).Some? { var k := FoundAt(store.rows, id); }
  }

  lemma {:induction false} StillAllBring(store: Store, after: Store, ids: seq<Id>, stamps: seq<Stamp>, more: seq<Id>,
                                         balance: Id, debit: bool)
    requires Adds(store, after, ids, stamps) && AllElsewhere(ids, stamps, more)
    ensures AllBring(after.rows, more, balance, debit) == AllBring(store.rows, more, balance, debit)
  {
    if more != [] {
      var n := |more| - 1;
      assert more == more[..n] + [more[n]];
      StillAllBring(store, after, ids, stamps, more[..n], balance, debit);
      assert Elsewhere(ids, stamps, more[n]);
      StillBrings(store, after, ids, stamps, more[n]);
    }
  }

  predicate IsLegOf(rows: seq<Txn>, t: Txn, trades: Trades, future: Id) {
    IsPending(rows, t, future) && t.id in trades && trades[t.id].security
  }

  /** A row is a pending leg of the bucket afterwards exactly when it was one before. */
  lemma {:induction false} StillPending(store: Store, after: Store, ids: seq<Id>, stamps: seq<Stamp>, trades: Trades,
                                        future: Id, i: nat)
    requires Inv(store) && Inv(after) && Adds(store, after, ids, stamps) && i < |store.rows|
    requires forall k | 0 <= k < |stamps| :: Unused(store.rows, stamps[k].id)
    requires forall k | 0 <= k < |ids| :: ids[k] !in Order(store, trades, future)
    ensures IsLegOf(after.rows, store.rows[i], trades, future) <==> IsLegOf(store.rows, store.rows[i], trades, future)
  {
    var t := store.rows[i];
    if t.id in ids {
      if IsLegOf(after.rows, t, trades, future) { PendingBefore(store, after, t); }
      if IsLegOf(store.rows, t, trades, future) {
        LegsListed(store.rows, store.rows, trades, future, i);
        OrderHasLegs(Legs(store, trades, future), trades, t.id);
        assert false;
      }
    } else {
      forall k | 0 <= k < |stamps| ensures stamps[k].id != t.id { assert Unused(store.rows, stamps[k].id); }
      StillBrings(store, after, ids, stamps, t.id);
    }
  }

  /** Everything an earlier part of the run did, as far as a later bucket is concerned. */
  predicate Passed(store: Store, after: Store, ids: seq<Id>, stamps: seq<Stamp>, trades: Trades, future: Id) {
    && Inv(store) && Inv(after) && Adds(store, after, ids, stamps)
    && (forall k | 0 <= k < |stamps| :: Unused(store.rows, stamps[k].id))
    && (forall k | 0 <= k < |ids| :: ids[k] !in Order(store, trades, future))
  }

  lemma {:induction false} OldLegsStay(store: Store, after: Store, ids: seq<Id>, stamps: seq<Stamp>, trades: Trades,
                                       future: Id, sell: bool, n: nat)
    requires Passed(store, after, ids, stamps, trades, future) && n <= |store.rows|
    ensures PendingLegs(store.rows[..n], after.rows, trades, future, sell) ==
      PendingLegs(store.rows[..n], store.rows, trades, future, sell)
  {
    if n > 0 {
      OldLegsStay(store, after, ids, stamps, trades, future, sell, n - 1);
      assert store.rows[..n][..n - 1] == store.rows[..n - 1];
      StillPending(store, after, ids, stamps, trades, future, n - 1);
    }
  }

  lemma {:induction false} NoNewLegs(store: Store, after: Store, ids: seq<Id>, stamps: seq<Stamp>, trades: Trades,
                                     future: Id, sell: bool, n: nat)
    requires Adds(store, after, ids, stamps) && |store.rows| <= n <= |after.rows|
    ensures PendingLegs(after.rows[..n], after.rows, trades, future, sell) ==
      PendingLegs(store.rows, after.rows, trades, future, sell)
    decreases n
  {
    if n > |store.rows| {
      NoNewLegs(store, after, ids, stamps, trades, future, sell, n - 1);
      assert after.rows[..n][..n - 1] == after.rows[..n - 1];
      assert Added(after.rows[n - 1], ids, stamps);
    } else {
      assert after.rows[..n] == store.rows;
    }
  }

  lemma {:induction false} SameLegs(store: Store, after: Store, ids: seq<Id>, stamps: seq<Stamp>, trades: Trades,
                                    future: Id, sell: bool)
    requires Passed(store, after, ids, stamps, trades, future)
    ensures PendingLegs(after.rows, after.rows, trades, future, sell) ==
      PendingLegs(store.rows, store.rows, trades, future, sell)
  {
    OldLegsStay(store, after, ids, stamps, trades, future, sell, |store.rows|);
    NoNewLegs(store, after, ids, stamps, trades, future, sell, |after.rows|);
    assert store.rows[..|store.rows|] == store.rows && after.rows[..|after.rows|] == after.rows;
  }

  lemma {:induction false} OrderHasMoney(legs: seq<Id>, trades: Trades, leg: Id)
    requires leg in legs && leg in trades && trades[leg].moneyLeg != ""
    ensures trades[leg].moneyLeg in CommitOrder(legs, trades)
  {
    var n := |legs| - 1;
    assert legs == legs[..n] + [legs[n]];
    if leg != legs[n] { OrderHasMoney(legs[..n], trades, leg); }
  }

  /** A bucket still to be settled is after the earlier ones what it was before them. */
  lemma {:induction false} SameBucket(store: Store, after: Store, ids: seq<Id>, stamps: seq<Stamp>, trades: Trades,
                                      b: Bucket)
    requires Passed(store, after, ids, stamps, trades, b.future) && after.balances.Keys == store.balances.Keys
    requires WellBooked(store, trades, b.future, b.spot)
    requires AllElsewhere(ids, stamps, Order(store, trades, b.future))
    ensures Legs(after, trades, b.future) == Legs(store, trades, b.future)
    ensures WellBooked(after, trades, b.future, b.spot)
    ensures Bought(after, trades, b.future) == Bought(store, trades, b.future)
    ensures Sold(after, trades, b.future) == Sold(store, trades, b.future)
  {
    SameLegs(store, after, ids, stamps, trades, b.future, false);
    SameLegs(store, after, ids, stamps, trades, b.future, true);
    var legs, order := Legs(store, trades, b.future), Order(store, trades, b.future);
    forall i | 0 <= i < |legs|
      ensures LegBooked(after.rows, trades, legs[i], b.future, b.spot)
    {
      LegStaysBooked(store, after, ids, stamps, trades, b, i);
    }
    var buys, sells := Buys(store, trades, b.future), Sells(store, trades, b.future);
    forall leg <- legs ensures Elsewhere(ids, stamps, leg) { OrderHasLegs(legs, trades, leg); }
    StillAllBring(store, after, ids, stamps, buys, b.future, false);
    StillAllBring(store, after, ids, stamps, sells, b.future, true);
  }

  lemma {:induction false} LegStaysBooked(store: Store, after: Store, ids: seq<Id>, stamps: seq<Stamp>, trades: Trades,
                                          b: Bucket, i: nat)
    requires Adds(store, after, ids, stamps) && i < |Legs(store, trades, b.future)|
    requires WellBooked(store, trades, b.future, b.spot)
    requires AllElsewhere(ids, stamps, Order(store, trades, b.future))
    ensures LegBooked(after.rows, trades, Legs(store, trades, b.future)[i], b.future, b.spot)
  {
    var legs := Legs(store, trades, b.future);
    assert LegBooked(store.rows, trades, legs[i], b.future, b.spot);
    OrderHasLegs(legs, trades, legs[i]);
    StillBrings(store, after, ids, stamps, legs[i]);
    if trades[legs[i]].moneyLeg != "" {
      OrderHasMoney(legs, trades, legs[i]);
      StillBrings(store, after, ids, stamps, trades[legs[i]].moneyLeg);
    }
  }

  // ---- the run ------------------------------------------------------------------------------------

  /** A balance that is no bucket and that no commit of the run touches: a spot balance, say. */
  predicate Bystander(store: Store, trades: Trades, buckets: seq<Bucket>, x: Id) {
    x in store.balances && forall i | 0 <= i < |buckets| ::
      buckets[i].future != x && StaysOff(store.rows, Order(store, trades, buckets[i].future), x)
  }

  ghost predicate RunLeaves(store: Store, after: Store, trades: Trades, buckets: seq<Bucket>, settled: seq<bool>)
    requires Stored(store, buckets) && |settled| == |buckets|
  {
    && Inv(after) && Adds(store, after, Orders(store, trades, buckets), Stamps(buckets))
    && after.balances.Keys == store.balances.Keys
    && (forall i | 0 <= i < |buckets| :: BucketLeft(store, after, trades, buckets[i], settled[i]))
    && forall x | Bystander(store, trades, buckets, x) ::
         after.balances[x].amounts.balance ==
           store.balances[x].amounts.balance + NetInto(store, trades, buckets, settled, x)
  }

  predicate BucketLeft(store: Store, after: Store, trades: Trades, b: Bucket, settled: bool)
    requires b.future in store.balances
  {
    && b.future in after.balances
    && if settled then after.balances[b.future].amounts.balance == 0 else HalfDone(store, after, trades, b)
  }

  lemma {:induction false} NothingInto(store: Store, trades: Trades, buckets: seq<Bucket>, settled: seq<bool>, x: Id)
    requires Stored(store, buckets) && |settled| == |buckets| && forall i | 0 <= i < |buckets| :: buckets[i].spot != x
    ensures NetInto(store, trades, buckets, settled, x) == 0
  {
    if buckets != [] {
      NothingInto(store, trades, buckets[..|buckets| - 1], settled[..|buckets| - 1], x);
    }
  }

  /** What is new for the whole run is still new when the last bucket comes to be settled. */
  lemma {:induction false} LastIsReady(store: Store, before: Store, trades: Trades, buckets: seq<Bucket>)
    requires buckets != [] && AllBooked(store, trades, buckets)
    requires Adds(store, before, Orders(store, trades, buckets[..|buckets| - 1]), Stamps(buckets[..|buckets| - 1]))
    ensures
      var rest, b := buckets[..|buckets| - 1], buckets[|buckets| - 1];
      var order := Order(store, trades, b.future);
      && (forall k | 0 <= k < |Stamps(rest)| :: Unused(store.rows, Stamps(rest)[k].id))
      && (forall k | 0 <= k < |Orders(store, trades, rest)| :: Orders(store, trades, rest)[k] !in order)
      && AllElsewhere(Orders(store, trades, rest), Stamps(rest), order)
      && NewStamps(before.rows, order, b.stamps + [b.roll])
  {
    var rest, b := buckets[..|buckets| - 1], buckets[|buckets| - 1];
    StillReady(store, before, Orders(store, trades, rest), Stamps(rest), Order(store, trades, b.future),
      b.stamps + [b.roll]);
  }

  lemma {:induction false} StillReady(store: Store, before: Store, ids: seq<Id>, stamps: seq<Stamp>, order: seq<Id>,
                                      last: seq<Stamp>)
    requires Adds(store, before, ids, stamps) && Distinct(ids + order)
    requires NewStamps(store.rows, ids + order, stamps + last)
    ensures forall k | 0 <= k < |stamps| :: Unused(store.rows, stamps[k].id)
    ensures forall k | 0 <= k < |ids| :: ids[k] !in order
    ensures AllElsewhere(ids, stamps, order) && NewStamps(before.rows, order, last)
  {
    SplitStamps(store.rows, ids, order, stamps, last);
    forall k, l | 0 <= k < |ids| && 0 <= l < |order| ensures ids[k] != order[l] {
      assert (ids + order)[k] == ids[k] && (ids + order)[|ids| + l] == order[l];
    }
    forall k | 0 <= k < |last| ensures Unused(before.rows, last[k].id) {
      StillFresh(store, before, ids, stamps, last[k].id);
    }
  }

  lemma {:induction false} UnmovedBalance(a: Amounts, b: Amounts)
    requires a.Coherent() && b.Coherent() && Moved2(a, b, 0, 0)
    ensures b.balance == a.balance
  {
  }

  // ---- one bucket's turn --------------------------------------------------------------------------

  /** What a turn leaves behind, away from the bucket and spot. */
  predicate Passes(before: Store, after: Store, order: seq<Id>, stamps: seq<Stamp>, future: Id, spot: Id) {
    && Inv(after) && Adds(before, after, order, stamps) && after.balances.Keys == before.balances.Keys
    && forall x <- before.balances :: x != future && x != spot && StaysOff(before.rows, order, x) ==>
         after.balances[x].amounts.balance == before.balances[x].amounts.balance
  }

  lemma {:induction false} OffMeansNothing(rows: seq<Txn>, ids: seq<Id>, balance: Id)
    requires StaysOff(rows, ids, balance)
    ensures AllBring(rows, ids, balance, false) == 0 && AllBring(rows, ids, balance, true) == 0
  {
    forall i | 0 <= i < |ids| ensures Clear(rows, ids[i], balance) { assert ids[i] in ids; }
    AllBringNothing(rows, ids, balance, false);
    AllBringNothing(rows, ids, balance, true);
  }

  lemma {:induction false} LeavesPasses(before: Store, after: Store, order: seq<Id>, stamps: seq<Stamp>, future: Id,
                                        spot: Id)
    requires Inv(before) && Leaves(before, after, order, stamps, future, spot)
    ensures Passes(before, after, order, stamps, future, spot)
  {
    AllCoherentNow(before);
    AllCoherentNow(after);
    forall x <- before.balances | x != future && x != spot && StaysOff(before.rows, order, x)
      ensures after.balances[x].amounts.balance == before.balances[x].amounts.balance
    {
      OffMeansNothing(before.rows, order, x);
      UnmovedBalance(before.balances[x].amounts, after.balances[x].amounts);
    }
  }

  /** The money legs and the security legs of a bucket stay off spot. */
  lemma {:induction false} OrderStaysOff(rows: seq<Txn>, legs: seq<Id>, trades: Trades, balance: Id)
    requires forall i | 0 <= i < |legs| ::
      Clear(rows, legs[i], balance) && legs[i] in trades &&
      (trades[legs[i]].moneyLeg != "" ==> Clear(rows, trades[legs[i]].moneyLeg, balance))
    ensures StaysOff(rows, CommitOrder(legs, trades), balance)
  {
    if legs != [] {
      OrderStaysOff(rows, legs[..|legs| - 1], trades, balance);
    }
  }

  lemma {:induction false} SpotUntouched(store: Store, trades: Trades, future: Id, spot: Id)
    requires WellBooked(store, trades, future, spot)
    ensures StaysOff(store.rows, Order(store, trades, future), spot)
  {
    var legs := Legs(store, trades, future);
    forall i | 0 <= i < |legs|
      ensures Clear(store.rows, legs[i], spot) && legs[i] in trades &&
        (trades[legs[i]].moneyLeg != "" ==> Clear(store.rows, trades[legs[i]].moneyLeg, spot))
    {
      assert LegBooked(store.rows, trades, legs[i], future, spot);
    }
    OrderStaysOff(store.rows, legs, trades, spot);
  }

  lemma {:induction false} PrefixStamps(rows: seq<Txn>, ids: seq<Id>, stamps: seq<Stamp>, k: nat)
    requires k <= |ids| <= |stamps| && Distinct(ids) && NewStamps(rows, ids, stamps)
    ensures Distinct(ids[..k]) && NewStamps(rows, ids[..k], stamps[..k])
  {
    assert ids == ids[..k] + ids[k..] && stamps == stamps[..k] + stamps[k..];
    DistinctPart(ids[..k], ids[k..]);
    SplitStamps(rows, ids[..k], ids[k..], stamps[..k], stamps[k..]);
  }

  lemma {:induction false} AddsMore(before: Store, after: Store, ids: seq<Id>, stamps: seq<Stamp>, more: seq<Id>,
                                    others: seq<Stamp>)
    requires Adds(before, after, ids, stamps) && ids <= more && stamps <= others
    ensures Adds(before, after, more, others)
  {
    forall i | |before.rows| <= i < |after.rows| ensures Added(after.rows[i], more, others) {
      assert Added(after.rows[i], ids, stamps);
      var k :| 0 <= k < |stamps| && after.rows[i].id == stamps[k].id;
      assert others[k] == stamps[k];
    }
  }

  /** Committing some of a bucket and stopping. */
  lemma {:induction false} PartPasses(before: Store, after: Store, order: seq<Id>, stamps: seq<Stamp>, future: Id,
                                      spot: Id, k: nat, checks: bool)
    requires Inv(before) && Distinct(order) && NewStamps(before.rows, order, stamps) && k <= |order| < |stamps|
    requires CommitAll(before, order[..k], stamps[..k], checks) == Ok(after)
    ensures Passes(before, after, order, stamps, future, spot)
    ensures forall x <- before.balances ::
      after.balances[x].amounts.balance == before.balances[x].amounts.balance + Part(before.rows, order, x, k)
  {
    PrefixStamps(before.rows, order, stamps, k);
    CommitAllMoves(before, order[..k], stamps[..k], checks);
    AddsMore(before, after, order[..k], stamps[..k], order, stamps);
    AllCoherentNow(before);
    AllCoherentNow(after);
    forall x <- before.balances
      ensures after.balances[x].amounts.balance == before.balances[x].amounts.balance + Part(before.rows, order, x, k)
      ensures StaysOff(before.rows, order, x) ==> Part(before.rows, order, x, k) == 0
    {
      var ids := order[..k];
      assert Moved2(before.balances[x].amounts, after.balances[x].amounts, AllBring(before.rows, ids, x, false),
        AllBring(before.rows, ids, x, true));
      if StaysOff(before.rows, order, x) {
        assert StaysOff(before.rows, ids, x);
        OffMeansNothing(before.rows, ids, x);
      }
    }
  }

  /** What the turn of bucket b, as it was at the start, does to the ledger it finds. */
  predicate Ends(store: Store, before: Store, after: Store, trades: Trades, b: Bucket, settled: bool)
    requires b.future in store.balances
  {
    && Passes(before, after, Order(store, trades, b.future), b.stamps + [b.roll], b.future, b.spot)
    && BucketLeft(store, after, trades, b, settled)
    && b.spot in before.balances && b.spot in after.balances
    && after.balances[b.spot].amounts.balance ==
         before.balances[b.spot].amounts.balance + if settled then Net(store, trades, b.future) else 0
  }

  /** A bucket that comes to its turn as it was at the start. */
  predicate Ready(store: Store, before: Store, trades: Trades, b: Bucket) {
    && Inv(before) && b.future in store.balances && WellBooked(before, trades, b.future, b.spot)
    && Legs(before, trades, b.future) == Legs(store, trades, b.future)
    && Bought(before, trades, b.future) == Bought(store, trades, b.future)
    && Sold(before, trades, b.future) == Sold(store, trades, b.future)
    && before.balances[b.future].amounts.balance == store.balances[b.future].amounts.balance
    && |b.stamps| == |Order(store, trades, b.future)|
    && NewStamps(before.rows, Order(store, trades, b.future), b.stamps + [b.roll])
  }

  lemma {:induction false} SettledEnds(store: Store, before: Store, trades: Trades, b: Bucket, checks: bool)
    requires Ready(store, before, trades, b) && Completes(before, trades, b, checks)
    ensures Ends(store, before, Turn(before, trades, b, checks), trades, b, true)
  {
    FewerNewStamps(before.rows, Order(before, trades, b.future), b.stamps, b.roll);
    SettlementKeeps(before, trades, b.future, b.spot, b.stamps, b.roll, checks);
    SettlementNets(before, trades, b.future, b.spot, b.stamps, b.roll, checks);
    LeavesPasses(before, Turn(before, trades, b, checks), Order(store, trades, b.future), b.stamps + [b.roll], b.future,
      b.spot);
  }

  /** A turn that does not complete leaves some first part of the bucket's commits. */
  lemma {:induction false} TurnFails(before: Store, trades: Trades, b: Bucket, checks: bool) returns (k: nat)
    requires |b.stamps| == |Order(before, trades, b.future)| && !Completes(before, trades, b, checks)
    ensures k <= |b.stamps|
    ensures CommitAll(before, Order(before, trades, b.future)[..k], b.stamps[..k], checks) ==
      Ok(Turn(before, trades, b, checks))
  {
    var order := Order(before, trades, b.future);
    var m := Min(b.reach, |order|);
    UpToIsPrefix(before, order[..m], b.stamps[..m], checks);
    k := CommitsUpTo(before, order[..m], b.stamps[..m], checks).done;
    assert order[..m][..k] == order[..k] && b.stamps[..m][..k] == b.stamps[..k];
  }

  lemma {:induction false} PartEnds(store: Store, before: Store, after: Store, trades: Trades, b: Bucket, k: nat,
                                    checks: bool)
    requires Ready(store, before, trades, b) && k <= |b.stamps|
    requires CommitAll(before, Order(store, trades, b.future)[..k], b.stamps[..k], checks) == Ok(after)
    requires Part(before.rows, Order(store, trades, b.future), b.future, k) ==
      Part(store.rows, Order(store, trades, b.future), b.future, k)
    ensures Ends(store, before, after, trades, b, false)
  {
    var order, stamps := Order(store, trades, b.future), b.stamps + [b.roll];
    assert b.stamps[..k] == stamps[..k];
    PartPasses(before, after, order, stamps, b.future, b.spot, k, checks);
    SpotUntouched(before, trades, b.future, b.spot);
    PartOfNothing(before.rows, order, b.spot, k);
  }

  lemma {:induction false} FailedEnds(store: Store, before: Store, trades: Trades, b: Bucket, checks: bool)
    requires Ready(store, before, trades, b) && !Completes(before, trades, b, checks)
    requires forall k | 0 <= k <= |Order(store, trades, b.future)| ::
      Part(before.rows, Order(store, trades, b.future), b.future, k) ==
        Part(store.rows, Order(store, trades, b.future), b.future, k)
    ensures Ends(store, before, Turn(before, trades, b, checks), trades, b, false)
  {
    var k := TurnFails(before, trades, b, checks);
    assert Part(before.rows, Order(store, trades, b.future), b.future, k) ==
      Part(store.rows, Order(store, trades, b.future), b.future, k);
    PartEnds(store, before, Turn(before, trades, b, checks), trades, b, k, checks);
  }

  lemma {:induction false} PartOfNothing(rows: seq<Txn>, order: seq<Id>, x: Id, k: nat)
    requires StaysOff(rows, order, x) && k <= |order|
    ensures Part(rows, order, x, k) == 0
  {
    assert StaysOff(rows, order[..k], x);
    OffMeansNothing(rows, order[..k], x);
  }

  // ---- one more bucket ------------------------------------------------------------------------------

  /** The last bucket stays off a balance in its turn, if it did so at the start. */
  lemma {:induction false} LastStaysOff(store: Store, before: Store, trades: Trades, buckets: seq<Bucket>, x: Id)
    requires buckets != [] && AllBooked(store, trades, buckets)
    requires Adds(store, before, Orders(store, trades, buckets[..|buckets| - 1]), Stamps(buckets[..|buckets| - 1]))
    requires StaysOff(store.rows, Order(store, trades, buckets[|buckets| - 1].future), x)
    ensures StaysOff(before.rows, Order(store, trades, buckets[|buckets| - 1].future), x)
  {
    var rest, b := buckets[..|buckets| - 1], buckets[|buckets| - 1];
    LastIsReady(store, before, trades, buckets);
    forall id <- Order(store, trades, b.future) ensures Clear(before.rows, id, x) {
      assert Clear(store.rows, id, x) && Elsewhere(Orders(store, trades, rest), Stamps(rest), id);
      StillBrings(store, before, Orders(store, trades, rest), Stamps(rest), id);
    }
  }

  /** And its commits move on it what they would have moved at the start. */
  lemma {:induction false} LastSameParts(store: Store, before: Store, ids: seq<Id>, stamps: seq<Stamp>, order: seq<Id>,
                                         x: Id)
    requires Adds(store, before, ids, stamps) && AllElsewhere(ids, stamps, order)
    ensures forall k | 0 <= k <= |order| :: Part(before.rows, order, x, k) == Part(store.rows, order, x, k)
  {
    forall k | 0 <= k <= |order| ensures Part(before.rows, order, x, k) == Part(store.rows, order, x, k) {
      assert AllElsewhere(ids, stamps, order[..k]) by {
        forall id <- order[..k] ensures Elsewhere(ids, stamps, id) { assert id in order; }
      }
      StillAllBring(store, before, ids, stamps, order[..k], x, false);
      StillAllBring(store, before, ids, stamps, order[..k], x, true);
    }
  }

  /** The last bucket comes to its turn with the balance it had at the start. */
  lemma {:induction false} LastUntouched(store: Store, before: Store, trades: Trades, buckets: seq<Bucket>,
                                         settled: seq<bool>)
    requires buckets != [] && AllBooked(store, trades, buckets) && Stored(store, buckets) && |settled| == |buckets| - 1
    requires RunLeaves(store, before, trades, buckets[..|buckets| - 1], settled)
    ensures var f := buckets[|buckets| - 1].future;
      before.balances[f].amounts.balance == store.balances[f].amounts.balance
  {
    var rest, b := buckets[..|buckets| - 1], buckets[|buckets| - 1];
    forall i | 0 <= i < |rest|
      ensures rest[i].future != b.future && rest[i].spot != b.future
        && StaysOff(store.rows, Order(store, trades, rest[i].future), b.future)
    {
      assert Separate(store, trades, buckets[i], b) && rest[i] == buckets[i];
    }
    assert Bystander(store, trades, rest, b.future);
    NothingInto(store, trades, rest, settled, b.future);
  }

  lemma {:induction false} LastEnds(store: Store, before: Store, trades: Trades, buckets: seq<Bucket>,
                                    settled: seq<bool>, checks: bool)
    requires buckets != [] && Inv(store) && AllBooked(store, trades, buckets) && Stored(store, buckets)
    requires |settled| == |buckets| - 1
    requires RunLeaves(store, before, trades, buckets[..|buckets| - 1], settled)
    ensures
      var b := buckets[|buckets| - 1];
      Ends(store, before, Turn(before, trades, b, checks), trades, b, Completes(before, trades, b, checks))
  {
    var rest, b := buckets[..|buckets| - 1], buckets[|buckets| - 1];
    var ids, stamps := Orders(store, trades, rest), Stamps(rest);
    LastIsReady(store, before, trades, buckets);
    SameBucket(store, before, ids, stamps, trades, b);
    LastUntouched(store, before, trades, buckets, settled);
    assert Ready(store, before, trades, b);
    if Completes(before, trades, b, checks) {
      SettledEnds(store, before, trades, b, checks);
    } else {
      LastSameParts(store, before, ids, stamps, Order(store, trades, b.future), b.future);
      FailedEnds(store, before, trades, b, checks);
    }
  }

  lemma {:induction false} LastLeavesAlone(store: Store, before: Store, after: Store, trades: Trades,
                                           buckets: seq<Bucket>, x: Id)
    requires buckets != [] && AllBooked(store, trades, buckets)
    requires Adds(store, before, Orders(store, trades, buckets[..|buckets| - 1]), Stamps(buckets[..|buckets| - 1]))
    requires
      var b := buckets[|buckets| - 1];
      && Passes(before, after, Order(store, trades, b.future), b.stamps + [b.roll], b.future, b.spot)
      && x in before.balances && x != b.future && x != b.spot && StaysOff(store.rows, Order(store, trades, b.future), x)
    ensures x in after.balances && after.balances[x].amounts.balance == before.balances[x].amounts.balance
  {
    LastStaysOff(store, before, trades, buckets, x);
  }

  lemma {:induction false} StaysLeft(store: Store, before: Store, after: Store, trades: Trades, buckets: seq<Bucket>,
                                     i: nat, done: bool, settled: bool)
    requires buckets != [] && AllBooked(store, trades, buckets) && Stored(store, buckets) && i < |buckets| - 1
    requires Adds(store, before, Orders(store, trades, buckets[..|buckets| - 1]), Stamps(buckets[..|buckets| - 1]))
    requires Ends(store, before, after, trades, buckets[|buckets| - 1], done)
    requires BucketLeft(store, before, trades, buckets[i], settled)
    ensures BucketLeft(store, after, trades, buckets[i], settled)
  {
    assert Separate(store, trades, buckets[i], buckets[|buckets| - 1]);
    LastLeavesAlone(store, before, after, trades, buckets, buckets[i].future);
  }

  /** One more bucket adds its net, if it is settled, to its own spot and nothing to the balances that
      stand by. */
  lemma {:induction false} BystanderGains(store: Store, before: Store, after: Store, trades: Trades,
                                          buckets: seq<Bucket>, settled: seq<bool>, x: Id)
    requires buckets != [] && AllBooked(store, trades, buckets) && Stored(store, buckets) && |settled| == |buckets|
    requires Adds(store, before, Orders(store, trades, buckets[..|buckets| - 1]), Stamps(buckets[..|buckets| - 1]))
    requires Ends(store, before, after, trades, buckets[|buckets| - 1], settled[|buckets| - 1])
    requires
      var f := buckets[|buckets| - 1].future;
      f != x && StaysOff(store.rows, Order(store, trades, f), x)
    requires x in store.balances && x in before.balances
    requires before.balances[x].amounts.balance ==
             store.balances[x].amounts.balance +
               NetInto(store, trades, buckets[..|buckets| - 1], settled[..|buckets| - 1], x)
    ensures x in after.balances
    ensures after.balances[x].amounts.balance ==
      store.balances[x].amounts.balance + NetInto(store, trades, buckets, settled, x)
  {
    if x != buckets[|buckets| - 1].spot { LastLeavesAlone(store, before, after, trades, buckets, x); }
  }

  lemma {:induction false} FewerStandBy(store: Store, trades: Trades, buckets: seq<Bucket>, x: Id)
    requires buckets != [] && Bystander(store, trades, buckets, x)
    ensures Bystander(store, trades, buckets[..|buckets| - 1], x)
    ensures var f := buckets[|buckets| - 1].future; f != x && StaysOff(store.rows, Order(store, trades, f), x)
  {
    var n := |buckets| - 1;
    assert forall i | 0 <= i < n :: buckets[..n][i] == buckets[i];
    assert buckets[n].future != x && StaysOff(store.rows, Order(store, trades, buckets[n].future), x);
  }

  lemma {:induction false} LastBucketsLeft(store: Store, before: Store, after: Store, trades: Trades,
                                           buckets: seq<Bucket>, settled: seq<bool>)
    requires buckets != [] && AllBooked(store, trades, buckets) && Stored(store, buckets) && |settled| == |buckets|
    requires Adds(store, before, Orders(store, trades, buckets[..|buckets| - 1]), Stamps(buckets[..|buckets| - 1]))
    requires forall i | 0 <= i < |buckets| - 1 :: BucketLeft(store, before, trades, buckets[i], settled[i])
    requires Ends(store, before, after, trades, buckets[|buckets| - 1], settled[|buckets| - 1])
    ensures forall i | 0 <= i < |buckets| :: BucketLeft(store, after, trades, buckets[i], settled[i])
  {
    var n := |buckets| - 1;
    forall i | 0 <= i < |buckets| ensures BucketLeft(store, after, trades, buckets[i], settled[i]) {
      if i < n {
        StaysLeft(store, before, after, trades, buckets, i, settled[n], settled[i]);
      }
    }
  }

  lemma {:induction false} LastLeaves(store: Store, before: Store, after: Store, trades: Trades, buckets: seq<Bucket>,
                                      settled: seq<bool>)
    requires buckets != [] && AllBooked(store, trades, buckets) && Stored(store, buckets) && |settled| == |buckets|
    requires RunLeaves(store, before, trades, buckets[..|buckets| - 1], settled[..|buckets| - 1])
    requires Ends(store, before, after, trades, buckets[|buckets| - 1], settled[|buckets| - 1])
    ensures RunLeaves(store, after, trades, buckets, settled)
  {
    var n := |buckets| - 1;
    var rest, b := buckets[..n], buckets[n];
    AddsLater(store, before, after, Orders(store, trades, rest), Order(store, trades, b.future), Stamps(rest),
      b.stamps + [b.roll]);
    forall i | 0 <= i < n ensures BucketLeft(store, before, trades, buckets[i], settled[i]) {
      assert BucketLeft(store, before, trades, rest[i], settled[..n][i]);
    }
    LastBucketsLeft(store, before, after, trades, buckets, settled);
    forall x | Bystander(store, trades, buckets, x)
      ensures after.balances[x].amounts.balance ==
        store.balances[x].amounts.balance + NetInto(store, trades, buckets, settled, x)
    {
      FewerStandBy(store, trades, buckets, x);
      BystanderGains(store, before, after, trades, buckets, settled, x);
    }
  }

  lemma {:induction false} TurnKeepsLeaving(store: Store, before: RunResult, trades: Trades, buckets: seq<Bucket>,
                                            checks: bool)
    requires buckets != [] && Inv(store) && AllBooked(store, trades, buckets) && Stored(store, buckets)
    requires |before.settled| == |buckets| - 1
    requires RunLeaves(store, before.store, trades, buckets[..|buckets| - 1], before.settled)
    ensures
      var b := buckets[|buckets| - 1];
      RunLeaves(store, Turn(before.store, trades, b, checks), trades, buckets,
        before.settled + [Completes(before.store, trades, b, checks)])
  {
    var b := buckets[|buckets| - 1];
    var settled := before.settled + [Completes(before.store, trades, b, checks)];
    assert settled[..|buckets| - 1] == before.settled;
    LastEnds(store, before.store, trades, buckets, before.settled, checks);
    LastLeaves(store, before.store, Turn(before.store, trades, b, checks), trades, buckets, settled);
  }

  lemma {:induction false} RunKeepsLeaving(store: Store, trades: Trades, buckets: seq<Bucket>, checks: bool)
    requires Inv(store) && AllBooked(store, trades, buckets)
    ensures Stored(store, buckets)
    ensures var o := SettleAll(store, trades, buckets, checks); RunLeaves(store, o.store, trades, buckets, o.settled)
  {
    assert forall i | 0 <= i < |buckets| :: WellBooked(store, trades, buckets[i].future, buckets[i].spot);
    if buckets != [] {
      var rest := buckets[..|buckets| - 1];
      FewerBooked(store, trades, buckets);
      RunKeepsLeaving(store, trades, rest, checks);
      TurnKeepsLeaving(store, SettleAll(store, trades, rest, checks), trades, buckets, checks);
    }
  }

  lemma {:induction false} SpotIsBystander(store: Store, trades: Trades, buckets: seq<Bucket>, i: nat)
    requires AllBooked(store, trades, buckets) && i < |buckets|
    ensures Bystander(store, trades, buckets, buckets[i].spot)
  {
    assert WellBooked(store, trades, buckets[i].future, buckets[i].spot);
    forall j | 0 <= j < |buckets|
      ensures buckets[j].future != buckets[i].spot
        && StaysOff(store.rows, Order(store, trades, buckets[j].future), buckets[i].spot)
    {
      if j == i {
        SpotUntouched(store, trades, buckets[i].future, buckets[i].spot);
      } else if j < i {
        assert Separate(store, trades, buckets[j], buckets[i]);
      } else {
        assert Separate(store, trades, buckets[i], buckets[j]);
      }
    }
  }

  /** Settling bucket after bucket, whatever has been settled before and whichever of them fail:
      a settled bucket ends at zero; one that fails has had the first few of its commits and no
      roll; every spot balance gains the sum of what its settled buckets held and traded at the
      start; and the ledger is again one that can be settled. */
  lemma {:induction false} SettlementRunNets(store: Store, trades: Trades, buckets: seq<Bucket>, checks: bool)
    requires Inv(store) && AllBooked(store, trades, buckets)
    ensures Stored(store, buckets) && Inv(SettleAll(store, trades, buckets, checks).store)
    ensures
      var o := SettleAll(store, trades, buckets, checks);
      && o.store.balances.Keys == store.balances.Keys
      && forall i | 0 <= i < |buckets| ::
           && BucketLeft(store, o.store, trades, buckets[i], o.settled[i])
           && o.store.balances[buckets[i].spot].amounts.balance ==
                store.balances[buckets[i].spot].amounts.balance +
                  NetInto(store, trades, buckets, o.settled, buckets[i].spot)
  {
    RunKeepsLeaving(store, trades, buckets, checks);
    forall i | 0 <= i < |buckets| ensures Bystander(store, trades, buckets, buckets[i].spot) {
      SpotIsBystander(store, trades, buckets, i);
    }
  }

  // ---- the service ----------------------------------------------------------------------------------

  /** One bucket: its commits as far as they get, and the roll if all of them do. */
  method SettleOne(settler: Settler, trades: Trades, b: Bucket) returns (settled: bool)
    modifies settler.service.blnk.ds
    ensures
      var before, checks := old(settler.service.blnk.ds.Snapshot()), settler.service.blnk.queuedChecks;
      && settler.service.blnk.ds.Snapshot() == Turn(before, trades, b, checks)
      && settled == Completes(before, trades, b, checks)
  {
    ghost var before, checks := settler.service.blnk.ds.Snapshot(), settler.service.blnk.queuedChecks;
    var legs := settler.CollectLegs(trades, b.future);
    var order := CommitOrder(legs, trades);
    if |b.stamps| != |order| { return false; }
    var k := Min(b.reach, |order|);
    var r, done := settler.Commit(order[..k], b.stamps[..k]);
    assert order[..k][..done] == order[..done] && b.stamps[..k][..done] == b.stamps[..done];
    ghost var p := Progress(settler.service.blnk.ds.Snapshot(), done);
    UpToWhole(before, order[..done], b.stamps[..done], checks);
    assert order[..|order|] == order && b.stamps[..|order|] == b.stamps;
    if r.Err? {
      StoppedAt(before, order, b.stamps, checks, p, k);
      StoppedAt(before, order, b.stamps, checks, p, |order|);
      UpToWhole(before, order, b.stamps, checks);
      return false;
    }
    assert order[..done] == order[..k] && b.stamps[..done] == b.stamps[..k];
    if b.reach <= |order| { return false; }
    assert order[..k] == order && b.stamps[..k] == b.stamps;
    r := settler.NetRollToSpot(b.future, b.spot, b.roll);
    return r.Ok?;
  }

  lemma {:induction false} SettleNext(store: Store, trades: Trades, buckets: seq<Bucket>, i: nat, checks: bool)
    requires i < |buckets|
    ensures
      var o := SettleAll(store, trades, buckets[..i], checks);
      SettleAll(store, trades, buckets[..i + 1], checks) ==
        RunResult(Turn(o.store, trades, buckets[i], checks),
          o.settled + [Completes(o.store, trades, buckets[i], checks)])
  {
    assert buckets[..i + 1][..i] == buckets[..i];
  }

  /** The run over the matured buckets, which a bucket that fails does not end. */
  method RunSettlement(settler: Settler, trades: Trades, buckets: seq<Bucket>) returns (settled: seq<bool>)
    modifies settler.service.blnk.ds
    ensures
      SettleAll(old(settler.service.blnk.ds.Snapshot()), trades, buckets, settler.service.blnk.queuedChecks)
      == RunResult(settler.service.blnk.ds.Snapshot(), settled)
  {
    ghost var before, checks := settler.service.blnk.ds.Snapshot(), settler.service.blnk.queuedChecks;
    settled := [];
    for i := 0 to |buckets|
      invariant SettleAll(before, trades, buckets[..i], checks) ==
        RunResult(settler.service.blnk.ds.Snapshot(), settled)
    {
      SettleNext(before, trades, buckets, i, checks);
      var ok := SettleOne(settler, trades, buckets[i]);
      settled := settled + [ok];
    }
    assert buckets[..|buckets|] == buckets;
  }
}
