/** Settling a future bucket: commit its pending security legs with their money legs, then
    net what is left on it to spot (brokerage.go:661-915, database/brokerage.go:727-778). */
module Settlement {
  import opened Wrappers
  import opened Ledger
  import opened Storage
  import opened Execution
  import opened Inflight
  import opened Kernel
  import InflightActions

  /** What the metadata of a transaction says about its part in a trade. */
  datatype Trade = Trade(security: bool, sell: bool, moneyLeg: Id)

  type Trades = map<Id, Trade>

  predicate IsPending(rows: seq<Txn>, t: Txn, balance: Id) {
    && t.status == Inflight && (t.source == balance || t.destination == balance)
    && !IsVoided(rows, t.id) && t.amount > Committed(rows, t.id)
  }

  /** The pending security legs of one side, in row order. */
  function PendingLegs(some: seq<Txn>, rows: seq<Txn>, trades: Trades, balance: Id, sell: bool): seq<Id> {
    if some == [] then []
    else
      var t := some[|some| - 1];
      PendingLegs(some[..|some| - 1], rows, trades, balance, sell) +
      if IsPending(rows, t, balance) && t.id in trades && trades[t.id].security && trades[t.id].sell == sell then [t.id]
        else []
  }

  /** The legs of a bucket, buys before sells. */
  function Legs(store: Store, trades: Trades, future: Id): seq<Id> {
    PendingLegs(store.rows, store.rows, trades, future, false) +
      PendingLegs(store.rows, store.rows, trades, future, true)
  }

  /** What is committed for the legs: each after its money leg. */
  function CommitOrder(legs: seq<Id>, trades: Trades): seq<Id> {
    if legs == [] then []
    else
      var leg := legs[|legs| - 1];
      CommitOrder(legs[..|legs| - 1], trades) +
      if leg in trades && trades[leg].moneyLeg != "" then [trades[leg].moneyLeg, leg] else [leg]
  }

  predicate IsLeg(rows: seq<Txn>, t: Txn, trades: Trades, balance: Id, sell: bool) {
    && t.status == Inflight && (t.source == balance || t.destination == balance)
    && !IsVoided(rows, t.id) && t.amount > Committed(rows, t.id)
    && t.id in trades && trades[t.id].security && trades[t.id].sell == sell
  }

  lemma {:induction false} PendingAreLegs(some: seq<Txn>, rows: seq<Txn>, trades: Trades, balance: Id, sell: bool)
    returns (from: seq<nat>)
    ensures |from| == |PendingLegs(some, rows, trades, balance, sell)|
    ensures forall k | 0 <= k < |from| :: from[k] < |some| && IsLeg(rows, some[from[k]], trades, balance, sell)
    ensures forall k | 0 <= k < |from| :: some[from[k]].id == PendingLegs(some, rows, trades, balance, sell)[k]
    ensures forall k, l | 0 <= k < l < |from| :: from[k] < from[l]
    ensures forall i | 0 <= i < |some| && IsLeg(rows, some[i], trades, balance, sell) :: i in from
  {
    from := [];
    if some != [] {
      var n := |some| - 1;
      from := PendingAreLegs(some[..n], rows, trades, balance, sell);
      if IsLeg(rows, some[n], trades, balance, sell) { from := from + [n]; }
    }
  }

  function MoneyLeg(trades: Trades, leg: Id): Id {
    if leg in trades then trades[leg].moneyLeg else ""
  }

  /** Leg k stands right behind its money leg, where it has one, and nothing else comes between it and
      the leg before it. */
  predicate PlacedAt(order: seq<Id>, legs: seq<Id>, trades: Trades, at: seq<nat>, k: nat)
    requires k < |at| == |legs|
  {
    var money, start := MoneyLeg(trades, legs[k]), if k == 0 then 0 else at[k - 1] + 1;
    && at[k] < |order| && order[at[k]] == legs[k]
    && (if money != "" then at[k] == start + 1 && order[start] == money else at[k] == start)
  }

  /** Where the legs stand in the commit order. */
  predicate InPlace(order: seq<Id>, legs: seq<Id>, trades: Trades, at: seq<nat>) {
    && |at| == |legs| && (forall k | 0 <= k < |at| :: PlacedAt(order, legs, trades, at, k))
    && |order| == if at == [] then 0 else at[|at| - 1] + 1
  }

  lemma {:induction false} OneMoreInPlace(order: seq<Id>, legs: seq<Id>, trades: Trades, at: seq<nat>, leg: Id)
    requires InPlace(order, legs, trades, at)
    ensures
      var money := MoneyLeg(trades, leg);
      if money != "" then InPlace(order + [money, leg], legs + [leg], trades, at + [|order| + 1])
      else InPlace(order + [leg], legs + [leg], trades, at + [|order|])
  {
    var money := MoneyLeg(trades, leg);
    var longer := if money != "" then order + [money, leg] else order + [leg];
    var places := at + [|longer| - 1];
    forall k | 0 <= k < |places| ensures PlacedAt(longer, legs + [leg], trades, places, k) {
      if k < |at| { assert PlacedAt(order, legs, trades, at, k); }
    }
  }

  lemma {:induction false} OrderInPlace(legs: seq<Id>, trades: Trades) returns (at: seq<nat>)
    ensures InPlace(CommitOrder(legs, trades), legs, trades, at)
  {
    at := [];
    if legs != [] {
      var n := |legs| - 1;
      var before := CommitOrder(legs[..n], trades);
      at := OrderInPlace(legs[..n], trades);
      OneMoreInPlace(before, legs[..n], trades, at, legs[n]);
      assert legs[..n] + [legs[n]] == legs;
      at := at + [if MoneyLeg(trades, legs[n]) != "" then |before| + 1 else |before|];
    }
  }

  lemma {:induction false} PlacesAscend(order: seq<Id>, legs: seq<Id>, trades: Trades, at: seq<nat>, k: nat, l: nat)
    requires InPlace(order, legs, trades, at) && k < l < |at|
    ensures at[k] < at[l]
  {
    assert PlacedAt(order, legs, trades, at, l);
    if k < l - 1 {
      PlacesAscend(order, legs, trades, at, k, l - 1);
    }
  }

  /** The order in which a bucket is committed: every buy before every sell, each side in the order of
      its rows; each money leg right before its security leg; and nothing but these legs. */
  lemma {:induction false} BuysBeforeSells(store: Store, trades: Trades, future: Id)
    returns (buys: seq<nat>, sells: seq<nat>, at: seq<nat>)
    ensures InPlace(CommitOrder(Legs(store, trades, future), trades), Legs(store, trades, future), trades, at)
    ensures |Legs(store, trades, future)| == |buys| + |sells|
    ensures forall k | 0 <= k < |buys| ::
      buys[k] < |store.rows| && Legs(store, trades, future)[k] == store.rows[buys[k]].id
    ensures forall l | 0 <= l < |sells| ::
      sells[l] < |store.rows| && Legs(store, trades, future)[|buys| + l] == store.rows[sells[l]].id
    ensures forall k, l | 0 <= k < l < |at| :: at[k] < at[l]
    ensures forall k | 0 <= k < |buys| :: IsLeg(store.rows, store.rows[buys[k]], trades, future, false)
    ensures forall l | 0 <= l < |sells| :: IsLeg(store.rows, store.rows[sells[l]], trades, future, true)
    ensures forall i | 0 <= i < |store.rows| && IsLeg(store.rows, store.rows[i], trades, future, false) :: i in buys
    ensures forall i | 0 <= i < |store.rows| && IsLeg(store.rows, store.rows[i], trades, future, true) :: i in sells
    ensures forall k, l | 0 <= k < l < |buys| :: buys[k] < buys[l]
    ensures forall k, l | 0 <= k < l < |sells| :: sells[k] < sells[l]
  {
    var legs := Legs(store, trades, future);
    buys := PendingAreLegs(store.rows, store.rows, trades, future, false);
    sells := PendingAreLegs(store.rows, store.rows, trades, future, true);
    at := OrderInPlace(legs, trades);
    forall k, l | 0 <= k < l < |at| ensures at[k] < at[l] {
      PlacesAscend(CommitOrder(legs, trades), legs, trades, at, k, l);
    }
  }

  /** Committing the remainder of each transaction in turn. */
  function CommitAll(store: Store, ids: seq<Id>, stamps: seq<Stamp>, checks: bool): Result<Store, Error>
    requires |stamps| == |ids|
  {
    if ids == [] then Ok(store)
    else
      var n := |ids| - 1;
      var before :- CommitAll(store, ids[..n], stamps[..n], checks);
      CommitLeg(before, ids[n], 0, stamps[n], checks)
  }

  /** The roll carries no status, so it is stored with the one its status maps to: none. */
  function RollTxn(store: Store, future: Id, spot: Id, stamp: Stamp): Txn
    requires future in store.balances
  {
    var net := store.balances[future].amounts.balance;
    Txn(stamp.id, "", if net < 0 then spot else future, if net < 0 then future else spot, stamp.reference, "",
        if net < 0 then -net else net, Unset, false, true, 0.0, 1.0, stamp.now, None)
  }

  function NetRoll(store: Store, future: Id, spot: Id, stamp: Stamp, checks: bool): Result<Store, Error> {
    if future !in store.balances then Err(BalanceNotFound)
    else if store.balances[future].amounts.balance == 0 then Ok(store)
    else Single(store, RollTxn(store, future, spot, stamp), checks)
  }

  function SettleFuture(store: Store, trades: Trades, future: Id, spot: Id, stamps: seq<Stamp>, roll: Stamp,
                        checks: bool): Result<Store, Error>
    requires |stamps| == |CommitOrder(Legs(store, trades, future), trades)|
  {
    var committed :- CommitAll(store, CommitOrder(Legs(store, trades, future), trades), stamps, checks);
    NetRoll(committed, future, spot, roll, checks)
  }

  // ---- committing a list of transactions ----------------------------------------------------

  predicate NewStamps(rows: seq<Txn>, ids: seq<Id>, stamps: seq<Stamp>) {
    && (forall i | 0 <= i < |stamps| :: Unused(rows, stamps[i].id) && stamps[i].id !in ids)
    && (forall i, j | 0 <= i < j < |stamps| :: stamps[i].id != stamps[j].id)
  }

  /** What committing the remainder of `id` moves on one side of a balance. */
  function Brings(rows: seq<Txn>, id: Id, balance: Id, debit: bool): int {
    match Find(rows, id)
    case None => 0
    case Some(t) => if t.status == Inflight && End(t, debit) == balance then HoldOf(rows, t) else 0
  }

  function AllBring(rows: seq<Txn>, ids: seq<Id>, balance: Id, debit: bool): int {
    if ids == [] then 0
    else AllBring(rows, ids[..|ids| - 1], balance, debit) + Brings(rows, ids[|ids| - 1], balance, debit)
  }

  lemma {:induction false} FindAppended(rows: seq<Txn>, c: Txn, id: Id)
    requires c.id != id
    ensures Find(rows + [c], id) == Find(rows, id)
  {
    assert (rows + [c])[..|rows|] == rows;
  }

  /** What moves on one balance when `taken` is committed on each of its sides. */
  predicate Moved2(a: Amounts, b: Amounts, credit: int, debit: int) {
    && SideOf(b, false) == SideOf(a, false) + credit && SideOf(b, true) == SideOf(a, true) + debit
    && HoldSideOf(b, false) == HoldSideOf(a, false) - credit && HoldSideOf(b, true) == HoldSideOf(a, true) - debit
  }

  /** One commit of a remainder, on the rows and on every balance. */
  predicate Commits(before: Store, after: Store, id: Id, c: Txn) {
    && after.balances.Keys == before.balances.Keys
    && c.parent == id && after.rows == before.rows + [c]
    && forall b <- after.balances ::
         Moved2(before.balances[b].amounts, after.balances[b].amounts,
                Brings(before.rows, id, b, false), Brings(before.rows, id, b, true))
  }

  /** Committing the rest of `t` by a child moves on every balance what `t` still held. */
  lemma {:induction false} RestMoves(before: Table, after: Table, rows: seq<Txn>, t: Txn, stamp: Stamp)
    requires Find(rows, t.id) == Some(t) && t.status == Inflight
    requires AllShifted(before, after, Child(t, Commit, HoldOf(rows, t), stamp))
    ensures forall b <- after ::
      Moved2(before[b].amounts, after[b].amounts, Brings(rows, t.id, b, false), Brings(rows, t.id, b, true))
  {
  }

  lemma {:induction false} CommitStored(store: Store, t: Txn, stamp: Stamp, checks: bool)
    requires Inv(store) && Find(store.rows, t.id) == Some(t) && t in store.rows
    requires CommitLeg(store, t.id, 0, stamp, checks).Ok?
    ensures
      var after := CommitLeg(store, t.id, 0, stamp, checks).value;
      && t.status == Inflight && after.balances.Keys == store.balances.Keys
      && after.rows == store.rows + [Finalized(Child(t, Commit, HoldOf(store.rows, t), stamp))]
      && AllShifted(store.balances, after.balances, Child(t, Commit, HoldOf(store.rows, t), stamp))
      && HoldOf(after.rows, t) == 0
  {
    var k :| 0 <= k < |store.rows| && store.rows[k] == t;
    CommitTakes(store, k, 0, stamp, checks);
    HoldIsRemainder(store.rows, t);
    var child := Child(t, Commit, HoldOf(store.rows, t), stamp);
    AllCoherentNow(store);
    SingleShifts(store, child, QueuedDebit(store.rows, child.source, checks));
  }

  lemma {:induction false} CommitShifts(store: Store, id: Id, stamp: Stamp, checks: bool) returns (c: Txn)
    requires Inv(store) && CommitLeg(store, id, 0, stamp, checks).Ok?
    ensures c.id == stamp.id && c.status == Applied
      && Commits(store, CommitLeg(store, id, 0, stamp, checks).value, id, c)
    ensures
      var after := CommitLeg(store, id, 0, stamp, checks).value;
      Find(store.rows, id).Some? && HoldOf(after.rows, Find(store.rows, id).value) == 0
  {
    var k := FoundAt(store.rows, id);
    var t := store.rows[k];
    CommitStored(store, t, stamp, checks);
    c := Finalized(Child(t, Commit, HoldOf(store.rows, t), stamp));
    RestMoves(store.balances, CommitLeg(store, id, 0, stamp, checks).value.balances, store.rows, t, stamp);
  }

  lemma {:induction false} CommitMoves(store: Store, id: Id, stamp: Stamp, checks: bool) returns (c: Txn)
    requires Inv(store) && Unused(store.rows, stamp.id) && stamp.id != id
    requires CommitLeg(store, id, 0, stamp, checks).Ok?
    ensures Inv(CommitLeg(store, id, 0, stamp, checks).value)
    ensures c.id == stamp.id && c.status == Applied
      && Commits(store, CommitLeg(store, id, 0, stamp, checks).value, id, c)
    ensures
      var after := CommitLeg(store, id, 0, stamp, checks).value;
      Find(store.rows, id).Some? && HoldOf(after.rows, Find(store.rows, id).value) == 0
  {
    CommitKeeps(store, id, 0, stamp, checks);
    c := CommitShifts(store, id, stamp, checks);
  }

  /** The rows that settling adds: children of the given transactions, and rolls, all under
      generated ids. */
  predicate Added(c: Txn, ids: seq<Id>, stamps: seq<Stamp>) {
    && (if c.status == Applied then c.parent in ids else c.status == Unset && c.parent == "")
    && exists k | 0 <= k < |stamps| :: c.id == stamps[k].id
  }

  predicate Adds(before: Store, after: Store, ids: seq<Id>, stamps: seq<Stamp>) {
    before.rows <= after.rows && forall i | |before.rows| <= i < |after.rows| :: Added(after.rows[i], ids, stamps)
  }

  /** A generated id that is on neither list stays new. */
  lemma {:induction false} StillFresh(before: Store, after: Store, ids: seq<Id>, stamps: seq<Stamp>, id: Id)
    requires Adds(before, after, ids, stamps) && Unused(before.rows, id) && id !in ids
    requires forall k | 0 <= k < |stamps| :: stamps[k].id != id
    ensures Unused(after.rows, id)
  {
    forall i | 0 <= i < |after.rows|
      ensures after.rows[i].id != id && after.rows[i].parent != id
    {
      if i < |before.rows| {
        assert after.rows[i] == before.rows[i];
      } else {
        assert Added(after.rows[i], ids, stamps);
      }
    }
  }

  lemma {:induction false} StillNew(before: Store, after: Store, ids: seq<Id>, stamps: seq<Stamp>, n: nat)
    requires |stamps| == |ids| && n < |ids| && NewStamps(before.rows, ids, stamps)
    requires Adds(before, after, ids[..n], stamps[..n])
    ensures Unused(after.rows, stamps[n].id)
  {
    assert stamps[n].id !in ids;
    forall k | 0 <= k < n ensures stamps[..n][k].id != stamps[n].id {
      assert stamps[..n][k] == stamps[k];
    }
    StillFresh(before, after, ids[..n], stamps[..n], stamps[n].id);
  }

  /** Whatever is not on the list, and whatever is only later on it, is left alone. */
  lemma {:induction false} LeftAlone(before: Store, after: Store, ids: seq<Id>, stamps: seq<Stamp>, id: Id, n: nat)
    requires Adds(before, after, ids, stamps) && id !in ids && |before.rows| <= n <= |after.rows|
    requires forall k | 0 <= k < |stamps| :: stamps[k].id != id
    ensures Find(after.rows[..n], id) == Find(before.rows, id)
    ensures Committed(after.rows[..n], id) == Committed(before.rows, id)
      && (IsVoided(after.rows[..n], id) <==> IsVoided(before.rows, id))
    decreases n
  {
    if n == |before.rows| {
      assert after.rows[..n] == before.rows;
    } else {
      LeftAlone(before, after, ids, stamps, id, n - 1);
      var c := after.rows[n - 1];
      assert after.rows[..n] == after.rows[..n - 1] + [c];
      OneMore(after.rows[..n - 1], c, id);
      FindAppended(after.rows[..n - 1], c, id);
    }
  }

  predicate AllMoved(before: Store, after: Store, ids: seq<Id>) {
    && after.balances.Keys == before.balances.Keys
    && forall b <- after.balances ::
         Moved2(before.balances[b].amounts, after.balances[b].amounts,
                AllBring(before.rows, ids, b, false), AllBring(before.rows, ids, b, true))
  }

  lemma {:induction false} AllMovedOneMore(store: Store, before: Store, after: Store, ids: seq<Id>, last: Id, c: Txn)
    requires ids != [] && last == ids[|ids| - 1]
    requires AllMoved(store, before, ids[..|ids| - 1]) && Commits(before, after, last, c)
    requires forall b: Id, debit: bool :: Brings(before.rows, last, b, debit) == Brings(store.rows, last, b, debit)
    ensures AllMoved(store, after, ids)
  {
    var n := |ids| - 1;
    forall b <- after.balances
      ensures Moved2(store.balances[b].amounts, after.balances[b].amounts, AllBring(store.rows, ids, b, false),
        AllBring(store.rows, ids, b, true))
    {
      assert Moved2(store.balances[b].amounts, before.balances[b].amounts, AllBring(store.rows, ids[..n], b, false),
        AllBring(store.rows, ids[..n], b, true));
      assert Moved2(before.balances[b].amounts, after.balances[b].amounts, Brings(before.rows, last, b, false),
        Brings(before.rows, last, b, true));
    }
  }

  lemma {:induction false} LastStillHolds(store: Store, before: Store, ids: seq<Id>, stamps: seq<Stamp>, b: Id,
                                          debit: bool)
    requires |stamps| == |ids| > 0 && Distinct(ids) && NewStamps(store.rows, ids, stamps)
    requires Adds(store, before, ids[..|ids| - 1], stamps[..|ids| - 1])
    ensures Brings(before.rows, ids[|ids| - 1], b, debit) == Brings(store.rows, ids[|ids| - 1], b, debit)
  {
    var n := |ids| - 1;
    forall k | 0 <= k < n ensures stamps[..n][k].id != ids[n] { assert stamps[k].id !in ids && ids[n] in ids; }
    NotEarlier(ids, n);
    LeftAlone(store, before, ids[..n], stamps[..n], ids[n], |before.rows|);
    assert before.rows[..|before.rows|] == before.rows;
    if Find(store.rows, ids[n]).Some? { var k := FoundAt(store.rows, ids[n]); }
  }

  lemma {:induction false} LastCommit(store: Store, before: Store, ids: seq<Id>, stamps: seq<Stamp>, checks: bool)
    requires |stamps| == |ids| > 0 && Distinct(ids) && NewStamps(store.rows, ids, stamps)
    requires Inv(before) && Adds(store, before, ids[..|ids| - 1], stamps[..|ids| - 1])
    requires AllMoved(store, before, ids[..|ids| - 1])
    requires CommitLeg(before, ids[|ids| - 1], 0, stamps[|ids| - 1], checks).Ok?
    ensures
      var after := CommitLeg(before, ids[|ids| - 1], 0, stamps[|ids| - 1], checks).value;
      Inv(after) && Adds(store, after, ids, stamps) && AllMoved(store, after, ids)
  {
    var n := |ids| - 1;
    StillNew(store, before, ids, stamps, n);
    assert stamps[n].id !in ids && ids[n] in ids;
    var c := CommitMoves(before, ids[n], stamps[n], checks);
    var after := CommitLeg(before, ids[n], 0, stamps[n], checks).value;
    var last := ids[n];
    forall b: Id, debit: bool ensures Brings(before.rows, last, b, debit) == Brings(store.rows, last, b, debit) {
      LastStillHolds(store, before, ids, stamps, b, debit);
    }
    AddsOneMore(store, before, after, ids, stamps, c);
    AllMovedOneMore(store, before, after, ids, last, c);
  }

  lemma {:induction false} FewerStamps(rows: seq<Txn>, ids: seq<Id>, stamps: seq<Stamp>)
    requires |stamps| == |ids| > 0 && Distinct(ids) && NewStamps(rows, ids, stamps)
    ensures Distinct(ids[..|ids| - 1]) && NewStamps(rows, ids[..|ids| - 1], stamps[..|ids| - 1])
  {
    var n := |ids| - 1;
    forall k | 0 <= k < n
      ensures Unused(rows, stamps[..n][k].id) && stamps[..n][k].id !in ids[..n]
    {
      assert Unused(rows, stamps[k].id) && stamps[k].id !in ids;
    }
  }

  /** Committing a list moves, on every balance, the sum of what its members held at the start. */
  lemma {:induction false} CommitAllMoves(store: Store, ids: seq<Id>, stamps: seq<Stamp>, checks: bool)
    requires |stamps| == |ids| && Inv(store) && Distinct(ids) && NewStamps(store.rows, ids, stamps)
    requires CommitAll(store, ids, stamps, checks).Ok?
    ensures
      var after := CommitAll(store, ids, stamps, checks).value;
      Inv(after) && Adds(store, after, ids, stamps) && AllMoved(store, after, ids)
  {
    if ids != [] {
      var n := |ids| - 1;
      FewerStamps(store.rows, ids, stamps);
      CommitAllMoves(store, ids[..n], stamps[..n], checks);
      LastCommit(store, CommitAll(store, ids[..n], stamps[..n], checks).value, ids, stamps, checks);
    }
  }

  lemma {:induction false} NotEarlier(ids: seq<Id>, n: nat)
    requires Distinct(ids) && n < |ids|
    ensures ids[n] !in ids[..n]
  {
  }

  lemma {:induction false} AddsOneMore(store: Store, before: Store, after: Store, ids: seq<Id>, stamps: seq<Stamp>,
                                       c: Txn)
    requires |stamps| == |ids| > 0 && Adds(store, before, ids[..|ids| - 1], stamps[..|ids| - 1])
    requires after.rows == before.rows + [c] && c.parent == ids[|ids| - 1] && c.id == stamps[|ids| - 1].id
    requires c.status == Applied
    ensures Adds(store, after, ids, stamps)
  {
    var n := |ids| - 1;
    assert ids == ids[..n] + [ids[n]] && stamps == stamps[..n] + [stamps[n]];
    AddsLater(store, before, after, ids[..n], [ids[n]], stamps[..n], [stamps[n]]);
  }

  /** What two stretches add together. */
  lemma {:induction false} AddsLater(store: Store, before: Store, after: Store, a: seq<Id>, b: seq<Id>, x: seq<Stamp>,
                                     y: seq<Stamp>)
    requires Adds(store, before, a, x) && Adds(before, after, b, y)
    ensures Adds(store, after, a + b, x + y)
  {
    forall i | |store.rows| <= i < |after.rows|
      ensures Added(after.rows[i], a + b, x + y)
    {
      var c := after.rows[i];
      if i < |before.rows| {
        assert c == before.rows[i] && Added(c, a, x);
        var k :| 0 <= k < |x| && c.id == x[k].id;
        assert c.id == (x + y)[k].id;
      } else {
        assert Added(c, b, y);
        var k :| 0 <= k < |y| && c.id == y[k].id;
        assert c.id == (x + y)[|x| + k].id;
      }
    }
  }

  /** A committed member holds nothing any more, whatever is committed after it. */
  lemma {:induction false} MembersEmptied(store: Store, ids: seq<Id>, stamps: seq<Stamp>, checks: bool, i: nat)
    requires |stamps| == |ids| && i < |ids| && Inv(store) && Distinct(ids) && NewStamps(store.rows, ids, stamps)
    requires CommitAll(store, ids, stamps, checks).Ok?
    ensures Find(store.rows, ids[i]).Some?
    ensures HoldOf(CommitAll(store, ids, stamps, checks).value.rows, Find(store.rows, ids[i]).value) == 0
  {
    var n := |ids| - 1;
    FewerStamps(store.rows, ids, stamps);
    CommitAllMoves(store, ids[..n], stamps[..n], checks);
    var before := CommitAll(store, ids[..n], stamps[..n], checks).value;
    StillNew(store, before, ids, stamps, n);
    assert stamps[n].id !in ids && ids[n] in ids;
    var c := CommitMoves(before, ids[n], stamps[n], checks);
    if i == n {
      forall k | 0 <= k < n ensures stamps[..n][k].id != ids[n] { assert stamps[k].id !in ids; }
      NotEarlier(ids, n);
      LeftAlone(store, before, ids[..n], stamps[..n], ids[n], |before.rows|);
      assert before.rows[..|before.rows|] == before.rows;
    } else {
      MembersEmptied(store, ids[..n], stamps[..n], checks, i);
      var k := FoundAt(store.rows, ids[i]);
      assert ids[i] != ids[n];
      OneMore(before.rows, c, ids[i]);
    }
  }

  // ---- how far a list gets --------------------------------------------------------------------

  /** Where committing a list stops, and after how many of its members. */
  datatype Progress = Progress(store: Store, done: nat)

  /** Committing one after another up to the first failure, which leaves the earlier commits in
      place. */
  function CommitsUpTo(store: Store, ids: seq<Id>, stamps: seq<Stamp>, checks: bool): (p: Progress)
    requires |stamps| == |ids|
    ensures p.done <= |ids|
  {
    if ids == [] then Progress(store, 0)
    else
      var n := |ids| - 1;
      var p := CommitsUpTo(store, ids[..n], stamps[..n], checks);
      if p.done < n then p
      else
        var r := CommitLeg(p.store, ids[n], 0, stamps[n], checks);
        if r.Ok? then Progress(r.value, n + 1) else p
  }

  lemma {:induction false} UpToWhole(store: Store, ids: seq<Id>, stamps: seq<Stamp>, checks: bool)
    requires |stamps| == |ids|
    ensures
      var r, p := CommitAll(store, ids, stamps, checks), CommitsUpTo(store, ids, stamps, checks);
      if r.Ok? then p == Progress(r.value, |ids|) else p.done < |ids|
  {
    if ids != [] {
      UpToWhole(store, ids[..|ids| - 1], stamps[..|ids| - 1], checks);
    }
  }

  lemma {:induction false} UpToIsPrefix(store: Store, ids: seq<Id>, stamps: seq<Stamp>, checks: bool)
    requires |stamps| == |ids|
    ensures
      var p := CommitsUpTo(store, ids, stamps, checks);
      CommitAll(store, ids[..p.done], stamps[..p.done], checks) == Ok(p.store)
  {
    var p := CommitsUpTo(store, ids, stamps, checks);
    if p.done == |ids| {
      UpToWhole(store, ids, stamps, checks);
      assert ids[..|ids|] == ids && stamps[..|ids|] == stamps;
    } else {
      var fewer, some := ids[..|ids| - 1], stamps[..|ids| - 1];
      UpToIsPrefix(store, fewer, some, checks);
      assert fewer[..p.done] == ids[..p.done] && some[..p.done] == stamps[..p.done];
    }
  }

  lemma {:induction false} StuckAt(store: Store, ids: seq<Id>, stamps: seq<Stamp>, checks: bool, p: Progress)
    requires |stamps| == |ids| > 0 && CommitsUpTo(store, ids[..|ids| - 1], stamps[..|ids| - 1], checks) == p
    requires p.done < |ids| - 1 || CommitLeg(p.store, ids[|ids| - 1], 0, stamps[|ids| - 1], checks).Err?
    ensures CommitsUpTo(store, ids, stamps, checks) == p
  {
  }

  lemma {:induction false} PrefixStuck(store: Store, ids: seq<Id>, stamps: seq<Stamp>, checks: bool, p: Progress,
                                       m: nat)
    requires |stamps| == |ids| && m < |ids| && CommitsUpTo(store, ids[..m], stamps[..m], checks) == p
    requires p.done < m || CommitLeg(p.store, ids[m], 0, stamps[m], checks).Err?
    ensures CommitsUpTo(store, ids[..m + 1], stamps[..m + 1], checks) == p
  {
    var some, others := ids[..m + 1], stamps[..m + 1];
    assert some[..m] == ids[..m] && others[..m] == stamps[..m];
    StuckAt(store, some, others, checks, p);
  }

  /** A failure ends the list: what was committed before it is all there is. */
  lemma {:induction false} StoppedAt(store: Store, ids: seq<Id>, stamps: seq<Stamp>, checks: bool, p: Progress, m: nat)
    requires |stamps| == |ids| && p.done < m <= |ids|
    requires CommitsUpTo(store, ids[..p.done], stamps[..p.done], checks) == p
    requires CommitLeg(p.store, ids[p.done], 0, stamps[p.done], checks).Err?
    ensures CommitsUpTo(store, ids[..m], stamps[..m], checks) == p
  {
    PrefixStuck(store, ids, stamps, checks, p, p.done);
    StaysStuck(store, ids, stamps, checks, p, p.done + 1, m);
  }

  lemma {:induction false} StaysStuck(store: Store, ids: seq<Id>, stamps: seq<Stamp>, checks: bool, p: Progress, k: nat,
                                      m: nat)
    requires |stamps| == |ids| && p.done < k <= m <= |ids| && CommitsUpTo(store, ids[..k], stamps[..k], checks) == p
    ensures CommitsUpTo(store, ids[..m], stamps[..m], checks) == p
    decreases m - k
  {
    if k < m {
      PrefixStuck(store, ids, stamps, checks, p, k);
      StaysStuck(store, ids, stamps, checks, p, k + 1, m);
    }
  }

  // ---- when a list can be committed -----------------------------------------------------------

  /** Something of the transaction is still held, and none of it is voided. */
  predicate Remains(rows: seq<Txn>, id: Id) {
    var found := Find(rows, id);
    found.Some? && found.value.status == Inflight && !IsVoided(rows, id) && HoldOf(rows, found.value) > 0
  }

  predicate AllRemain(rows: seq<Txn>, ids: seq<Id>) {
    forall i | 0 <= i < |ids| :: Remains(rows, ids[i])
  }

  predicate NewReferences(rows: seq<Txn>, stamps: seq<Stamp>) {
    && (forall i | 0 <= i < |stamps| :: !HasReference(rows, stamps[i].reference))
    && (forall i, j | 0 <= i < j < |stamps| :: stamps[i].reference != stamps[j].reference)
  }

  predicate Refers(stamps: seq<Stamp>, reference: string) {
    exists k | 0 <= k < |stamps| :: stamps[k].reference == reference
  }

  lemma {:induction false} CommitOneIff(store: Store, id: Id, stamp: Stamp, checks: bool)
    requires Inv(store)
    ensures CommitLeg(store, id, 0, stamp, checks).Ok? <==>
      Remains(store.rows, id) && !HasReference(store.rows, stamp.reference)
  {
    if Find(store.rows, id).Some? {
      var k := FoundAt(store.rows, id);
      CommitSucceedsIff(store, k, 0, stamp, checks);
    }
  }

  lemma {:induction false} CommitOneRefers(store: Store, id: Id, stamp: Stamp, checks: bool, reference: string)
    requires Inv(store) && CommitLeg(store, id, 0, stamp, checks).Ok?
    ensures HasReference(CommitLeg(store, id, 0, stamp, checks).value.rows, reference) <==>
      HasReference(store.rows, reference) || reference == stamp.reference
  {
    var k := FoundAt(store.rows, id);
    CommitTakes(store, k, 0, stamp, checks);
    var c := Finalized(Child(store.rows[k], Commit, HoldOf(store.rows, store.rows[k]), stamp));
    ReferencesSplit(store.rows, [c], reference);
    assert [c][0].reference == stamp.reference;
  }

  /** The references a list of commits has used up. */
  lemma {:induction false} CommitAllRefers(store: Store, ids: seq<Id>, stamps: seq<Stamp>, checks: bool,
                                           reference: string)
    requires |stamps| == |ids| && Inv(store) && Distinct(ids) && NewStamps(store.rows, ids, stamps)
    requires CommitAll(store, ids, stamps, checks).Ok?
    ensures HasReference(CommitAll(store, ids, stamps, checks).value.rows, reference) <==>
      HasReference(store.rows, reference) || Refers(stamps, reference)
  {
    if ids != [] {
      var n := |ids| - 1;
      FewerStamps(store.rows, ids, stamps);
      CommitAllMoves(store, ids[..n], stamps[..n], checks);
      CommitAllRefers(store, ids[..n], stamps[..n], checks, reference);
      CommitOneRefers(CommitAll(store, ids[..n], stamps[..n], checks).value, ids[n], stamps[n], checks, reference);
      RefersLast(stamps, reference);
    }
  }

  lemma {:induction false} RefersLast(stamps: seq<Stamp>, reference: string)
    requires stamps != []
    ensures Refers(stamps, reference) <==>
      Refers(stamps[..|stamps| - 1], reference) || reference == stamps[|stamps| - 1].reference
  {
    assert forall k | 0 <= k < |stamps| - 1 :: stamps[..|stamps| - 1][k] == stamps[k];
  }

  lemma {:induction false} LastRemains(store: Store, before: Store, ids: seq<Id>, stamps: seq<Stamp>)
    requires |stamps| == |ids| > 0 && Distinct(ids) && NewStamps(store.rows, ids, stamps)
    requires Adds(store, before, ids[..|ids| - 1], stamps[..|ids| - 1])
    ensures Remains(before.rows, ids[|ids| - 1]) <==> Remains(store.rows, ids[|ids| - 1])
  {
    var n := |ids| - 1;
    forall k | 0 <= k < n ensures stamps[..n][k].id != ids[n] { assert stamps[k].id !in ids && ids[n] in ids; }
    NotEarlier(ids, n);
    LeftAlone(store, before, ids[..n], stamps[..n], ids[n], |before.rows|);
    assert before.rows[..|before.rows|] == before.rows;
    if Find(store.rows, ids[n]).Some? { var k := FoundAt(store.rows, ids[n]); }
  }

  lemma {:induction false} OneMoreNewReference(rows: seq<Txn>, stamps: seq<Stamp>)
    requires stamps != []
    ensures
      var n := |stamps| - 1;
      NewReferences(rows, stamps) <==>
        NewReferences(rows, stamps[..n]) && !HasReference(rows, stamps[n].reference)
          && !Refers(stamps[..n], stamps[n].reference)
  {
    var n := |stamps| - 1;
    assert forall k | 0 <= k < n :: stamps[..n][k] == stamps[k];
  }

  lemma {:induction false} AllRemainLast(rows: seq<Txn>, ids: seq<Id>)
    requires ids != []
    ensures AllRemain(rows, ids) <==> AllRemain(rows, ids[..|ids| - 1]) && Remains(rows, ids[|ids| - 1])
  {
    assert forall i | 0 <= i < |ids| - 1 :: ids[..|ids| - 1][i] == ids[i];
  }

  /** In a reachable ledger a list of transactions can be committed exactly when each of them
      still holds something at the start and the generated references are new: no commit stands
      in the way of another. */
  lemma {:induction false} CommitAllSucceedsIff(store: Store, ids: seq<Id>, stamps: seq<Stamp>, checks: bool)
    requires |stamps| == |ids| && Inv(store) && Distinct(ids) && NewStamps(store.rows, ids, stamps)
    ensures CommitAll(store, ids, stamps, checks).Ok? <==>
      AllRemain(store.rows, ids) && NewReferences(store.rows, stamps)
  {
    if ids != [] {
      var n := |ids| - 1;
      FewerStamps(store.rows, ids, stamps);
      CommitAllSucceedsIff(store, ids[..n], stamps[..n], checks);
      OneMoreNewReference(store.rows, stamps);
      AllRemainLast(store.rows, ids);
      var first := CommitAll(store, ids[..n], stamps[..n], checks);
      if first.Ok? {
        CommitAllMoves(store, ids[..n], stamps[..n], checks);
        LastRemains(store, first.value, ids, stamps);
        CommitOneIff(first.value, ids[n], stamps[n], checks);
        CommitAllRefers(store, ids[..n], stamps[..n], checks, stamps[n].reference);
      }
    }
  }

  // ---- the bucket -----------------------------------------------------------------------------

  lemma {:induction false} AllBringSplit(rows: seq<Txn>, a: seq<Id>, b: seq<Id>, balance: Id, debit: bool)
    ensures AllBring(rows, a + b, balance, debit) ==
      AllBring(rows, a, balance, debit) + AllBring(rows, b, balance, debit)
  {
    if b == [] {
      assert a + b == a;
    } else {
      assert (a + b)[..|a + b| - 1] == a + b[..|b| - 1];
      AllBringSplit(rows, a, b[..|b| - 1], balance, debit);
    }
  }

  lemma {:induction false} AllBringNothing(rows: seq<Txn>, ids: seq<Id>, balance: Id, debit: bool)
    requires forall i | 0 <= i < |ids| :: Brings(rows, ids[i], balance, debit) == 0
    ensures AllBring(rows, ids, balance, debit) == 0
  {
    if ids != [] {
      AllBringNothing(rows, ids[..|ids| - 1], balance, debit);
    }
  }

  predicate Clear(rows: seq<Txn>, id: Id, balance: Id) {
    Brings(rows, id, balance, false) == 0 && Brings(rows, id, balance, true) == 0
  }

  /** A leg runs between the future bucket and someone else, and its money leg elsewhere. */
  predicate LegBooked(rows: seq<Txn>, trades: Trades, leg: Id, future: Id, spot: Id) {
    && leg in trades && Clear(rows, leg, spot)
    && Brings(rows, leg, future, !trades[leg].sell) == 0
    && (trades[leg].moneyLeg != "" ==>
      Clear(rows, trades[leg].moneyLeg, future) && Clear(rows, trades[leg].moneyLeg, spot))
  }

  /** How trades are booked: buys into the bucket, sells out of it, never from or to spot; every
      trade has its own money leg. */
  predicate WellBooked(store: Store, trades: Trades, future: Id, spot: Id) {
    && future != spot && future in store.balances && spot in store.balances
    && Distinct(CommitOrder(Legs(store, trades, future), trades))
    && forall i | 0 <= i < |Legs(store, trades, future)| ::
         LegBooked(store.rows, trades, Legs(store, trades, future)[i], future, spot)
  }

  lemma {:induction false} MoneyLegsBringNothing(rows: seq<Txn>, legs: seq<Id>, trades: Trades, balance: Id,
                                                 debit: bool)
    requires forall i | 0 <= i < |legs| ::
      legs[i] in trades
        && (trades[legs[i]].moneyLeg != "" ==> Brings(rows, trades[legs[i]].moneyLeg, balance, debit) == 0)
    ensures AllBring(rows, CommitOrder(legs, trades), balance, debit) == AllBring(rows, legs, balance, debit)
  {
    if legs != [] {
      var rest, leg := legs[..|legs| - 1], legs[|legs| - 1];
      MoneyLegsBringNothing(rows, rest, trades, balance, debit);
      var last := if trades[leg].moneyLeg != "" then [trades[leg].moneyLeg, leg] else [leg];
      assert CommitOrder(legs, trades) == CommitOrder(rest, trades) + last;
      AllBringSplit(rows, CommitOrder(rest, trades), last, balance, debit);
      OneOrTwoBring(rows, trades[leg].moneyLeg, leg, balance, debit);
    }
  }

  lemma {:induction false} OneOrTwoBring(rows: seq<Txn>, money: Id, leg: Id, balance: Id, debit: bool)
    ensures AllBring(rows, [leg], balance, debit) == Brings(rows, leg, balance, debit)
    ensures AllBring(rows, [money, leg], balance, debit) ==
      Brings(rows, money, balance, debit) + Brings(rows, leg, balance, debit)
  {
    assert [leg][..0] == [] && [money, leg][..1] == [money] && [money][..0] == [];
  }

  lemma {:induction false} PendingHaveSide(some: seq<Txn>, rows: seq<Txn>, trades: Trades, balance: Id, sell: bool)
    ensures forall i | 0 <= i < |PendingLegs(some, rows, trades, balance, sell)| ::
      var leg := PendingLegs(some, rows, trades, balance, sell)[i];
      leg in trades && trades[leg].security && trades[leg].sell == sell
  {
    if some != [] {
      PendingHaveSide(some[..|some| - 1], rows, trades, balance, sell);
    }
  }

  function Buys(store: Store, trades: Trades, future: Id): seq<Id> {
    PendingLegs(store.rows, store.rows, trades, future, false)
  }

  function Sells(store: Store, trades: Trades, future: Id): seq<Id> {
    PendingLegs(store.rows, store.rows, trades, future, true)
  }

  /** The quantity bought into, and sold out of, the bucket and still pending. */
  function Bought(store: Store, trades: Trades, future: Id): int {
    AllBring(store.rows, Buys(store, trades, future), future, false)
  }

  function Sold(store: Store, trades: Trades, future: Id): int {
    AllBring(store.rows, Sells(store, trades, future), future, true)
  }

  /** What the commits of a bucket move on the bucket itself and on spot. */
  lemma {:induction false} BucketBrings(store: Store, trades: Trades, future: Id, spot: Id)
    requires WellBooked(store, trades, future, spot)
    ensures
      var order := CommitOrder(Legs(store, trades, future), trades);
      && AllBring(store.rows, order, future, false) == Bought(store, trades, future)
      && AllBring(store.rows, order, future, true) == Sold(store, trades, future)
      && AllBring(store.rows, order, spot, false) == 0 && AllBring(store.rows, order, spot, true) == 0
  {
    var rows, buys, sells := store.rows, Buys(store, trades, future), Sells(store, trades, future);
    var legs := Legs(store, trades, future);
    PendingHaveSide(rows, rows, trades, future, false);
    PendingHaveSide(rows, rows, trades, future, true);
    forall i | 0 <= i < |legs|
      ensures LegBooked(rows, trades, legs[i], future, spot)
    {
    }
    forall i | 0 <= i < |buys| ensures Brings(rows, buys[i], future, true) == 0 { assert legs[i] == buys[i]; }
    forall i | 0 <= i < |sells| ensures Brings(rows, sells[i], future, false) == 0 {
      assert legs[|buys| + i] == sells[i];
    }
    AllBringNothing(rows, buys, future, true);
    AllBringNothing(rows, sells, future, false);
    AllBringSplit(rows, buys, sells, future, false);
    AllBringSplit(rows, buys, sells, future, true);
    AllBringNothing(rows, legs, spot, false);
    AllBringNothing(rows, legs, spot, true);
    MoneyLegsBringNothing(rows, legs, trades, future, false);
    MoneyLegsBringNothing(rows, legs, trades, future, true);
    MoneyLegsBringNothing(rows, legs, trades, spot, false);
    MoneyLegsBringNothing(rows, legs, trades, spot, true);
  }

  /** The roll empties the bucket into spot and touches nothing else; the only thing that can
      refuse it is a reference already in use. */
  lemma {:induction false} RollMoves(store: Store, future: Id, spot: Id, stamp: Stamp, checks: bool)
    requires AllCoherent(store.balances) && future != spot && future in store.balances && spot in store.balances
    requires UniqueReferences(store.rows)
    ensures NetRoll(store, future, spot, stamp, checks).Ok? <==>
      store.balances[future].amounts.balance == 0 || !HasReference(store.rows, stamp.reference)
    ensures NetRoll(store, future, spot, stamp, checks).Ok? ==>
      var after := NetRoll(store, future, spot, stamp, checks).value;
      var net := store.balances[future].amounts.balance;
      && after.balances.Keys == store.balances.Keys && AllCoherent(after.balances)
      && after.balances[future].amounts.balance == 0
      && after.balances[spot].amounts.balance == store.balances[spot].amounts.balance + net
      && (forall b <- after.balances :: b != future && b != spot ==>
        after.balances[b].amounts == store.balances[b].amounts)
      && (forall b <- after.balances, debit ::
        HoldSideOf(after.balances[b].amounts, debit) == HoldSideOf(store.balances[b].amounts, debit))
      && after.rows == store.rows + if net == 0 then [] else [Finalized(RollTxn(store, future, spot, stamp))]
  {
    if store.balances[future].amounts.balance == 0 {
      assert store.rows + [] == store.rows;
    } else {
      var t := RollTxn(store, future, spot, stamp);
      RollPosts(store, t, checks);
      if Single(store, t, checks).Ok? {
        SingleShifts(store, t, QueuedDebit(store.rows, t.source, checks));
        SingleEffect(store, t, QueuedDebit(store.rows, t.source, checks));
      }
    }
  }

  /** The roll is a row like any other to the ledger: it keeps the invariant. */
  lemma {:induction false} RollKeeps(store: Store, future: Id, spot: Id, stamp: Stamp, checks: bool)
    requires Inv(store) && Unused(store.rows, stamp.id)
    requires NetRoll(store, future, spot, stamp, checks).Ok?
    ensures Inv(NetRoll(store, future, spot, stamp, checks).value)
  {
    if store.balances[future].amounts.balance != 0 {
      var t := RollTxn(store, future, spot, stamp);
      assert WellFormed(store, Record(t));
      RecordKeeps(store, t, QueuedDebit(store.rows, t.source, checks));
    }
  }

  lemma {:induction false} RollPosts(store: Store, t: Txn, checks: bool)
    requires t.status == Unset && t.amount > 0 && t.allowOverdraft && t.overdraftLimit == 0.0
    requires t.source != t.destination
    requires t.source in store.balances && t.destination in store.balances && UniqueReferences(store.rows)
    ensures Single(store, t, checks).Ok? <==> !HasReference(store.rows, t.reference)
  {
    var s, d := store.balances[t.source], store.balances[t.destination];
    var debited := SourceSide(t, s.amounts, QueuedDebit(store.rows, t.source, checks)).value;
    var credited := DestinationSide(t, d.amounts).value;
    PairWritten(store.balances, Write(t.source, debited, s.version), Write(t.destination, credited, d.version));
  }

  /** Settling a bucket leaves it at zero with nothing pending on its legs, and changes spot by
      exactly what was on the bucket plus the pending buys minus the pending sells. */
  lemma {:induction false} SettlementNets(store: Store, trades: Trades, future: Id, spot: Id, stamps: seq<Stamp>,
                                          roll: Stamp, checks: bool)
    requires |stamps| == |CommitOrder(Legs(store, trades, future), trades)|
    requires Inv(store) && WellBooked(store, trades, future, spot)
    requires NewStamps(store.rows, CommitOrder(Legs(store, trades, future), trades), stamps)
    requires SettleFuture(store, trades, future, spot, stamps, roll, checks).Ok?
    ensures
      var after := SettleFuture(store, trades, future, spot, stamps, roll, checks).value;
      && after.balances.Keys == store.balances.Keys && AllCoherent(after.balances)
      && after.balances[future].amounts.balance == 0
      && after.balances[spot].amounts.balance ==
           store.balances[spot].amounts.balance + store.balances[future].amounts.balance
           + Bought(store, trades, future) - Sold(store, trades, future)
  {
    var order := CommitOrder(Legs(store, trades, future), trades);
    var committed := CommitAll(store, order, stamps, checks).value;
    CommitAllMoves(store, order, stamps, checks);
    BucketBrings(store, trades, future, spot);
    AllCoherentNow(store);
    AllCoherentNow(committed);
    RollMoves(committed, future, spot, roll, checks);
    assert Moved2(store.balances[future].amounts, committed.balances[future].amounts, Bought(store, trades, future),
      Sold(store, trades, future));
    assert Moved2(store.balances[spot].amounts, committed.balances[spot].amounts, 0, 0);
  }

  /** What the commits and the roll of a bucket leave behind, away from the bucket and spot. */
  predicate Leaves(store: Store, after: Store, order: seq<Id>, stamps: seq<Stamp>, future: Id, spot: Id) {
    && Inv(after) && Adds(store, after, order, stamps) && after.balances.Keys == store.balances.Keys
    && forall b <- after.balances :: b != future && b != spot ==>
         Moved2(store.balances[b].amounts, after.balances[b].amounts, AllBring(store.rows, order, b, false),
           AllBring(store.rows, order, b, true))
  }

  lemma {:induction false} RollAdds(committed: Store, after: Store, future: Id, spot: Id, roll: Stamp)
    requires future in committed.balances
    requires after.rows == committed.rows ||
      after.rows == committed.rows + [Finalized(RollTxn(committed, future, spot, roll))]
    ensures Adds(committed, after, [], [roll])
  {
    assert [roll][0].id == roll.id;
  }

  lemma {:induction false} RollLeaves(store: Store, committed: Store, order: seq<Id>, stamps: seq<Stamp>, future: Id,
                                      spot: Id, roll: Stamp, checks: bool)
    requires Inv(committed) && Adds(store, committed, order, stamps) && AllMoved(store, committed, order)
    requires future != spot && future in committed.balances && spot in committed.balances
    requires Unused(committed.rows, roll.id)
    requires NetRoll(committed, future, spot, roll, checks).Ok?
    ensures Leaves(store, NetRoll(committed, future, spot, roll, checks).value, order, stamps + [roll], future, spot)
  {
    AllCoherentNow(committed);
    RollMoves(committed, future, spot, roll, checks);
    RollKeeps(committed, future, spot, roll, checks);
    var after := NetRoll(committed, future, spot, roll, checks).value;
    RollAdds(committed, after, future, spot, roll);
    AddsLater(store, committed, after, order, [], stamps, [roll]);
    assert order + [] == order;
    forall b <- after.balances | b != future && b != spot
      ensures Moved2(store.balances[b].amounts, after.balances[b].amounts, AllBring(store.rows, order, b, false),
        AllBring(store.rows, order, b, true))
    {
      assert after.balances[b].amounts == committed.balances[b].amounts;
    }
  }

  /** Settling a bucket keeps the ledger invariant, so the next bucket finds it again. */
  lemma {:induction false} SettlementKeeps(store: Store, trades: Trades, future: Id, spot: Id, stamps: seq<Stamp>,
                                           roll: Stamp, checks: bool)
    requires |stamps| == |CommitOrder(Legs(store, trades, future), trades)|
    requires Inv(store) && WellBooked(store, trades, future, spot)
    requires NewStamps(store.rows, CommitOrder(Legs(store, trades, future), trades), stamps + [roll])
    requires SettleFuture(store, trades, future, spot, stamps, roll, checks).Ok?
    ensures Leaves(store, SettleFuture(store, trades, future, spot, stamps, roll, checks).value,
                   CommitOrder(Legs(store, trades, future), trades), stamps + [roll], future, spot)
  {
    var order := CommitOrder(Legs(store, trades, future), trades);
    FewerNewStamps(store.rows, order, stamps, roll);
    CommitAllMoves(store, order, stamps, checks);
    var committed := CommitAll(store, order, stamps, checks).value;
    StillFresh(store, committed, order, stamps, roll.id);
    RollLeaves(store, committed, order, stamps, future, spot, roll, checks);
  }

  lemma {:induction false} FewerNewStamps(rows: seq<Txn>, ids: seq<Id>, stamps: seq<Stamp>, roll: Stamp)
    requires NewStamps(rows, ids, stamps + [roll])
    ensures NewStamps(rows, ids, stamps) && Unused(rows, roll.id) && roll.id !in ids
    ensures forall k | 0 <= k < |stamps| :: stamps[k].id != roll.id
  {
    var all := stamps + [roll];
    assert all[|stamps|] == roll && forall k | 0 <= k < |stamps| :: all[k] == stamps[k];
  }

  // ---- a second settlement ----------------------------------------------------------------------

  lemma {:induction false} LegsListed(some: seq<Txn>, rows: seq<Txn>, trades: Trades, balance: Id, i: nat)
    requires i < |some| && IsPending(rows, some[i], balance) && some[i].id in trades && trades[some[i].id].security
    ensures some[i].id in PendingLegs(some, rows, trades, balance, trades[some[i].id].sell)
  {
    if i < |some| - 1 {
      LegsListed(some[..|some| - 1], rows, trades, balance, i);
    }
  }

  lemma {:induction false} NoneListed(some: seq<Txn>, rows: seq<Txn>, trades: Trades, balance: Id, sell: bool)
    requires forall i | 0 <= i < |some| ::
      !(IsPending(rows, some[i], balance) && some[i].id in trades && trades[some[i].id].security)
    ensures PendingLegs(some, rows, trades, balance, sell) == []
  {
    if some != [] {
      NoneListed(some[..|some| - 1], rows, trades, balance, sell);
    }
  }

  lemma {:induction false} OrderHasLegs(legs: seq<Id>, trades: Trades, leg: Id)
    requires leg in legs
    ensures leg in CommitOrder(legs, trades)
  {
    var n := |legs| - 1;
    assert legs == legs[..n] + [legs[n]];
    if leg != legs[n] { OrderHasLegs(legs[..n], trades, leg); }
  }

  /** A row pending before and not committed stays as it was; a committed one is pending no
      more; nothing new is pending. */
  lemma {:induction false} NothingPendingAfter(store: Store, trades: Trades, future: Id, stamps: seq<Stamp>,
                                               checks: bool, i: nat)
    requires |stamps| == |CommitOrder(Legs(store, trades, future), trades)| && Inv(store)
    requires Distinct(CommitOrder(Legs(store, trades, future), trades))
    requires NewStamps(store.rows, CommitOrder(Legs(store, trades, future), trades), stamps)
    requires CommitAll(store, CommitOrder(Legs(store, trades, future), trades), stamps, checks).Ok?
    requires i < |store.rows|
    ensures
      var after := CommitAll(store, CommitOrder(Legs(store, trades, future), trades), stamps, checks).value;
      var t := store.rows[i];
      !(IsPending(after.rows, t, future) && t.id in trades && trades[t.id].security)
  {
    var order := CommitOrder(Legs(store, trades, future), trades);
    var after, t := CommitAll(store, order, stamps, checks).value, store.rows[i];
    CommitAllMoves(store, order, stamps, checks);
    if IsPending(after.rows, t, future) && t.id in trades && trades[t.id].security {
      PendingBefore(store, after, t);
      LegsListed(store.rows, store.rows, trades, future, i);
      assert t.id in Legs(store, trades, future);
      OrderHasLegs(Legs(store, trades, future), trades, t.id);
      var k :| 0 <= k < |order| && order[k] == t.id;
      MembersEmptied(store, order, stamps, checks, k);
      FindsIt(store.rows, i);
    }
  }

  /** What is pending later was pending before. */
  lemma {:induction false} PendingBefore(store: Store, after: Store, t: Txn)
    requires Inv(after) && store.rows <= after.rows
    ensures !IsVoided(after.rows, t.id) ==> !IsVoided(store.rows, t.id)
    ensures Committed(store.rows, t.id) <= Committed(after.rows, t.id)
  {
    var more := after.rows[|store.rows|..];
    assert after.rows == store.rows + more;
    forall i | 0 <= i < |more| && more[i].status == Applied ensures more[i].amount >= 0 {
      assert more[i] == after.rows[|store.rows| + i];
    }
    CommittedGrows(store.rows, more, t.id);
    if IsVoided(store.rows, t.id) {
      var i :| 0 <= i < |store.rows| && store.rows[i].parent == t.id && store.rows[i].status == Void;
      assert after.rows[i] == store.rows[i];
    }
  }

  /** A settled bucket has nothing left to settle: doing it again changes nothing. */
  lemma {:induction false} SecondSettlementIsNoOp(store: Store, trades: Trades, future: Id, spot: Id,
                                                  stamps: seq<Stamp>, roll: Stamp,
                                                  again: Stamp, checks: bool)
    requires |stamps| == |CommitOrder(Legs(store, trades, future), trades)|
    requires Inv(store) && WellBooked(store, trades, future, spot)
    requires NewStamps(store.rows, CommitOrder(Legs(store, trades, future), trades), stamps)
    requires SettleFuture(store, trades, future, spot, stamps, roll, checks).Ok?
    ensures
      var after := SettleFuture(store, trades, future, spot, stamps, roll, checks).value;
      Legs(after, trades, future) == [] && SettleFuture(after, trades, future, spot, [], again, checks) == Ok(after)
  {
    var order := CommitOrder(Legs(store, trades, future), trades);
    var committed := CommitAll(store, order, stamps, checks).value;
    CommitAllMoves(store, order, stamps, checks);
    NothingLeft(store, trades, future, stamps, checks, committed.rows);
    RollLeavesNoLegs(committed, trades, future, spot, roll, checks);
    SettlementNets(store, trades, future, spot, stamps, roll, checks);
    assert CommitOrder([], trades) == [];
  }

  lemma {:induction false} RollLeavesNoLegs(committed: Store, trades: Trades, future: Id, spot: Id, roll: Stamp,
                                            checks: bool)
    requires Inv(committed) && future != spot && future in committed.balances && spot in committed.balances
    requires NetRoll(committed, future, spot, roll, checks).Ok? && Legs(committed, trades, future) == []
    requires forall i | 0 <= i < |committed.rows| ::
      !(IsPending(committed.rows, committed.rows[i], future) && committed.rows[i].id in trades
        && trades[committed.rows[i].id].security)
    ensures Legs(NetRoll(committed, future, spot, roll, checks).value, trades, future) == []
  {
    AllCoherentNow(committed);
    RollMoves(committed, future, spot, roll, checks);
    if committed.balances[future].amounts.balance != 0 {
      var t := Finalized(RollTxn(committed, future, spot, roll));
      RollLeavesNothing(committed, t, trades, future, false);
      RollLeavesNothing(committed, t, trades, future, true);
    } else {
      assert committed.rows + [] == committed.rows;
    }
  }

  lemma {:induction false} NothingLeft(store: Store, trades: Trades, future: Id, stamps: seq<Stamp>, checks: bool,
                                       rows: seq<Txn>)
    requires |stamps| == |CommitOrder(Legs(store, trades, future), trades)| && Inv(store)
    requires Distinct(CommitOrder(Legs(store, trades, future), trades))
    requires NewStamps(store.rows, CommitOrder(Legs(store, trades, future), trades), stamps)
    requires CommitAll(store, CommitOrder(Legs(store, trades, future), trades), stamps, checks).Ok?
    requires rows == CommitAll(store, CommitOrder(Legs(store, trades, future), trades), stamps, checks).value.rows
    ensures PendingLegs(rows, rows, trades, future, false) == [] && PendingLegs(rows, rows, trades, future, true) == []
    ensures forall i | 0 <= i < |rows| ::
      !(IsPending(rows, rows[i], future) && rows[i].id in trades && trades[rows[i].id].security)
  {
    CommitAllMoves(store, CommitOrder(Legs(store, trades, future), trades), stamps, checks);
    forall i | 0 <= i < |rows|
      ensures !(IsPending(rows, rows[i], future) && rows[i].id in trades && trades[rows[i].id].security)
    {
      if i < |store.rows| {
        NothingPendingAfter(store, trades, future, stamps, checks, i);
        assert rows[i] == store.rows[i];
      }
    }
    NoneListed(rows, rows, trades, future, false);
    NoneListed(rows, rows, trades, future, true);
  }

  /** The roll is no leg of anything. */
  lemma {:induction false} RollLeavesNothing(committed: Store, t: Txn, trades: Trades, future: Id, sell: bool)
    requires t.parent == "" && t.status == Unset && Inv(committed)
    requires forall i | 0 <= i < |committed.rows| ::
      !(IsPending(committed.rows, committed.rows[i], future) && committed.rows[i].id in trades
        && trades[committed.rows[i].id].security)
    ensures PendingLegs(committed.rows + [t], committed.rows + [t], trades, future, sell) == []
  {
    var rows := committed.rows + [t];
    forall i | 0 <= i < |rows|
      ensures !(IsPending(rows, rows[i], future) && rows[i].id in trades && trades[rows[i].id].security)
    {
      if i < |committed.rows| {
        OneMore(committed.rows, t, rows[i].id);
        assert rows[i] == committed.rows[i];
      }
    }
    NoneListed(rows, rows, trades, future, sell);
  }

  // ---- order and conservation -------------------------------------------------------------------

  lemma {:induction false} OneFewer(a: seq<Id>, b: seq<Id>, j: nat)
    requires a != [] && multiset(a) == multiset(b) && j < |b| && b[j] == a[|a| - 1]
    ensures multiset(a[..|a| - 1]) == multiset(b[..j] + b[j + 1..])
  {
    var last := a[|a| - 1];
    assert a == a[..|a| - 1] + [last];
    assert b == b[..j] + [last] + b[j + 1..];
    assert multiset(a) == multiset(a[..|a| - 1]) + multiset{last};
    assert multiset(b) == multiset(b[..j]) + multiset{last} + multiset(b[j + 1..]);
    var x, y, z := multiset(a[..|a| - 1]), multiset(b[..j]), multiset(b[j + 1..]);
    assert multiset(b[..j] + b[j + 1..]) == y + z;
    assert x == (x + multiset{last}) - multiset{last};
    assert y + z == (y + multiset{last} + z) - multiset{last};
  }

  lemma {:induction false} AllBringPermutes(rows: seq<Txn>, a: seq<Id>, b: seq<Id>, balance: Id, debit: bool)
    requires multiset(a) == multiset(b)
    ensures AllBring(rows, a, balance, debit) == AllBring(rows, b, balance, debit)
  {
    if a == [] {
      assert |multiset(b)| == 0;
    } else {
      var n := |a| - 1;
      var last := a[n];
      assert last in multiset(b);
      var j :| 0 <= j < |b| && b[j] == last;
      var others := b[..j] + b[j + 1..];
      assert b == b[..j] + ([last] + b[j + 1..]);
      OneFewer(a, b, j);
      AllBringPermutes(rows, a[..n], others, balance, debit);
      AllBringSplit(rows, b[..j], [last] + b[j + 1..], balance, debit);
      AllBringSplit(rows, [last], b[j + 1..], balance, debit);
      AllBringSplit(rows, b[..j], b[j + 1..], balance, debit);
      assert [last][..0] == [];
    }
  }

  /** In whatever order the same legs are committed, it goes through if it does in one, and
      every balance ends with the same amounts. */
  lemma {:induction false} OrderIrrelevant(store: Store, a: seq<Id>, b: seq<Id>, stampsA: seq<Stamp>,
                                           stampsB: seq<Stamp>, checks: bool, balance: Id)
    requires |stampsA| == |a| && |stampsB| == |b| && multiset(a) == multiset(b)
    requires Inv(store) && Distinct(a) && Distinct(b) && balance in store.balances
    requires NewStamps(store.rows, a, stampsA) && NewStamps(store.rows, b, stampsB)
    requires NewReferences(store.rows, stampsA) && NewReferences(store.rows, stampsB)
    ensures CommitAll(store, a, stampsA, checks).Ok? <==> CommitAll(store, b, stampsB, checks).Ok?
    ensures CommitAll(store, a, stampsA, checks).Ok? ==>
      var x, y := CommitAll(store, a, stampsA, checks).value, CommitAll(store, b, stampsB, checks).value;
      && x.balances.Keys == y.balances.Keys == store.balances.Keys
      && x.balances[balance].amounts == y.balances[balance].amounts
  {
    CommitAllSucceedsIff(store, a, stampsA, checks);
    CommitAllSucceedsIff(store, b, stampsB, checks);
    assert AllRemain(store.rows, a) <==> AllRemain(store.rows, b) by { RemainPermutes(store.rows, a, b); }
    if CommitAll(store, a, stampsA, checks).Ok? {
      SameAmounts(store, a, b, stampsA, stampsB, checks, balance);
    }
  }

  lemma {:induction false} RemainPermutes(rows: seq<Txn>, a: seq<Id>, b: seq<Id>)
    requires multiset(a) == multiset(b)
    ensures AllRemain(rows, a) <==> AllRemain(rows, b)
  {
    forall i | 0 <= i < |a| ensures a[i] in b { assert a[i] in multiset(a); }
    forall i | 0 <= i < |b| ensures b[i] in a { assert b[i] in multiset(b); }
  }

  lemma {:induction false} SameAmounts(store: Store, a: seq<Id>, b: seq<Id>, stampsA: seq<Stamp>, stampsB: seq<Stamp>,
                                       checks: bool, balance: Id)
    requires |stampsA| == |a| && |stampsB| == |b| && multiset(a) == multiset(b)
    requires Inv(store) && Distinct(a) && Distinct(b) && balance in store.balances
    requires NewStamps(store.rows, a, stampsA) && NewStamps(store.rows, b, stampsB)
    requires CommitAll(store, a, stampsA, checks).Ok? && CommitAll(store, b, stampsB, checks).Ok?
    ensures CommitAll(store, a, stampsA, checks).value.balances.Keys ==
      CommitAll(store, b, stampsB, checks).value.balances.Keys == store.balances.Keys
    ensures CommitAll(store, a, stampsA, checks).value.balances[balance].amounts
         == CommitAll(store, b, stampsB, checks).value.balances[balance].amounts
  {
    var x, y := CommitAll(store, a, stampsA, checks).value, CommitAll(store, b, stampsB, checks).value;
    CommitAllMoves(store, a, stampsA, checks);
    CommitAllMoves(store, b, stampsB, checks);
    AllBringPermutes(store.rows, a, b, balance, false);
    AllBringPermutes(store.rows, a, b, balance, true);
    AllCoherentNow(x);
    AllCoherentNow(y);
    assert Moved2(store.balances[balance].amounts, x.balances[balance].amounts, AllBring(store.rows, a, balance, false),
      AllBring(store.rows, a, balance, true));
    assert Moved2(store.balances[balance].amounts, y.balances[balance].amounts, AllBring(store.rows, b, balance, false),
      AllBring(store.rows, b, balance, true));
  }

  /** A settlement conserves the ledger: all balances together still sum to zero. */
  lemma {:induction false} SettlementConserves(store: Store, trades: Trades, future: Id, spot: Id, stamps: seq<Stamp>,
                                               roll: Stamp, checks: bool, ids: seq<Id>)
    requires |stamps| == |CommitOrder(Legs(store, trades, future), trades)|
    requires Inv(store) && WellBooked(store, trades, future, spot) && Lists(ids, store.balances)
    requires NewStamps(store.rows, CommitOrder(Legs(store, trades, future), trades), stamps)
    requires SettleFuture(store, trades, future, spot, stamps, roll, checks).Ok?
    ensures
      var after := SettleFuture(store, trades, future, spot, stamps, roll, checks).value;
      SumOver(ids, id => if id in after.balances then after.balances[id].amounts.balance else 0) == 0
  {
    var order := CommitOrder(Legs(store, trades, future), trades);
    var committed := CommitAll(store, order, stamps, checks).value;
    var after := SettleFuture(store, trades, future, spot, stamps, roll, checks).value;
    CommitAllMoves(store, order, stamps, checks);
    AllCoherentNow(committed);
    RollMoves(committed, future, spot, roll, checks);
    ZeroSum(committed, ids);
    RollConserves(committed, after, future, spot, ids);
  }

  lemma {:induction false} RollConserves(before: Store, after: Store, future: Id, spot: Id, ids: seq<Id>)
    requires Lists(ids, before.balances) && after.balances.Keys == before.balances.Keys
    requires future != spot && future in before.balances && spot in before.balances
    requires after.balances[future].amounts.balance == 0
    requires after.balances[spot].amounts.balance ==
      before.balances[spot].amounts.balance + before.balances[future].amounts.balance
    requires forall b <- after.balances :: b != future && b != spot ==>
      after.balances[b].amounts == before.balances[b].amounts
    ensures SumOver(ids, id => if id in after.balances then after.balances[id].amounts.balance else 0)
         == SumOver(ids, id => if id in before.balances then before.balances[id].amounts.balance else 0)
  {
    var net := before.balances[future].amounts.balance;
    var f := (id: Id) => if id in before.balances then before.balances[id].amounts.balance else 0;
    var g := (id: Id) => if id in before.balances then
      before.balances[id].amounts.balance - (if id == future then net else 0) else 0;
    var h := (id: Id) => if id in after.balances then after.balances[id].amounts.balance else 0;
    SumHit(ids, f, g, future, -net);
    SumHit(ids, g, h, spot, net);
  }

  /** The roll is stored without a status, so the APPLIED rows no longer explain the two
      balances it touched: replaying them survives a settlement exactly when nothing was left to
      roll. */
  lemma {:induction false} RollIsNotReplayed(store: Store, future: Id, spot: Id, stamp: Stamp, checks: bool)
    requires Inv(store) && future != spot && future in store.balances && spot in store.balances
    requires Unused(store.rows, stamp.id)
    requires NetRoll(store, future, spot, stamp, checks).Ok?
    requires forall id <- store.balances :: AppliedReplays(store.balances[id].amounts, store.rows, id)
    ensures
      var after := NetRoll(store, future, spot, stamp, checks).value;
      (forall id <- after.balances :: AppliedReplays(after.balances[id].amounts, after.rows, id)) <==>
        store.balances[future].amounts.balance == 0
  {
    AllCoherentNow(store);
    RollMoves(store, future, spot, stamp, checks);
    RollKeeps(store, future, spot, stamp, checks);
    var after := NetRoll(store, future, spot, stamp, checks).value;
    if store.balances[future].amounts.balance != 0 {
      var t := after.rows[|store.rows|];
      assert t == Finalized(RollTxn(store, future, spot, stamp));
      AppliedReplaysIff(after, future);
    }
  }

  lemma {:induction false} CommitNext(store: Store, ids: seq<Id>, stamps: seq<Stamp>, checks: bool, done: nat)
    requires |stamps| == |ids| && done < |ids| && CommitAll(store, ids[..done], stamps[..done], checks).Ok?
    ensures CommitAll(store, ids[..done + 1], stamps[..done + 1], checks)
         == CommitLeg(CommitAll(store, ids[..done], stamps[..done], checks).value, ids[done], 0, stamps[done], checks)
  {
    assert ids[..done + 1][..done] == ids[..done] && stamps[..done + 1][..done] == stamps[..done];
  }

  // ---- the service ------------------------------------------------------------------------------

  class Settler {
    const service: InflightActions.Service

    constructor (service: InflightActions.Service)
      ensures this.service == service
    {
      this.service := service;
    }

    /** The pending security legs of the bucket, buys first. */
    method CollectLegs(trades: Trades, future: Id) returns (legs: seq<Id>)
      ensures legs == Legs(service.blnk.ds.Snapshot(), trades, future)
    {
      var rows := service.blnk.ds.rows;
      var buys, sells: seq<Id> := [], [];
      for i := 0 to |rows|
        invariant buys == PendingLegs(rows[..i], rows, trades, future, false)
        invariant sells == PendingLegs(rows[..i], rows, trades, future, true)
      {
        assert rows[..i + 1][..i] == rows[..i];
        var t := rows[i];
        if IsPending(rows, t, future) && t.id in trades && trades[t.id].security {
          if trades[t.id].sell { sells := sells + [t.id]; } else { buys := buys + [t.id]; }
        }
      }
      assert rows[..|rows|] == rows;
      return buys + sells;
    }

    /** Commits one transaction after another; a failure leaves the earlier commits in place. */
    method Commit(ids: seq<Id>, stamps: seq<Stamp>) returns (r: Result<(), Error>, done: nat)
      requires |stamps| == |ids|
      modifies service.blnk.ds
      ensures done <= |ids| && (r.Ok? ==> done == |ids|)
      ensures CommitAll(old(service.blnk.ds.Snapshot()), ids[..done], stamps[..done], service.blnk.queuedChecks) ==
        Ok(service.blnk.ds.Snapshot())
      ensures r.Err? ==>
        done < |ids|
          && CommitLeg(service.blnk.ds.Snapshot(), ids[done], 0, stamps[done], service.blnk.queuedChecks) ==
            Err(r.error)
    {
      ghost var store, checks := service.blnk.ds.Snapshot(), service.blnk.queuedChecks;
      r, done := Ok(()), 0;
      while done < |ids| && r.Ok?
        invariant done <= |ids|
        invariant r.Err? ==>
          done < |ids| && CommitLeg(service.blnk.ds.Snapshot(), ids[done], 0, stamps[done], checks) == Err(r.error)
        invariant CommitAll(store, ids[..done], stamps[..done], checks) == Ok(service.blnk.ds.Snapshot())
        decreases |ids| - done, r.Ok?
      {
        CommitNext(store, ids, stamps, checks, done);
        r := service.CommitWithRef(ids[done], 0, stamps[done]);
        if r.Ok? { done := done + 1; }
      }
    }

    method NetRollToSpot(future: Id, spot: Id, stamp: Stamp) returns (r: Result<(), Error>)
      modifies service.blnk.ds
      ensures Outcome(NetRoll(old(service.blnk.ds.Snapshot()), future, spot, stamp, service.blnk.queuedChecks),
                      old(service.blnk.ds.Snapshot()), service.blnk.ds.Snapshot(), r)
    {
      var ds := service.blnk.ds;
      if future !in ds.balances { return Err(BalanceNotFound); }
      if ds.balances[future].amounts.balance == 0 { return Ok(()); }
      r := service.blnk.RecordTransactionSingle(RollTxn(ds.Snapshot(), future, spot, stamp));
    }

    /** Settles the bucket. When it succeeds the store is where `SettleFuture` puts it; when it
        fails, the commits made so far stay. */
    method SettleBucket(trades: Trades, future: Id, spot: Id, stamps: seq<Stamp>, roll: Stamp)
      returns (r: Result<(), Error>, done: nat)
      requires |stamps| == |CommitOrder(Legs(service.blnk.ds.Snapshot(), trades, future), trades)|
      modifies service.blnk.ds
      ensures r.Ok? ==>
        SettleFuture(old(service.blnk.ds.Snapshot()), trades, future, spot, stamps, roll, service.blnk.queuedChecks) ==
          Ok(service.blnk.ds.Snapshot())
      ensures r.Err? ==>
        var order := CommitOrder(Legs(old(service.blnk.ds.Snapshot()), trades, future), trades);
        && done <= |order|
        && CommitAll(old(service.blnk.ds.Snapshot()), order[..done], stamps[..done], service.blnk.queuedChecks) ==
          Ok(service.blnk.ds.Snapshot())
        && Err(r.error) ==
           if done < |order| then
             CommitLeg(service.blnk.ds.Snapshot(), order[done], 0, stamps[done], service.blnk.queuedChecks)
           else NetRoll(service.blnk.ds.Snapshot(), future, spot, roll, service.blnk.queuedChecks)
    {
      var legs := CollectLegs(trades, future);
      var order := CommitOrder(legs, trades);
      r, done := Commit(order, stamps);
      if r.Err? { return; }
      assert order[..|order|] == order && stamps[..|stamps|] == stamps;
      r := NetRollToSpot(future, spot, roll);
    }
  }
}
