/** The tradable quantity read off the ledger: what the check of a sell sums up from the stored
    balances, and what trades and settlements do to it (brokerage.go:183-274, 661-739,
    database/brokerage.go:698-721). */
module Positions {
  import opened Wrappers
  import opened Ledger
  import opened Storage
  import opened Execution
  import opened Inflight
  import opened Kernel
  import opened Settlement
  import opened SettlementRun
  import Coalescing
  import Tradable

  /** A future bucket of a position and the date it settles on. */
  datatype Slot = Slot(id: Id, date: int)

  /** A position: its spot balance and its future buckets, one a date. */
  datatype Desk = Desk(slots: seq<Slot>, spot: Id, onTheWay: bool)

  predicate InTable(slots: seq<Slot>, table: Table) {
    forall i | 0 <= i < |slots| :: slots[i].id in table
  }

  predicate Kept(desk: Desk, table: Table) {
    && desk.spot in table && InTable(desk.slots, table)
    && (forall i | 0 <= i < |desk.slots| :: desk.slots[i].id != desk.spot)
    && (forall i, j | 0 <= i < j < |desk.slots| ::
          desk.slots[i].id != desk.slots[j].id && desk.slots[i].date != desk.slots[j].date)
  }

  /** What is held on one side of the buckets settling on or before a date. */
  function FutureHolds(table: Table, slots: seq<Slot>, debit: bool, date: int): int
    requires InTable(slots, table)
  {
    if slots == [] then 0
    else
      var last := slots[|slots| - 1];
      FutureHolds(table, slots[..|slots| - 1], debit, date) +
      if last.date <= date then HoldSideOf(table[last.id].amounts, debit) else 0
  }

  /** What the stored balances leave to sell by a date. */
  function Available(desk: Desk, table: Table, date: int): int
    requires Kept(desk, table)
  {
    var spot := table[desk.spot].amounts;
    spot.balance - spot.inflightDebit - FutureHolds(table, desk.slots, true, date) +
    if desk.onTheWay then FutureHolds(table, desk.slots, false, date) else 0
  }

  // ---- the legs behind the balances -------------------------------------------------------------

  /** The holds on one side of a bucket, row by row. */
  function LegsOn(some: seq<Txn>, rows: seq<Txn>, slot: Slot, sell: bool): seq<Tradable.Leg> {
    if some == [] then []
    else
      var t := some[|some| - 1];
      LegsOn(some[..|some| - 1], rows, slot, sell) +
      if t.status == Inflight && End(t, sell) == slot.id && HoldOf(rows, t) > 0
      then [Tradable.Leg(slot.date, HoldOf(rows, t), sell)] else []
  }

  function AllLegs(rows: seq<Txn>, slots: seq<Slot>): seq<Tradable.Leg> {
    if slots == [] then []
    else
      var last := slots[|slots| - 1];
      AllLegs(rows, slots[..|slots| - 1]) + (LegsOn(rows, rows, last, false) + LegsOn(rows, rows, last, true))
  }

  /** The position as the trading rules see it. */
  function View(desk: Desk, store: Store): Tradable.Position
    requires desk.spot in store.balances
  {
    var spot := store.balances[desk.spot].amounts;
    Tradable.Position(spot.balance, spot.inflightDebit, AllLegs(store.rows, desk.slots), desk.onTheWay)
  }

  predicate AllPositive(legs: seq<Tradable.Leg>) {
    forall i | 0 <= i < |legs| :: legs[i].quantity > 0
  }

  lemma {:induction false} LegsPositive(some: seq<Txn>, rows: seq<Txn>, slot: Slot, sell: bool)
    ensures AllPositive(LegsOn(some, rows, slot, sell))
  {
    if some != [] {
      LegsPositive(some[..|some| - 1], rows, slot, sell);
    }
  }

  lemma {:induction false} AllLegsPositive(rows: seq<Txn>, slots: seq<Slot>)
    ensures AllPositive(AllLegs(rows, slots))
  {
    if slots != [] {
      AllLegsPositive(rows, slots[..|slots| - 1]);
      LegsPositive(rows, rows, slots[|slots| - 1], false);
      LegsPositive(rows, rows, slots[|slots| - 1], true);
    }
  }

  lemma {:induction false} LegsHold(some: seq<Txn>, rows: seq<Txn>, slot: Slot, side: bool, sell: bool, date: int)
    ensures
      var legs, held := LegsOn(some, rows, slot, side), Held(some, rows, slot.id, side);
      && Tradable.Holds(legs, sell, date) == (if side == sell && slot.date <= date then held else 0)
      && Tradable.HoldsOn(legs, sell, date) == (if side == sell && slot.date == date then held else 0)
  {
    if some != [] {
      var n := |some| - 1;
      LegsHold(some[..n], rows, slot, side, sell, date);
      var t, legs := some[n], LegsOn(some[..n], rows, slot, side);
      var leg := Tradable.Leg(slot.date, HoldOf(rows, t), side);
      if t.status == Inflight && End(t, side) == slot.id && HoldOf(rows, t) > 0 {
        assert LegsOn(some, rows, slot, side) == legs + [leg];
        Tradable.OneMoreLeg(legs, leg, sell, date);
        Tradable.OneMoreOn(legs, leg, sell, date);
      } else {
        assert LegsOn(some, rows, slot, side) == legs;
      }
    }
  }

  lemma {:induction false} BothSidesHold(rows: seq<Txn>, slots: seq<Slot>, sell: bool, date: int)
    requires slots != []
    ensures
      var last, held := slots[|slots| - 1], Held(rows, rows, slots[|slots| - 1].id, sell);
      && Tradable.Holds(AllLegs(rows, slots), sell, date) ==
           Tradable.Holds(AllLegs(rows, slots[..|slots| - 1]), sell, date) + (if last.date <= date then held else 0)
      && Tradable.HoldsOn(AllLegs(rows, slots), sell, date) ==
           Tradable.HoldsOn(AllLegs(rows, slots[..|slots| - 1]), sell, date) + (if last.date == date then held else 0)
  {
    var n := |slots| - 1;
    var legs, buys, sells :=
      AllLegs(rows, slots[..n]), LegsOn(rows, rows, slots[n], false), LegsOn(rows, rows, slots[n], true);
    LegsHold(rows, rows, slots[n], false, sell, date);
    LegsHold(rows, rows, slots[n], true, sell, date);
    Tradable.SplitHolds(legs, buys + sells, sell, date);
    Tradable.SplitHolds(buys, sells, sell, date);
  }

  /** In a reachable ledger the stored holds of a position are those of its live legs. */
  lemma {:induction false} HoldsAreStored(store: Store, slots: seq<Slot>, sell: bool, date: int)
    requires Inv(store) && InTable(slots, store.balances)
    ensures Tradable.Holds(AllLegs(store.rows, slots), sell, date) == FutureHolds(store.balances, slots, sell, date)
  {
    if slots != [] {
      var n := |slots| - 1;
      HoldsAreStored(store, slots[..n], sell, date);
      BothSidesHold(store.rows, slots, sell, date);
      assert slots[n].id in store.balances && Replays(store.balances[slots[n].id].amounts, store.rows, slots[n].id);
      assert HoldSideOf(store.balances[slots[n].id].amounts, sell) == Held(store.rows, store.rows, slots[n].id, sell);
    }
  }

  lemma {:induction false} NoneOnDate(store: Store, slots: seq<Slot>, sell: bool, date: int)
    requires forall i | 0 <= i < |slots| :: slots[i].date != date
    ensures Tradable.HoldsOn(AllLegs(store.rows, slots), sell, date) == 0
  {
    if slots != [] {
      var n := |slots| - 1;
      NoneOnDate(store, slots[..n], sell, date);
      BothSidesHold(store.rows, slots, sell, date);
    }
  }

  /** With one bucket a date, the legs of a date are those of its bucket. */
  lemma {:induction false} DateIsBucket(store: Store, slots: seq<Slot>, sell: bool, j: nat)
    requires Inv(store) && InTable(slots, store.balances) && j < |slots|
    requires forall i, k | 0 <= i < k < |slots| :: slots[i].date != slots[k].date
    ensures Tradable.HoldsOn(AllLegs(store.rows, slots), sell, slots[j].date) ==
      HoldSideOf(store.balances[slots[j].id].amounts, sell)
  {
    var n := |slots| - 1;
    BothSidesHold(store.rows, slots, sell, slots[j].date);
    if j < n {
      DateIsBucket(store, slots[..n], sell, j);
    } else {
      NoneOnDate(store, slots[..n], sell, slots[j].date);
      assert Replays(store.balances[slots[j].id].amounts, store.rows, slots[j].id);
    }
  }

  /** The check of a sell, made on the stored balances, is the check on the legs. */
  lemma {:induction false} ChecksTheLegs(desk: Desk, store: Store)
    requires Inv(store) && Kept(desk, store.balances)
    ensures forall date: int :: Tradable.Through(View(desk, store), date) == Available(desk, store.balances, date)
    ensures Tradable.Proper(View(desk, store))
  {
    forall date: int ensures Tradable.Through(View(desk, store), date) == Available(desk, store.balances, date) {
      HoldsAreStored(store, desk.slots, true, date);
      HoldsAreStored(store, desk.slots, false, date);
    }
    AllLegsPositive(store.rows, desk.slots);
    var spot := store.balances[desk.spot].amounts;
    assert Replays(spot, store.rows, desk.spot);
    assert HoldSideOf(spot, true) == Held(store.rows, store.rows, desk.spot, true);
    HeldNonNegative(store.rows, store.rows, desk.spot, true);
  }

  /** When the holds of one bucket change, the sums through its date and later ones do. */
  lemma {:induction false} OneBucketShifts(before: Table, after: Table, slots: seq<Slot>, debit: bool, date: int,
                                           j: nat, d: int)
    requires InTable(slots, before) && InTable(slots, after)
    requires forall i | 0 <= i < |slots| ::
      HoldSideOf(after[slots[i].id].amounts, debit) == HoldSideOf(before[slots[i].id].amounts, debit) +
        if i == j then d else 0
    ensures FutureHolds(after, slots, debit, date) ==
      FutureHolds(before, slots, debit, date) + if j < |slots| && slots[j].date <= date then d else 0
  {
    if slots != [] {
      OneBucketShifts(before, after, slots[..|slots| - 1], debit, date, j, d);
    }
  }

  // ---- a trade ------------------------------------------------------------------------------------

  predicate Outside(desk: Desk, id: Id) {
    id != desk.spot && forall i | 0 <= i < |desk.slots| :: desk.slots[i].id != id
  }

  /** A security leg: a hold between a bucket and somebody else. */
  predicate IsDeal(desk: Desk, t: Txn, j: nat, sell: bool) {
    && j < |desk.slots| && t.inflight && t.status in {Queued, Scheduled, Applied} && t.amount > 0
    && End(t, sell) == desk.slots[j].id && Outside(desk, End(t, !sell))
  }

  lemma {:induction false} DealHolds(desk: Desk, before: Table, after: Table, t: Txn, j: nat, sell: bool)
    requires Kept(desk, before) && IsDeal(desk, t, j, sell) && AllCoherent(before) && AllShifted(before, after, t)
    ensures forall i, debit: bool | 0 <= i < |desk.slots| ::
      HoldSideOf(after[desk.slots[i].id].amounts, debit) ==
      HoldSideOf(before[desk.slots[i].id].amounts, debit) + if i == j && debit == sell then t.amount else 0
    ensures forall i | 0 <= i < |desk.slots| ::
      after[desk.slots[i].id].amounts.balance == before[desk.slots[i].id].amounts.balance
  {
    forall i, debit: bool | 0 <= i < |desk.slots|
      ensures HoldSideOf(after[desk.slots[i].id].amounts, debit) ==
        HoldSideOf(before[desk.slots[i].id].amounts, debit) + if i == j && debit == sell then t.amount else 0
    {
      OneSideShifts(before, after, t, desk.slots[i].id, debit);
      assert i != j ==> desk.slots[i].id != desk.slots[j].id;
    }
    forall i | 0 <= i < |desk.slots|
      ensures after[desk.slots[i].id].amounts.balance == before[desk.slots[i].id].amounts.balance
    {
      OneSideShifts(before, after, t, desk.slots[i].id, true);
    }
  }

  lemma {:induction false} DealShifts(desk: Desk, store: Store, t: Txn, j: nat, sell: bool, checks: bool)
    requires Inv(store) && Kept(desk, store.balances) && IsDeal(desk, t, j, sell) && Single(store, t, checks).Ok?
    ensures Kept(desk, Single(store, t, checks).value.balances)
    ensures forall date: int ::
      Available(desk, Single(store, t, checks).value.balances, date) ==
        Available(desk, store.balances, date) +
        if desk.slots[j].date <= date then (if sell then -t.amount else if desk.onTheWay then t.amount else 0) else 0
    ensures forall i | 0 <= i < |desk.slots| ::
      Single(store, t, checks).value.balances[desk.slots[i].id].amounts.balance ==
        store.balances[desk.slots[i].id].amounts.balance
  {
    var after := Single(store, t, checks).value;
    AllCoherentNow(store);
    SingleShifts(store, t, QueuedDebit(store.rows, t.source, checks));
    DealHolds(desk, store.balances, after.balances, t, j, sell);
    OneSideShifts(store.balances, after.balances, t, desk.spot, true);
    forall date: int
      ensures Available(desk, after.balances, date) ==
        Available(desk, store.balances, date) +
        if desk.slots[j].date <= date then (if sell then -t.amount else if desk.onTheWay then t.amount else 0) else 0
    {
      OneBucketShifts(store.balances, after.balances, desk.slots, true, date, j, if sell then t.amount else 0);
      OneBucketShifts(store.balances, after.balances, desk.slots, false, date, j, if sell then 0 else t.amount);
    }
  }

  /** What a hold moves on one side of one balance. */
  lemma {:induction false} OneSideShifts(before: Table, after: Table, t: Txn, id: Id, debit: bool)
    requires AllCoherent(before) && AllShifted(before, after, t) && t.inflight && t.status !in {Commit, Void}
    requires id in before
    ensures HoldSideOf(after[id].amounts, debit) == HoldSideOf(before[id].amounts, debit) +
      if End(t, debit) == id then t.amount else 0
    ensures after[id].amounts.balance == before[id].amounts.balance
  {
  }

  /** Booking a trade on the ledger is adding its leg to the position. */
  lemma {:induction false} DealIsLeg(desk: Desk, store: Store, t: Txn, j: nat, sell: bool, checks: bool)
    requires Inv(store) && Kept(desk, store.balances) && IsDeal(desk, t, j, sell) && WellFormed(store, Record(t))
    requires Single(store, t, checks).Ok?
    ensures
      var after := Single(store, t, checks).value;
      && Inv(after) && Kept(desk, after.balances)
      && forall d: int :: Tradable.Through(View(desk, after), d) ==
           Tradable.Through(Tradable.Dealt(View(desk, store), desk.slots[j].date, t.amount, sell), d)
  {
    var after, p := Single(store, t, checks).value, View(desk, store);
    RecordKeeps(store, t, QueuedDebit(store.rows, t.source, checks));
    DealShifts(desk, store, t, j, sell, checks);
    ChecksTheLegs(desk, store);
    ChecksTheLegs(desk, after);
    forall d: int
      ensures Tradable.Through(View(desk, after), d) ==
        Tradable.Through(Tradable.Dealt(p, desk.slots[j].date, t.amount, sell), d)
    {
      Tradable.OneMoreLeg(p.legs, Tradable.Leg(desk.slots[j].date, t.amount, sell), true, d);
      Tradable.OneMoreLeg(p.legs, Tradable.Leg(desk.slots[j].date, t.amount, sell), false, d);
    }
  }

  // ---- a settlement -------------------------------------------------------------------------------

  /** The holds on a bucket are security legs, and known to be. */
  predicate Tagged(rows: seq<Txn>, trades: Trades, id: Id) {
    forall i | 0 <= i < |rows| && rows[i].status == Inflight && HoldOf(rows, rows[i]) > 0
               && (rows[i].source == id || rows[i].destination == id) ::
      rows[i].id in trades && trades[rows[i].id].security && trades[rows[i].id].sell == (rows[i].source == id)
  }

  /** One hold on a bucket: a pending leg of its own side and of no other. */
  lemma {:induction false} RowIsTraded(rows: seq<Txn>, trades: Trades, id: Id, sell: bool, k: nat)
    requires DistinctRows(rows) && Tagged(rows, trades, id) && k < |rows|
    requires rows[k].status == Inflight ==> rows[k].source != rows[k].destination
    ensures
      var t := rows[k];
      var listed := IsPending(rows, t, id) && t.id in trades && trades[t.id].security && trades[t.id].sell == sell;
      (if listed then Brings(rows, t.id, id, sell) else 0) ==
        if t.status == Inflight && End(t, sell) == id then HoldOf(rows, t) else 0
  {
    FindsIt(rows, k);
  }

  lemma {:induction false} OneMoreBrings(rows: seq<Txn>, legs: seq<Id>, leg: Id, balance: Id, debit: bool)
    ensures AllBring(rows, legs + [leg], balance, debit) ==
      AllBring(rows, legs, balance, debit) + Brings(rows, leg, balance, debit)
    ensures AllBring(rows, legs + [], balance, debit) == AllBring(rows, legs, balance, debit)
  {
    assert (legs + [leg])[..|legs|] == legs && legs + [] == legs;
  }

  lemma {:induction false} HeldIsTraded(store: Store, trades: Trades, id: Id, sell: bool, n: nat)
    requires Inv(store) && Tagged(store.rows, trades, id) && n <= |store.rows|
    ensures AllBring(store.rows, PendingLegs(store.rows[..n], store.rows, trades, id, sell), id, sell) ==
      Held(store.rows[..n], store.rows, id, sell)
  {
    if n > 0 {
      var rows, some := store.rows, store.rows[..n];
      HeldIsTraded(store, trades, id, sell, n - 1);
      assert some[..n - 1] == rows[..n - 1] && some[n - 1] == rows[n - 1];
      RowIsTraded(rows, trades, id, sell, n - 1);
      OneMoreBrings(rows, PendingLegs(rows[..n - 1], rows, trades, id, sell), rows[n - 1].id, id, sell);
    }
  }

  /** The pending trades of a bucket are what its balance has on hold. */
  lemma {:induction false} TradedIsStored(store: Store, trades: Trades, id: Id)
    requires Inv(store) && Tagged(store.rows, trades, id) && id in store.balances
    ensures Bought(store, trades, id) == HoldSideOf(store.balances[id].amounts, false)
    ensures Sold(store, trades, id) == HoldSideOf(store.balances[id].amounts, true)
  {
    var rows := store.rows;
    assert rows[..|rows|] == rows;
    HeldIsTraded(store, trades, id, false, |rows|);
    HeldIsTraded(store, trades, id, true, |rows|);
    assert Replays(store.balances[id].amounts, rows, id);
    assert HoldSideOf(store.balances[id].amounts, false) == Held(rows, rows, id, false);
    assert HoldSideOf(store.balances[id].amounts, true) == Held(rows, rows, id, true);
  }

  /** A list of commits that touches no other bucket of the desk and not its spot balance. */
  predicate OnlyOn(desk: Desk, rows: seq<Txn>, ids: seq<Id>, j: nat) {
    && StaysOff(rows, ids, desk.spot)
    && forall i | 0 <= i < |desk.slots| :: i != j ==> StaysOff(rows, ids, desk.slots[i].id)
  }

  /** Commits on one bucket take their quantities out of the sums from its date on. */
  lemma {:induction false} CommitsShift(desk: Desk, store: Store, after: Store, j: nat, ids: seq<Id>)
    requires Kept(desk, store.balances) && j < |desk.slots| && AllMoved(store, after, ids)
    requires OnlyOn(desk, store.rows, ids, j)
    requires AllCoherent(store.balances) && AllCoherent(after.balances)
    ensures Kept(desk, after.balances)
    ensures
      var b := desk.slots[j];
      var bought, sold := AllBring(store.rows, ids, b.id, false), AllBring(store.rows, ids, b.id, true);
      && after.balances[b.id].amounts.balance == store.balances[b.id].amounts.balance + bought - sold
      && (forall i | 0 <= i < |desk.slots| :: i != j ==>
            after.balances[desk.slots[i].id].amounts.balance == store.balances[desk.slots[i].id].amounts.balance)
      && forall date: int ::
           Available(desk, after.balances, date) ==
             Available(desk, store.balances, date) +
               if b.date <= date then sold - (if desk.onTheWay then bought else 0) else 0
  {
    var b := desk.slots[j];
    OffMeansNothing(store.rows, ids, desk.spot);
    assert Moved2(store.balances[desk.spot].amounts, after.balances[desk.spot].amounts, 0, 0);
    forall i | 0 <= i < |desk.slots| && i != j
      ensures Moved2(store.balances[desk.slots[i].id].amounts, after.balances[desk.slots[i].id].amounts, 0, 0)
    {
      OffMeansNothing(store.rows, ids, desk.slots[i].id);
    }
    var bought, sold := AllBring(store.rows, ids, b.id, false), AllBring(store.rows, ids, b.id, true);
    assert Moved2(store.balances[b.id].amounts, after.balances[b.id].amounts, bought, sold);
    forall date: int
      ensures Available(desk, after.balances, date) ==
        Available(desk, store.balances, date) +
          if b.date <= date then sold - (if desk.onTheWay then bought else 0) else 0
    {
      OneBucketShifts(store.balances, after.balances, desk.slots, true, date, j, -sold);
      OneBucketShifts(store.balances, after.balances, desk.slots, false, date, j, -bought);
    }
  }

  /** While a settlement has come only part of the way, what it has delivered counts as available
      again, and what it has received does not count any more, until the roll. */
  lemma {:induction false} HalfSettledShifts(desk: Desk, store: Store, after: Store, j: nat, ids: seq<Id>,
                                             stamps: seq<Stamp>, checks: bool)
    requires Inv(store) && Kept(desk, store.balances) && j < |desk.slots| && OnlyOn(desk, store.rows, ids, j)
    requires |stamps| == |ids| && Distinct(ids) && NewStamps(store.rows, ids, stamps)
    requires CommitAll(store, ids, stamps, checks) == Ok(after)
    ensures Inv(after) && Kept(desk, after.balances)
    ensures
      var b := desk.slots[j];
      forall date: int ::
        Tradable.Through(View(desk, after), date) ==
          Tradable.Through(View(desk, store), date) +
          if b.date <= date then
            AllBring(store.rows, ids, b.id, true) -
              (if desk.onTheWay then AllBring(store.rows, ids, b.id, false) else 0)
          else 0
  {
    CommitAllMoves(store, ids, stamps, checks);
    AllCoherentNow(store);
    AllCoherentNow(after);
    CommitsShift(desk, store, after, j, ids);
    ChecksTheLegs(desk, store);
    ChecksTheLegs(desk, after);
  }

  /** The roll adds what is on the bucket to what is available on every date. */
  lemma {:induction false} RollShifts(desk: Desk, store: Store, j: nat, roll: Stamp, checks: bool)
    requires Inv(store) && Kept(desk, store.balances) && j < |desk.slots|
    requires NetRoll(store, desk.slots[j].id, desk.spot, roll, checks).Ok?
    ensures
      var b, after := desk.slots[j].id, NetRoll(store, desk.slots[j].id, desk.spot, roll, checks).value;
      && Kept(desk, after.balances) && after.balances[b].amounts.balance == 0
      && (forall i | 0 <= i < |desk.slots| :: i != j ==>
            after.balances[desk.slots[i].id].amounts.balance == store.balances[desk.slots[i].id].amounts.balance)
      && forall date: int ::
           Available(desk, after.balances, date) ==
             Available(desk, store.balances, date) + store.balances[b].amounts.balance
  {
    AllCoherentNow(store);
    RollMoves(store, desk.slots[j].id, desk.spot, roll, checks);
    var after := NetRoll(store, desk.slots[j].id, desk.spot, roll, checks).value;
    assert HoldSideOf(after.balances[desk.spot].amounts, true) == HoldSideOf(store.balances[desk.spot].amounts, true);
    forall date: int
      ensures Available(desk, after.balances, date) ==
        Available(desk, store.balances, date) + store.balances[desk.slots[j].id].amounts.balance
    {
      OneBucketShifts(store.balances, after.balances, desk.slots, true, date, j, 0);
      OneBucketShifts(store.balances, after.balances, desk.slots, false, date, j, 0);
    }
  }

  predicate AllEmpty(desk: Desk, table: Table)
    requires Kept(desk, table)
  {
    forall i | 0 <= i < |desk.slots| :: table[desk.slots[i].id].amounts.balance == 0
  }

  /** A bucket that can be settled: its holds are its trades, booked as trades are, and its
      commits stay off the rest of the desk. */
  predicate CanSettle(desk: Desk, store: Store, trades: Trades, j: nat, stamps: seq<Stamp>, roll: Stamp, checks: bool) {
    && j < |desk.slots|
    && var b := desk.slots[j].id;
       var order := CommitOrder(Legs(store, trades, b), trades);
       && Tagged(store.rows, trades, b) && WellBooked(store, trades, b, desk.spot) && OnlyOn(desk, store.rows, order, j)
       && |stamps| == |order| && NewStamps(store.rows, order, stamps + [roll])
       && SettleFuture(store, trades, b, desk.spot, stamps, roll, checks).Ok?
  }

  lemma {:induction false} SettleShifts(desk: Desk, store: Store, trades: Trades, j: nat, stamps: seq<Stamp>,
                                        roll: Stamp, checks: bool)
    requires Inv(store) && Kept(desk, store.balances) && AllEmpty(desk, store.balances)
    requires CanSettle(desk, store, trades, j, stamps, roll, checks)
    ensures
      var b, after :=
        desk.slots[j], SettleFuture(store, trades, desk.slots[j].id, desk.spot, stamps, roll, checks).value;
      var bought, sold :=
        HoldSideOf(store.balances[b.id].amounts, false), HoldSideOf(store.balances[b.id].amounts, true);
      && Kept(desk, after.balances) && AllEmpty(desk, after.balances)
      && forall date: int ::
           Available(desk, after.balances, date) ==
             Available(desk, store.balances, date) + bought - sold +
             if b.date <= date then sold - (if desk.onTheWay then bought else 0) else 0
  {
    var b := desk.slots[j].id;
    var order := CommitOrder(Legs(store, trades, b), trades);
    FewerNewStamps(store.rows, order, stamps, roll);
    CommitAllMoves(store, order, stamps, checks);
    var committed := CommitAll(store, order, stamps, checks).value;
    AllCoherentNow(store);
    AllCoherentNow(committed);
    BucketBrings(store, trades, b, desk.spot);
    TradedIsStored(store, trades, b);
    CommitsShift(desk, store, committed, j, order);
    RollShifts(desk, committed, j, roll, checks);
  }

  /** Settling a bucket on the ledger is settling its date in the position. */
  lemma {:induction false} SettlementIsSettled(desk: Desk, store: Store, trades: Trades, j: nat, stamps: seq<Stamp>,
                                               roll: Stamp, checks: bool)
    requires Inv(store) && Kept(desk, store.balances) && AllEmpty(desk, store.balances)
    requires CanSettle(desk, store, trades, j, stamps, roll, checks)
    ensures
      var after := SettleFuture(store, trades, desk.slots[j].id, desk.spot, stamps, roll, checks).value;
      && Inv(after) && Kept(desk, after.balances) && AllEmpty(desk, after.balances)
      && forall d: int ::
        Tradable.Through(View(desk, after), d) ==
          Tradable.Through(Tradable.Settled(View(desk, store), desk.slots[j].date), d)
  {
    var b, p := desk.slots[j], View(desk, store);
    var after := SettleFuture(store, trades, b.id, desk.spot, stamps, roll, checks).value;
    SettlementKeeps(store, trades, b.id, desk.spot, stamps, roll, checks);
    SettleShifts(desk, store, trades, j, stamps, roll, checks);
    ChecksTheLegs(desk, store);
    ChecksTheLegs(desk, after);
    DateIsBucket(store, desk.slots, false, j);
    DateIsBucket(store, desk.slots, true, j);
    forall d: int
      ensures Tradable.Through(View(desk, after), d) == Tradable.Through(Tradable.Settled(p, b.date), d)
    {
      Tradable.WithoutExactly(p.legs, b.date, true, d);
      Tradable.WithoutExactly(p.legs, b.date, false, d);
    }
  }

  // ---- runs on the ledger ---------------------------------------------------------------------------

  /** A trade, its check made on the stored balances; a settlement; or a transaction that has
      nothing to do with the position, such as a money leg. */
  datatype Event =
    | Trade(j: nat, sell: bool, t: Txn)
    | Settlement(j: nat, stamps: seq<Stamp>, roll: Stamp)
    | Elsewhere(t: Txn)

  /** A buy is not checked; a sell is, before it is posted. */
  predicate Accepted(desk: Desk, store: Store, e: Event)
    requires Kept(desk, store.balances) && e.Trade? && e.j < |desk.slots|
  {
    e.sell ==> Tradable.PassesCheck(View(desk, store), desk.slots[e.j].date, e.t.amount)
  }

  /** Trades are booked under new ids; sells come in order of settle date, and buckets settle in
      order of date. */
  predicate Orderly(desk: Desk, store: Store, trades: Trades, e: Event, checks: bool)
    requires Kept(desk, store.balances)
  {
    match e
    case Trade(j, sell, t) =>
      && IsDeal(desk, t, j, sell) && WellFormed(store, Record(t))
      && (sell ==> Tradable.NoSellAfter(View(desk, store), desk.slots[j].date))
    case Settlement(j, stamps, roll) =>
      CanSettle(desk, store, trades, j, stamps, roll, checks)
        && Tradable.FirstBucket(View(desk, store), desk.slots[j].date)
    case Elsewhere(t) =>
      WellFormed(store, Record(t)) && t.amount > 0 && t.source != t.destination && Outside(desk, t.source)
        && Outside(desk, t.destination)
  }

  /** What is refused changes nothing. */
  function After(desk: Desk, store: Store, trades: Trades, e: Event, checks: bool): Store
    requires Kept(desk, store.balances) && Orderly(desk, store, trades, e, checks)
  {
    match e
    case Trade(j, sell, t) =>
      if Accepted(desk, store, e) && Single(store, t, checks).Ok? then Single(store, t, checks).value else store
    case Settlement(j, stamps, roll) =>
      SettleFuture(store, trades, desk.slots[j].id, desk.spot, stamps, roll, checks).value
    case Elsewhere(t) => if Single(store, t, checks).Ok? then Single(store, t, checks).value else store
  }

  ghost predicate Sound(desk: Desk, store: Store) {
    Inv(store) && Kept(desk, store.balances) && AllEmpty(desk, store.balances)
      && Tradable.NeverOversold(View(desk, store))
  }

  lemma {:induction false} SameThrough(p: Tradable.Position, q: Tradable.Position)
    requires Tradable.NeverOversold(p) && forall d: int :: Tradable.Through(q, d) == Tradable.Through(p, d)
    ensures Tradable.NeverOversold(q)
  {
    forall d: int ensures Tradable.Through(q, d) >= 0 { assert Tradable.Through(p, d) >= 0; }
  }

  lemma {:induction false} TradeStaysSound(desk: Desk, store: Store, trades: Trades, e: Event, checks: bool)
    requires Sound(desk, store) && Orderly(desk, store, trades, e, checks) && e.Trade?
    ensures Sound(desk, After(desk, store, trades, e, checks))
  {
    var after, p, date := After(desk, store, trades, e, checks), View(desk, store), desk.slots[e.j].date;
    if Accepted(desk, store, e) && Single(store, e.t, checks).Ok? {
      ChecksTheLegs(desk, store);
      DealShifts(desk, store, e.t, e.j, e.sell, checks);
      DealIsLeg(desk, store, e.t, e.j, e.sell, checks);
      if e.sell {
        Tradable.OrderedSellKeeps(p, date, e.t.amount);
      } else {
        Tradable.BuyKeeps(p, date, e.t.amount);
      }
      SameThrough(Tradable.Dealt(p, date, e.t.amount, e.sell), View(desk, after));
    }
  }

  lemma {:induction false} SettlementStaysSound(desk: Desk, store: Store, trades: Trades, e: Event, checks: bool)
    requires Sound(desk, store) && Orderly(desk, store, trades, e, checks) && e.Settlement?
    ensures Sound(desk, After(desk, store, trades, e, checks))
  {
    var p, date := View(desk, store), desk.slots[e.j].date;
    ChecksTheLegs(desk, store);
    SettlementIsSettled(desk, store, trades, e.j, e.stamps, e.roll, checks);
    Tradable.OrderedSettleKeeps(p, date);
    SameThrough(Tradable.Settled(p, date), View(desk, After(desk, store, trades, e, checks)));
  }

  lemma {:induction false} ElsewhereStaysSound(desk: Desk, store: Store, trades: Trades, e: Event, checks: bool)
    requires Sound(desk, store) && Orderly(desk, store, trades, e, checks) && e.Elsewhere?
    ensures Sound(desk, After(desk, store, trades, e, checks))
  {
    var after := After(desk, store, trades, e, checks);
    if Single(store, e.t, checks).Ok? {
      AllCoherentNow(store);
      SingleShifts(store, e.t, QueuedDebit(store.rows, e.t.source, checks));
      RecordKeeps(store, e.t, QueuedDebit(store.rows, e.t.source, checks));
      Untouched(desk, store.balances, after.balances, e.t);
      ChecksTheLegs(desk, store);
      ChecksTheLegs(desk, after);
      SameThrough(View(desk, store), View(desk, after));
    }
  }

  lemma {:induction false} Untouched(desk: Desk, before: Table, after: Table, t: Txn)
    requires Kept(desk, before) && AllCoherent(before) && AllShifted(before, after, t) && Outside(desk, t.source)
    requires Outside(desk, t.destination)
    ensures Kept(desk, after) && (AllEmpty(desk, before) ==> AllEmpty(desk, after))
    ensures forall date: int :: Available(desk, after, date) == Available(desk, before, date)
  {
    forall date: int ensures Available(desk, after, date) == Available(desk, before, date) {
      OneBucketShifts(before, after, desk.slots, true, date, 0, 0);
      OneBucketShifts(before, after, desk.slots, false, date, 0, 0);
    }
  }

  predicate OrderlyRun(desk: Desk, store: Store, trades: Trades, events: seq<Event>, checks: bool)
    decreases |events|
  {
    events == [] ||
    (Kept(desk, store.balances) && Orderly(desk, store, trades, events[0], checks)
     && OrderlyRun(desk, After(desk, store, trades, events[0], checks), trades, events[1..], checks))
  }

  function Run(desk: Desk, store: Store, trades: Trades, events: seq<Event>, checks: bool): Store
    requires OrderlyRun(desk, store, trades, events, checks)
    decreases |events|
  {
    if events == [] then store
    else Run(desk, After(desk, store, trades, events[0], checks), trades, events[1..], checks)
  }

  /** Over every such run of trades and settlements the stored balances of the ledger never
      promise a date more than there will be. */
  lemma {:induction false} LedgerNeverOversold(desk: Desk, store: Store, trades: Trades, events: seq<Event>,
                                               checks: bool)
    requires Sound(desk, store) && OrderlyRun(desk, store, trades, events, checks)
    ensures
      var after := Run(desk, store, trades, events, checks);
      && Inv(after) && Kept(desk, after.balances)
      && forall date: int :: Available(desk, after.balances, date) >= 0
    decreases |events|
  {
    if events == [] {
      ChecksTheLegs(desk, store);
      forall date: int ensures Available(desk, store.balances, date) >= 0 {
        assert Tradable.Through(View(desk, store), date) >= 0;
      }
    } else {
      match events[0]
      case Trade(_, _, _) =>
        TradeStaysSound(desk, store, trades, events[0], checks);
        LedgerNeverOversold(desk, After(desk, store, trades, events[0], checks), trades, events[1..], checks);
      case Settlement(_, _, _) =>
        SettlementStaysSound(desk, store, trades, events[0], checks);
        LedgerNeverOversold(desk, After(desk, store, trades, events[0], checks), trades, events[1..], checks);
      case Elsewhere(_) =>
        ElsewhereStaysSound(desk, store, trades, events[0], checks);
        LedgerNeverOversold(desk, After(desk, store, trades, events[0], checks), trades, events[1..], checks);
    }
  }

  // ---- the query ------------------------------------------------------------------------------------

  /** On the ledger the check lets a sell through exactly when the stored balances leave its amount
      by its date. */
  lemma {:induction false} PassesOnLedgerIff(desk: Desk, store: Store, date: int, quantity: int)
    requires Inv(store) && Kept(desk, store.balances) && quantity > 0
    ensures Tradable.PassesCheck(View(desk, store), date, quantity) <==>
      quantity <= Available(desk, store.balances, date)
  {
    ChecksTheLegs(desk, store);
    assert Tradable.Through(View(desk, store), date) == Available(desk, store.balances, date);
    Tradable.PassesIff(View(desk, store), date, quantity);
    Tradable.SellTakes(View(desk, store), date, quantity, date);
  }

  /** The sums over the future buckets, and the quantity that can be sold by a date. */
  method GetTradable(ds: Datasource, desk: Desk, date: int) returns (tradable: int)
    requires Inv(ds.Snapshot()) && Kept(desk, ds.balances)
    ensures tradable == Max(0, Available(desk, ds.balances, date))
    ensures forall q: int | q > 0 :: q <= tradable <==> Tradable.PassesCheck(View(desk, ds.Snapshot()), date, q)
  {
    var incoming, outgoing := 0, 0;
    for i := 0 to |desk.slots|
      invariant incoming == FutureHolds(ds.balances, desk.slots[..i], false, date)
      invariant outgoing == FutureHolds(ds.balances, desk.slots[..i], true, date)
    {
      assert desk.slots[..i + 1][..i] == desk.slots[..i];
      if desk.slots[i].date <= date {
        incoming := incoming + ds.balances[desk.slots[i].id].amounts.inflightCredit;
        outgoing := outgoing + ds.balances[desk.slots[i].id].amounts.inflightDebit;
      }
    }
    assert desk.slots[..|desk.slots|] == desk.slots;
    var spot := ds.balances[desk.spot].amounts;
    tradable := spot.balance - spot.inflightDebit - outgoing;
    if desk.onTheWay { tradable := tradable + incoming; }
    if tradable < 0 { tradable := 0; }
    forall q: int | q > 0
      ensures q <= tradable <==> Tradable.PassesCheck(View(desk, ds.Snapshot()), date, q)
    {
      PassesOnLedgerIff(desk, ds.Snapshot(), date, q);
    }
  }

  /** The security leg of a sell: it passes exactly when the stored balances leave its amount by its
      date, and is then posted like any transaction; otherwise nothing happens. */
  method SellTrade(blnk: Coalescing.Blnk, desk: Desk, j: nat, t: Txn) returns (passed: bool, r: Result<(), Error>)
    requires Inv(blnk.ds.Snapshot()) && Kept(desk, blnk.ds.balances) && j < |desk.slots| && t.amount > 0
    modifies blnk.ds
    ensures
      var before, date := old(blnk.ds.Snapshot()), desk.slots[j].date;
      && (passed <==> t.amount <= Available(desk, before.balances, date))
      && (passed <==> Accepted(desk, before, Event.Trade(j, true, t)))
      && if passed then Outcome(Single(before, t, blnk.queuedChecks), before, blnk.ds.Snapshot(), r)
         else r == Err(InsufficientFunds) && blnk.ds.Snapshot() == before
  {
    var tradable := GetTradable(blnk.ds, desk, desk.slots[j].date);
    ghost var before := blnk.ds.Snapshot();
    PassesOnLedgerIff(desk, before, desk.slots[j].date, t.amount);
    passed := t.amount <= tradable;
    if !passed {
      assert blnk.ds.Snapshot() == before;
      return false, Err(InsufficientFunds);
    }
    r := blnk.RecordTransactionSingle(t);
  }
}
