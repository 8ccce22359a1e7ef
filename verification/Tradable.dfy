/** How much of a position can be sold by a settle date, and whether a date can end up
    oversold (brokerage.go:183-274, model/brokerage.go:271-281, database/brokerage.go:257-266,
    698-721). Quantities only; a trade's legs stand for the holds on its future bucket. */
module Tradable {
  import opened Wrappers

  /** A pending security leg: a buy brings quantity in on its settle date, a sell takes it out. */
  datatype Leg = Leg(date: int, quantity: int, sell: bool)

  /** Spot quantity, what spot itself has blocked, and the pending legs of the future buckets. */
  datatype Position = Position(spot: int, blocked: int, legs: seq<Leg>, onTheWay: bool)

  /** The hold sum of one side over the buckets settling on or before a date. */
  function Holds(legs: seq<Leg>, sell: bool, date: int): int {
    if legs == [] then 0
    else
      var last := legs[|legs| - 1];
      Holds(legs[..|legs| - 1], sell, date) + if last.sell == sell && last.date <= date then last.quantity else 0
  }

  /** Settled less blocked less outgoing, plus incoming where the instrument trades on the way. */
  function Through(p: Position, date: int): int {
    p.spot - p.blocked - Holds(p.legs, true, date) + if p.onTheWay then Holds(p.legs, false, date) else 0
  }

  function ComputeTradable(p: Position, date: int): int {
    Max(0, Through(p, date))
  }

  predicate Proper(p: Position) {
    p.blocked >= 0 && forall i | 0 <= i < |p.legs| :: p.legs[i].quantity > 0
  }

  /** No date is oversold. */
  ghost predicate NeverOversold(p: Position) {
    forall date: int :: Through(p, date) >= 0
  }

  function Bought(p: Position, date: int, quantity: int): Position {
    Dealt(p, date, quantity, false)
  }

  function Sold(p: Position, date: int, quantity: int): Position {
    if PassesCheck(p, date, quantity) then Dealt(p, date, quantity, true) else p
  }

  function Without(legs: seq<Leg>, date: int): seq<Leg> {
    if legs == [] then []
    else Without(legs[..|legs| - 1], date) + if legs[|legs| - 1].date == date then [] else [legs[|legs| - 1]]
  }

  function NetOn(legs: seq<Leg>, date: int): int {
    if legs == [] then 0
    else
      var last := legs[|legs| - 1];
      NetOn(legs[..|legs| - 1], date) +
        if last.date != date then 0 else if last.sell then -last.quantity else last.quantity
  }

  /** Settling a bucket moves its net quantity to spot. */
  function Settled(p: Position, date: int): Position {
    p.(spot := p.spot + NetOn(p.legs, date), legs := Without(p.legs, date))
  }

  // ---- holds --------------------------------------------------------------------------------

  lemma {:induction false} OneMoreLeg(legs: seq<Leg>, leg: Leg, sell: bool, date: int)
    ensures Holds(legs + [leg], sell, date) == Holds(legs, sell, date) +
      if leg.sell == sell && leg.date <= date then leg.quantity else 0
  {
    assert (legs + [leg])[..|legs|] == legs;
  }

  lemma {:induction false} HoldsGrow(legs: seq<Leg>, sell: bool, d: int, date: int)
    requires forall i | 0 <= i < |legs| :: legs[i].quantity > 0
    requires d <= date
    ensures 0 <= Holds(legs, sell, d) <= Holds(legs, sell, date)
  {
    if legs != [] {
      HoldsGrow(legs[..|legs| - 1], sell, d, date);
    }
  }

  /** With no leg of a side after d, later dates see nothing more of that side. */
  lemma {:induction false} HoldsEnd(legs: seq<Leg>, sell: bool, d: int, date: int)
    requires d <= date && forall i | 0 <= i < |legs| :: legs[i].sell == sell ==> legs[i].date <= d
    ensures Holds(legs, sell, date) == Holds(legs, sell, d)
  {
    if legs != [] {
      HoldsEnd(legs[..|legs| - 1], sell, d, date);
    }
  }

  /** The quantity of one side on exactly one date. */
  function HoldsOn(legs: seq<Leg>, sell: bool, date: int): int {
    if legs == [] then 0
    else
      var last := legs[|legs| - 1];
      HoldsOn(legs[..|legs| - 1], sell, date) + if last.sell == sell && last.date == date then last.quantity else 0
  }

  lemma {:induction false} WithoutExactly(legs: seq<Leg>, date: int, sell: bool, d: int)
    ensures Holds(Without(legs, date), sell, d) == Holds(legs, sell, d) -
      if date <= d then HoldsOn(legs, sell, date) else 0
    ensures NetOn(legs, date) == HoldsOn(legs, false, date) - HoldsOn(legs, true, date)
  {
    if legs != [] {
      var n := |legs| - 1;
      WithoutExactly(legs[..n], date, sell, d);
      if legs[n].date != date {
        OneMoreLeg(Without(legs[..n], date), legs[n], sell, d);
      } else {
        assert Without(legs[..n], date) + [] == Without(legs[..n], date);
      }
    }
  }

  lemma {:induction false} OneMoreOn(legs: seq<Leg>, leg: Leg, sell: bool, date: int)
    ensures HoldsOn(legs + [leg], sell, date) == HoldsOn(legs, sell, date) +
      if leg.sell == sell && leg.date == date then leg.quantity else 0
  {
    assert (legs + [leg])[..|legs|] == legs;
  }

  lemma {:induction false} SplitHolds(a: seq<Leg>, b: seq<Leg>, sell: bool, date: int)
    ensures Holds(a + b, sell, date) == Holds(a, sell, date) + Holds(b, sell, date)
    ensures HoldsOn(a + b, sell, date) == HoldsOn(a, sell, date) + HoldsOn(b, sell, date)
  {
    if b == [] {
      assert a + b == a;
    } else {
      assert (a + b)[..|a + b| - 1] == a + b[..|b| - 1];
      SplitHolds(a, b[..|b| - 1], sell, date);
    }
  }

  lemma {:induction false} HoldsOnPositive(legs: seq<Leg>, sell: bool, date: int)
    requires forall i | 0 <= i < |legs| :: legs[i].quantity > 0
    ensures HoldsOn(legs, sell, date) >= 0
  {
    if legs != [] {
      HoldsOnPositive(legs[..|legs| - 1], sell, date);
    }
  }

  lemma {:induction false} WithoutHolds(legs: seq<Leg>, d: int, date: int)
    requires forall i | 0 <= i < |legs| :: legs[i].quantity > 0
    ensures Holds(Without(legs, d), false, date) - Holds(Without(legs, d), true, date) ==
      Holds(legs, false, date) - Holds(legs, true, date) - if d <= date then NetOn(legs, d) else 0
    ensures Holds(Without(legs, d), true, date) <= Holds(legs, true, date)
    ensures d > date ==> Holds(Without(legs, d), true, date) == Holds(legs, true, date)
    ensures d <= date ==> Holds(Without(legs, d), true, date) <= Holds(legs, true, date) + NetOn(legs, d)
  {
    WithoutExactly(legs, d, true, date);
    WithoutExactly(legs, d, false, date);
    HoldsOnPositive(legs, true, d);
    HoldsOnPositive(legs, false, d);
  }

  lemma {:induction false} WithoutMembers(legs: seq<Leg>, d: int)
    ensures forall i | 0 <= i < |Without(legs, d)| :: Without(legs, d)[i] in legs && Without(legs, d)[i].date != d
  {
    if legs != [] {
      var n := |legs| - 1;
      WithoutMembers(legs[..n], d);
      assert legs == legs[..n] + [legs[n]];
    }
  }

  // ---- when a sell is accepted ------------------------------------------------------------------

  /** The position with one more leg. */
  function Dealt(p: Position, date: int, quantity: int, sell: bool): Position {
    p.(legs := p.legs + [Leg(date, quantity, sell)])
  }

  /** The check of a sell: no more than is tradable by its date. */
  predicate PassesCheck(p: Position, date: int, quantity: int) {
    quantity <= ComputeTradable(p, date)
  }

  lemma {:induction false} SellTakes(p: Position, date: int, quantity: int, d: int)
    ensures Through(Dealt(p, date, quantity, true), d) == Through(p, d) - if date <= d then quantity else 0
  {
    OneMoreLeg(p.legs, Leg(date, quantity, true), true, d);
    OneMoreLeg(p.legs, Leg(date, quantity, true), false, d);
  }

  /** A sell passes its check exactly when its date is still covered with the sell booked: nothing
      is refused that could be delivered by then. */
  lemma {:induction false} PassesIff(p: Position, date: int, quantity: int)
    requires quantity > 0
    ensures PassesCheck(p, date, quantity) <==> Through(Dealt(p, date, quantity, true), date) >= 0
  {
    SellTakes(p, date, quantity, date);
  }

  /** Whatever is bought for a date or an earlier one and not yet settled can be sold for it, where
      the instrument trades on the way, and only there; whatever is sold is gone from its date on. */
  lemma {:induction false} LegMovesTradable(p: Position, date: int, quantity: int, sell: bool, d: int)
    requires Through(p, d) >= 0 && quantity > 0
    ensures ComputeTradable(Dealt(p, date, quantity, sell), d) ==
      if d < date then ComputeTradable(p, d)
      else if sell then Max(0, ComputeTradable(p, d) - quantity)
      else ComputeTradable(p, d) + if p.onTheWay then quantity else 0
  {
    var leg := Leg(date, quantity, sell);
    var more := Dealt(p, date, quantity, sell);
    assert more.legs == p.legs + [leg];
    OneMoreLeg(p.legs, leg, true, d);
    OneMoreLeg(p.legs, leg, false, d);
    assert Through(more, d) ==
      Through(p, d) + if d < date then 0 else if sell then -quantity else if p.onTheWay then quantity else 0;
  }

  // ---- when a sell oversells ------------------------------------------------------------------

  /** An accepted sell keeps every date covered exactly when the quantity is also there on every
      later date; the check only looks at its own. */
  lemma {:induction false} SellKeepsIff(p: Position, date: int, quantity: int)
    requires NeverOversold(p) && 0 < quantity <= ComputeTradable(p, date)
    ensures NeverOversold(Sold(p, date, quantity)) <==> forall d: int :: d >= date ==> quantity <= Through(p, d)
  {
    var after := Sold(p, date, quantity);
    forall d: int ensures Through(after, d) == Through(p, d) - if date <= d then quantity else 0 {
      SellTakes(p, date, quantity, d);
    }
    if NeverOversold(after) {
      forall d: int | d >= date ensures quantity <= Through(p, d) { assert Through(after, d) >= 0; }
    }
  }

  predicate NoSellAfter(p: Position, date: int) {
    forall i | 0 <= i < |p.legs| :: p.legs[i].sell ==> p.legs[i].date <= date
  }

  /** Selling in order of settle date, the check of one date covers all. */
  lemma {:induction false} OrderedSellKeeps(p: Position, date: int, quantity: int)
    requires Proper(p) && NeverOversold(p) && quantity > 0 && NoSellAfter(p, date)
    ensures Proper(Sold(p, date, quantity)) && NeverOversold(Sold(p, date, quantity))
      && NoSellAfter(Sold(p, date, quantity), date)
  {
    if quantity <= ComputeTradable(p, date) {
      forall d: int | d >= date
        ensures quantity <= Through(p, d)
      {
        HoldsEnd(p.legs, true, date, d);
        HoldsGrow(p.legs, false, date, d);
      }
      SellKeepsIff(p, date, quantity);
    }
  }

  lemma {:induction false} BuyKeeps(p: Position, date: int, quantity: int)
    requires Proper(p) && NeverOversold(p) && quantity > 0
    ensures Proper(Bought(p, date, quantity)) && NeverOversold(Bought(p, date, quantity))
  {
    var after := Bought(p, date, quantity);
    forall d: int
      ensures Through(after, d) >= 0
    {
      assert Through(p, d) >= 0;
      OneMoreLeg(p.legs, Leg(date, quantity, false), true, d);
      OneMoreLeg(p.legs, Leg(date, quantity, false), false, d);
    }
  }

  // ---- when a settlement oversells ------------------------------------------------------------

  /** Nothing is pending before the bucket. */
  predicate FirstBucket(p: Position, date: int) {
    forall i | 0 <= i < |p.legs| :: p.legs[i].date >= date
  }

  lemma {:induction false} NothingBefore(legs: seq<Leg>, sell: bool, d: int)
    requires forall i | 0 <= i < |legs| :: legs[i].date > d
    ensures Holds(legs, sell, d) == 0
  {
    if legs != [] {
      NothingBefore(legs[..|legs| - 1], sell, d);
    }
  }

  /** Settling a bucket changes what is available through earlier dates by its net quantity; on
      its own and later dates it changes nothing, or counts the buys in at last. */
  lemma {:induction false} SettleShifts(p: Position, date: int, d: int)
    requires Proper(p)
    ensures d < date ==> Through(Settled(p, date), d) == Through(p, d) + NetOn(p.legs, date)
    ensures d >= date ==> Through(Settled(p, date), d) >= Through(p, d)
    ensures d >= date && p.onTheWay ==> Through(Settled(p, date), d) == Through(p, d)
  {
    WithoutHolds(p.legs, date, d);
  }

  /** A settlement keeps every date covered exactly when every earlier date can bear the
      bucket's net quantity. */
  lemma {:induction false} SettleKeepsIff(p: Position, date: int)
    requires Proper(p) && NeverOversold(p)
    ensures NeverOversold(Settled(p, date)) <==> forall d: int :: d < date ==> Through(p, d) + NetOn(p.legs, date) >= 0
  {
    forall d: int
      ensures Through(Settled(p, date), d) >= 0 <==> d >= date || Through(p, d) + NetOn(p.legs, date) >= 0
    {
      assert Through(p, d) >= 0;
      SettleShifts(p, date, d);
    }
  }

  /** Settling the earliest bucket always keeps them covered. */
  lemma {:induction false} OrderedSettleKeeps(p: Position, date: int)
    requires Proper(p) && NeverOversold(p) && FirstBucket(p, date)
    ensures Proper(Settled(p, date)) && NeverOversold(Settled(p, date))
  {
    WithoutMembers(p.legs, date);
    forall d: int
      ensures Through(Settled(p, date), d) >= 0
    {
      assert Through(p, d) >= 0 && Through(p, date) >= 0;
      SettleShifts(p, date, d);
      if d < date {
        NothingBefore(p.legs, true, d);
        NothingBefore(p.legs, false, d);
        NothingBefore(Without(p.legs, date), true, d);
        NothingBefore(Without(p.legs, date), false, d);
        FirstBucketNet(p, date);
      }
    }
  }

  lemma {:induction false} FirstBucketNet(p: Position, date: int)
    requires Proper(p) && FirstBucket(p, date)
    ensures NetOn(p.legs, date) == Holds(p.legs, false, date) - Holds(p.legs, true, date)
    ensures Holds(p.legs, false, date) >= 0
  {
    FirstBucketSum(p.legs, date);
    HoldsGrow(p.legs, false, date, date);
  }

  lemma {:induction false} FirstBucketSum(legs: seq<Leg>, date: int)
    requires forall i | 0 <= i < |legs| :: legs[i].date >= date
    ensures NetOn(legs, date) == Holds(legs, false, date) - Holds(legs, true, date)
  {
    if legs != [] {
      FirstBucketSum(legs[..|legs| - 1], date);
    }
  }

  // ---- runs -----------------------------------------------------------------------------------

  datatype Event = Buy(date: int, quantity: int) | Sell(date: int, quantity: int) | Settle(date: int)

  function Step(p: Position, e: Event): Position {
    match e
    case Buy(date, quantity) => Bought(p, date, quantity)
    case Sell(date, quantity) => Sold(p, date, quantity)
    case Settle(date) => Settled(p, date)
  }

  function Run(p: Position, events: seq<Event>): Position
    decreases |events|
  {
    if events == [] then p else Run(Step(p, events[0]), events[1..])
  }

  /** Sells come in order of settle date and buckets settle in order of date. */
  predicate Orderly(p: Position, events: seq<Event>)
    decreases |events|
  {
    events == [] ||
    (match events[0] {
       case Buy(_, quantity) => quantity > 0
       case Sell(date, quantity) => quantity > 0 && NoSellAfter(p, date)
       case Settle(date) => FirstBucket(p, date)
     } && Orderly(Step(p, events[0]), events[1..]))
  }

  /** Over every such run no date is ever oversold, whichever way the instrument trades. */
  lemma {:induction false} OrderlyRunsNeverOversell(p: Position, events: seq<Event>)
    requires Proper(p) && NeverOversold(p) && Orderly(p, events)
    ensures Proper(Run(p, events)) && NeverOversold(Run(p, events))
    decreases |events|
  {
    if events != [] {
      match events[0]
      case Buy(date, quantity) =>
        BuyKeeps(p, date, quantity);
        OrderlyRunsNeverOversell(Step(p, events[0]), events[1..]);
      case Sell(date, quantity) =>
        OrderedSellKeeps(p, date, quantity);
        OrderlyRunsNeverOversell(Step(p, events[0]), events[1..]);
      case Settle(date) =>
        OrderedSettleKeeps(p, date);
        OrderlyRunsNeverOversell(Step(p, events[0]), events[1..]);
    }
  }

  /** The order of the sells matters, for any offset and either kind of instrument: two sells of
      the same ten units pass their checks, the later date first. */
  lemma {:induction false} LaterThenEarlierOversells(onTheWay: bool)
    ensures
      var p := Position(10, 0, [], onTheWay);
      NeverOversold(p) && Through(Run(p, [Sell(5, 10), Sell(3, 10)]), 5) == -10
  {
    var p := Position(10, 0, [], onTheWay);
    forall d: int ensures Through(p, d) == 10 { assert Holds(p.legs, true, d) == Holds(p.legs, false, d) == 0; }
    var one := Sold(p, 5, 10);
    assert one.legs == [Leg(5, 10, true)];
    OneMoreLeg([], Leg(5, 10, true), true, 3);
    OneMoreLeg([], Leg(5, 10, true), false, 3);
    assert [] + [Leg(5, 10, true)] == [Leg(5, 10, true)];
    var two := Sold(one, 3, 10);
    assert two.legs == [Leg(5, 10, true)] + [Leg(3, 10, true)];
    OneMoreLeg([], Leg(5, 10, true), true, 5);
    OneMoreLeg([], Leg(5, 10, true), false, 5);
    OneMoreLeg(one.legs, Leg(3, 10, true), true, 5);
    OneMoreLeg(one.legs, Leg(3, 10, true), false, 5);
    assert Through(two, 5) == -10;
    assert [Sell(5, 10), Sell(3, 10)][1..] == [Sell(3, 10)] && [Sell(3, 10)][1..] == [];
    assert Run(p, [Sell(5, 10), Sell(3, 10)]) == Run(one, [Sell(3, 10)]) == Run(two, []) == two;
  }

  /** So does the order of the settlements: a sale covered by a purchase settling before it
      leaves spot short when its bucket settles first. */
  lemma {:induction false} LateBucketFirstOversells()
    ensures
      var p := Position(0, 0, [Leg(3, 10, false), Leg(5, 10, true)], true);
      NeverOversold(p) && Through(Settled(p, 5), 2) == -10
  {
    var p := Position(0, 0, [Leg(3, 10, false), Leg(5, 10, true)], true);
    assert p.legs == [Leg(3, 10, false)] + [Leg(5, 10, true)];
    assert [Leg(3, 10, false)] == [] + [Leg(3, 10, false)];
    forall d: int
      ensures Holds(p.legs, false, d) == (if d >= 3 then 10 else 0)
        && Holds(p.legs, true, d) == (if d >= 5 then 10 else 0)
    {
      OneMoreLeg([], Leg(3, 10, false), false, d);
      OneMoreLeg([], Leg(3, 10, false), true, d);
      OneMoreLeg([Leg(3, 10, false)], Leg(5, 10, true), false, d);
      OneMoreLeg([Leg(3, 10, false)], Leg(5, 10, true), true, d);
    }
    assert p.legs[..1] == [Leg(3, 10, false)] && [Leg(3, 10, false)][..0] == [];
    assert NetOn([Leg(3, 10, false)], 5) == NetOn([], 5) == 0;
    assert NetOn(p.legs, 5) == -10;
    SettleShifts(p, 5, 2);
  }

  // ---- the desk -------------------------------------------------------------------------------

  class Desk {
    var spot: int
    var legs: seq<Leg>
    const blocked: int
    const onTheWay: bool

    constructor (p: Position)
      ensures View() == p
    {
      spot, legs, blocked, onTheWay := p.spot, p.legs, p.blocked, p.onTheWay;
    }

    function View(): Position
      reads this
    {
      Position(spot, blocked, legs, onTheWay)
    }

    method BookTrade(date: int, quantity: int)
      modifies this
      ensures View() == Bought(old(View()), date, quantity)
    {
      legs := legs + [Leg(date, quantity, false)];
    }

    method SellTrade(date: int, quantity: int) returns (accepted: bool)
      modifies this
      ensures View() == if accepted then Dealt(old(View()), date, quantity, true) else old(View())
      ensures View() == Sold(old(View()), date, quantity)
      ensures quantity > 0 ==> (accepted <==> Through(Dealt(old(View()), date, quantity, true), date) >= 0)
    {
      if quantity > 0 { PassesIff(View(), date, quantity); }
      accepted := quantity <= ComputeTradable(View(), date);
      if accepted { legs := legs + [Leg(date, quantity, true)]; }
    }

    method SettleBucket(date: int)
      modifies this
      ensures View() == Settled(old(View()), date)
    {
      var net, kept: seq<Leg> := 0, [];
      for i := 0 to |legs|
        invariant net == NetOn(legs[..i], date) && kept == Without(legs[..i], date)
        invariant View() == old(View())
      {
        assert legs[..i + 1][..i] == legs[..i];
        if legs[i].date == date {
          net := net + if legs[i].sell then -legs[i].quantity else legs[i].quantity;
        } else {
          kept := kept + [legs[i]];
        }
      }
      assert legs[..|legs|] == legs;
      spot, legs := spot + net, kept;
    }

    /** Settles the matured buckets, given in order of date; buckets whose settlement fails are
        reported and passed over. */
    method RunSettlement(matured: seq<int>, broken: set<int>)
      modifies this
      ensures View() == Run(old(View()), Settlements(matured, broken))
    {
      for i := 0 to |matured|
        invariant Run(old(View()), Settlements(matured, broken)) == Run(View(), Settlements(matured[i..], broken))
      {
        assert matured[i..][0] == matured[i] && matured[i..][1..] == matured[i + 1..];
        ghost var rest := Settlements(matured[i + 1..], broken);
        if matured[i] in broken {
          assert Settlements(matured[i..], broken) == rest;
          continue;
        }
        assert Settlements(matured[i..], broken) == [Settle(matured[i])] + rest;
        assert ([Settle(matured[i])] + rest)[1..] == rest;
        SettleBucket(matured[i]);
      }
    }
  }

  function Settlements(matured: seq<int>, broken: set<int>): seq<Event>
    decreases |matured|
  {
    if matured == [] then []
    else (if matured[0] in broken then [] else [Settle(matured[0])]) + Settlements(matured[1..], broken)
  }

  /** A run over every matured date in order, none of them failing, is an orderly one. */
  lemma {:induction false} CompleteRunIsOrderly(p: Position, matured: seq<int>)
    requires Proper(p)
    requires forall i, j | 0 <= i < j < |matured| :: matured[i] < matured[j]
    requires forall i | 0 <= i < |p.legs| ::
      p.legs[i].date in matured || (forall k | 0 <= k < |matured| :: p.legs[i].date > matured[k])
    ensures Orderly(p, Settlements(matured, {}))
    decreases |matured|
  {
    if matured != [] {
      var date := matured[0];
      forall i | 0 <= i < |p.legs| ensures p.legs[i].date >= date {
        if p.legs[i].date in matured {
          var k :| 0 <= k < |matured| && matured[k] == p.legs[i].date;
        }
      }
      WithoutMembers(p.legs, date);
      var next := Settled(p, date);
      var rest := matured[1..];
      forall i | 0 <= i < |next.legs|
        ensures next.legs[i].date in rest || (forall k | 0 <= k < |rest| :: next.legs[i].date > rest[k])
      {
        assert next.legs[i] in p.legs && next.legs[i].date != date;
        var j :| 0 <= j < |p.legs| && p.legs[j] == next.legs[i];
        if p.legs[j].date in matured {
          var k :| 0 <= k < |matured| && matured[k] == p.legs[j].date;
          assert rest[k - 1] == matured[k];
        }
      }
      CompleteRunIsOrderly(next, rest);
      assert Settlements(matured, {}) == [Settle(date)] + Settlements(rest, {});
      assert Settlements(matured, {})[1..] == Settlements(rest, {});
    }
  }
}
