/** Splitting a spend over fund sources: first-in-first-out, last-in-first-out and
    proportional (lineage_allocation.go). */
module Allocation {
  import opened Wrappers

  datatype Source = Source(balanceId: Id, balance: int, createdAt: int)
  datatype Alloc = Alloc(balanceId: Id, amount: int)
  datatype Strategy = Fifo | Lifo | Proportional

  /** What the first k sources have together. */
  function Before(sources: seq<Source>, k: nat): int
    requires k <= |sources|
  {
    if k == 0 then 0 else Before(sources, k - 1) + sources[k - 1].balance
  }

  function Total(sources: seq<Source>): int {
    Before(sources, |sources|)
  }

  function Sum(allocs: seq<Alloc>): int {
    if allocs == [] then 0 else Sum(allocs[..|allocs| - 1]) + allocs[|allocs| - 1].amount
  }

  /** The source lookup only keeps balances with something available. */
  predicate Positive(sources: seq<Source>) {
    forall i | 0 <= i < |sources| :: sources[i].balance > 0
  }

  predicate NonNegative(sources: seq<Source>) {
    forall i | 0 <= i < |sources| :: sources[i].balance >= 0
  }

  lemma {:induction false} BeforeAgrees(a: seq<Source>, b: seq<Source>, k: nat)
    requires k <= |a| && k <= |b| && forall i | 0 <= i < k :: a[i] == b[i]
    ensures Before(a, k) == Before(b, k)
  {
    if k > 0 {
      BeforeAgrees(a, b, k - 1);
    }
  }

  lemma {:induction false} BeforeSplit(a: seq<Source>, b: seq<Source>, k: nat)
    requires k <= |b|
    ensures Before(a + b, |a| + k) == Total(a) + Before(b, k)
  {
    if k == 0 {
      BeforeAgrees(a + b, a, |a|);
    } else {
      BeforeSplit(a, b, k - 1);
    }
  }

  lemma {:induction false} BeforeAtLeast(sources: seq<Source>, k: nat)
    requires Positive(sources) && k <= |sources|
    ensures Before(sources, k) >= k
  {
    if k > 0 {
      BeforeAtLeast(sources, k - 1);
    }
  }

  /** Prefix sums of non-negative sources only grow. */
  lemma {:induction false} BeforeGrows(sources: seq<Source>, i: nat, j: nat)
    requires NonNegative(sources) && i <= j <= |sources|
    ensures 0 <= Before(sources, i) <= Before(sources, j)
    decreases j
  {
    if i < j {
      BeforeGrows(sources, i, j - 1);
    } else if i > 0 {
      BeforeGrows(sources, i - 1, i - 1);
    }
  }

  lemma {:induction false} PrefixTotal(sources: seq<Source>, i: nat, j: nat)
    requires NonNegative(sources) && i < j <= |sources|
    ensures Before(sources, i) + sources[i].balance <= Before(sources, j)
  {
    BeforeGrows(sources, i + 1, j);
  }

  lemma {:induction false} TotalPositive(sources: seq<Source>)
    requires Positive(sources) && sources != []
    ensures Total(sources) > 0
  {
    BeforeAtLeast(sources, |sources|);
  }

  // ---- sequential -----------------------------------------------------------------------

  /** What one position gives: whatever the positions before it could not cover, up to its own
      balance. */
  function Drawn(sources: seq<Source>, amount: int, k: nat): int
    requires k < |sources|
  {
    Max(0, Min(sources[k].balance, amount - Before(sources, k)))
  }

  /** The positions that give something, in order. */
  function Draws(sources: seq<Source>, amount: int, k: nat): seq<Alloc>
    requires k <= |sources|
  {
    if k == 0 then []
    else
      Draws(sources, amount, k - 1) +
      if Drawn(sources, amount, k - 1) > 0 then [Alloc(sources[k - 1].balanceId, Drawn(sources, amount, k - 1))] else []
  }

  method Sequential(sources: seq<Source>, amount: int) returns (allocs: seq<Alloc>)
    requires Positive(sources)
    ensures allocs == Draws(sources, amount, |sources|)
  {
    allocs := [];
    if amount <= 0 {
      NothingDrawn(sources, amount, 0, |sources|);
      return;
    }
    var remaining := amount;
    for i := 0 to |sources|
      invariant allocs == Draws(sources, amount, i)
      invariant remaining == Max(0, amount - Before(sources, i))
    {
      if remaining <= 0 {
        NothingDrawn(sources, amount, i, |sources|);
        break;
      }
      var alloc := if sources[i].balance >= remaining then remaining else sources[i].balance;
      if alloc > 0 {
        allocs := allocs + [Alloc(sources[i].balanceId, alloc)];
        remaining := remaining - alloc;
      }
    }
  }

  /** Once the amount is covered the later positions give nothing. */
  lemma {:induction false} NothingDrawn(sources: seq<Source>, amount: int, i: nat, k: nat)
    requires NonNegative(sources) && i <= k <= |sources| && amount <= Before(sources, i)
    ensures Draws(sources, amount, k) == Draws(sources, amount, i)
  {
    if i < k {
      if i < k - 1 { PrefixTotal(sources, i, k - 1); }
      NothingDrawn(sources, amount, i, k - 1);
    }
  }

  lemma {:induction false} SumAppend(allocs: seq<Alloc>, last: Alloc)
    ensures Sum(allocs + [last]) == Sum(allocs) + last.amount
  {
    assert (allocs + [last])[..|allocs|] == allocs;
  }

  lemma {:induction false} DrawStep(sources: seq<Source>, amount: int, k: nat)
    requires 0 < k <= |sources|
    ensures Sum(Draws(sources, amount, k)) == Sum(Draws(sources, amount, k - 1)) + Drawn(sources, amount, k - 1)
  {
    var rest, d := Draws(sources, amount, k - 1), Drawn(sources, amount, k - 1);
    if d > 0 {
      SumAppend(rest, Alloc(sources[k - 1].balanceId, d));
    } else {
      assert rest + [] == rest;
    }
  }

  lemma {:induction false} DrawsSum(sources: seq<Source>, amount: int, k: nat)
    requires NonNegative(sources) && k <= |sources|
    ensures Sum(Draws(sources, amount, k)) == Max(0, Min(amount, Before(sources, k)))
  {
    if k > 0 {
      DrawsSum(sources, amount, k - 1);
      DrawStep(sources, amount, k);
      BeforeGrows(sources, k - 1, k - 1);
    }
  }

  /** The whole amount is covered or everything there is has been drawn. */
  lemma {:induction false} SequentialCovers(sources: seq<Source>, amount: int)
    requires NonNegative(sources)
    ensures Sum(Draws(sources, amount, |sources|)) == Max(0, Min(amount, Total(sources)))
  {
    DrawsSum(sources, amount, |sources|);
  }

  /** No position gives more than it has, and a position gives only after everything before it
      has been drained. */
  lemma {:induction false} DrainedBeforeUsed(sources: seq<Source>, amount: int, i: nat, j: nat)
    requires NonNegative(sources) && i < j < |sources|
    ensures 0 <= Drawn(sources, amount, j) <= sources[j].balance
    ensures Drawn(sources, amount, j) > 0 ==> Drawn(sources, amount, i) == sources[i].balance
  {
    PrefixTotal(sources, i, j);
  }

  // ---- the order ------------------------------------------------------------------------

  predicate Ascending(sources: seq<Source>) {
    forall i, j | 0 <= i < j < |sources| :: sources[i].createdAt <= sources[j].createdAt
  }

  predicate Descending(sources: seq<Source>) {
    forall i, j | 0 <= i < j < |sources| :: sources[i].createdAt >= sources[j].createdAt
  }

  /** What sorting may return; the sort is not stable, so ties come in any order. */
  predicate SortedAs(sources: seq<Source>, strategy: Strategy, ordered: seq<Source>) {
    && multiset(ordered) == multiset(sources)
    && match strategy
       case Fifo => Ascending(ordered)
       case Lifo => Descending(ordered)
       case Proportional => ordered == sources
  }

  predicate DistinctTimes(sources: seq<Source>) {
    forall i, j | 0 <= i < j < |sources| :: sources[i].createdAt != sources[j].createdAt
  }

  lemma {:induction false} PermutedPositive(sources: seq<Source>, ordered: seq<Source>)
    requires multiset(ordered) == multiset(sources) && Positive(sources)
    ensures Positive(ordered)
  {
    forall i | 0 <= i < |ordered|
      ensures ordered[i].balance > 0
    {
      assert ordered[i] in multiset(ordered);
    }
  }

  /** First in, first out: with a younger source touched, every strictly older one is empty;
      and the other way round for last in, first out. */
  lemma {:induction false} AgeOrder(sources: seq<Source>, strategy: Strategy, ordered: seq<Source>, amount: int, i: nat,
                                    j: nat)
    requires Positive(sources) && SortedAs(sources, strategy, ordered) && strategy != Proportional
    requires i < |ordered| && j < |ordered| && Drawn(ordered, amount, j) > 0
    requires if strategy == Fifo then ordered[i].createdAt < ordered[j].createdAt
      else ordered[i].createdAt > ordered[j].createdAt
    ensures Drawn(ordered, amount, i) == ordered[i].balance
  {
    PermutedPositive(sources, ordered);
    assert i < j;
    DrainedBeforeUsed(ordered, amount, i, j);
  }

  function Reversed(sources: seq<Source>): (r: seq<Source>)
    ensures |r| == |sources| && forall i | 0 <= i < |r| :: r[i] == sources[|sources| - 1 - i]
  {
    seq(|sources|, i requires 0 <= i < |sources| => sources[|sources| - 1 - i])
  }

  lemma {:induction false} ReversedMultiset(sources: seq<Source>)
    ensures multiset(Reversed(sources)) == multiset(sources)
  {
    if sources != [] {
      var n := |sources| - 1;
      ReversedMultiset(sources[..n]);
      assert Reversed(sources) == [sources[n]] + Reversed(sources[..n]);
      assert sources == sources[..n] + [sources[n]];
    }
  }

  lemma {:induction false} SameHead(a: seq<Source>, b: seq<Source>)
    requires multiset(a) == multiset(b) && Ascending(a) && Ascending(b) && DistinctTimes(b) && a != []
    ensures b != [] && a[0] == b[0]
  {
    assert a[0] in multiset(b);
    var j :| 0 <= j < |b| && b[j] == a[0];
    assert b[0] in multiset(a);
    var i :| 0 <= i < |a| && a[i] == b[0];
    assert i == 0 || a[0].createdAt <= a[i].createdAt;
  }

  lemma {:induction false} TailMultiset(a: seq<Source>)
    requires a != []
    ensures multiset(a[1..]) == multiset(a) - multiset{a[0]}
  {
    assert a == [a[0]] + a[1..];
  }

  /** Two ascending arrangements of sources with distinct creation times are the same. */
  lemma {:induction false} AscendingIsUnique(a: seq<Source>, b: seq<Source>)
    requires multiset(a) == multiset(b) && Ascending(a) && Ascending(b) && DistinctTimes(b)
    ensures a == b
  {
    if a == [] {
      assert |multiset(b)| == 0;
    } else {
      SameHead(a, b);
      TailMultiset(a);
      TailMultiset(b);
      AscendingIsUnique(a[1..], b[1..]);
      assert a == [a[0]] + a[1..];
    }
  }

  /** With distinct creation times the two orders are mirror images, so what a position gives
      in one is measured from the opposite end in the other. */
  lemma {:induction false} FifoMirrorsLifo(sources: seq<Source>, fifo: seq<Source>, lifo: seq<Source>, amount: int,
                                           k: nat)
    requires SortedAs(sources, Fifo, fifo) && SortedAs(sources, Lifo, lifo) && DistinctTimes(fifo)
    requires k < |fifo|
    ensures lifo == Reversed(fifo)
    ensures Drawn(lifo, amount, |lifo| - 1 - k) ==
      Max(0, Min(fifo[k].balance, amount - (Total(fifo) - Before(fifo, k + 1))))
  {
    MirrorOrder(sources, fifo, lifo);
    ReversedBefore(fifo, |fifo| - 1 - k);
  }

  lemma {:induction false} MirrorOrder(sources: seq<Source>, fifo: seq<Source>, lifo: seq<Source>)
    requires SortedAs(sources, Fifo, fifo) && SortedAs(sources, Lifo, lifo) && DistinctTimes(fifo)
    ensures lifo == Reversed(fifo)
  {
    ReversedMultiset(lifo);
    AscendingIsUnique(Reversed(lifo), fifo);
    ReversedTwice(lifo);
  }

  lemma {:induction false} ReversedTwice(sources: seq<Source>)
    ensures Reversed(Reversed(sources)) == sources
  {
  }

  lemma {:induction false} ReversedBefore(sources: seq<Source>, k: nat)
    requires k <= |sources|
    ensures Before(Reversed(sources), k) == Total(sources) - Before(sources, |sources| - k)
  {
    if k > 0 {
      ReversedBefore(sources, k - 1);
    }
  }

  // ---- proportional ---------------------------------------------------------------------

  function Share(effective: int, balance: int, total: int): int
    requires total > 0
  {
    effective * balance / total
  }

  /** The shares of the first k sources, rounded down. */
  function Shares(sources: seq<Source>, effective: int, total: int, k: nat): int
    requires total > 0 && k <= |sources|
  {
    if k == 0 then 0 else Shares(sources, effective, total, k - 1) + Share(effective, sources[k - 1].balance, total)
  }

  /** What is given by position k: its share, and for the last one what is left, as far as its
      balance goes. */
  function Portion(sources: seq<Source>, effective: int, total: int, k: nat): int
    requires total > 0 && k < |sources|
  {
    if k == |sources| - 1 then Min(effective - Shares(sources, effective, total, k), sources[k].balance)
    else Share(effective, sources[k].balance, total)
  }

  function Portions(sources: seq<Source>, effective: int, total: int, k: nat): seq<Alloc>
    requires total > 0 && k <= |sources|
  {
    if k == 0 then []
    else
      Portions(sources, effective, total, k - 1) +
      var p := Portion(sources, effective, total, k - 1);
      if p > 0 then [Alloc(sources[k - 1].balanceId, p)] else []
  }

  lemma {:induction false} MulLe(a: int, b: int, c: int)
    requires a <= b && 0 <= c
    ensures a * c <= b * c
  {
  }

  /** Cancelling a positive factor. */
  lemma {:induction false} Cancel(a: int, b: int, c: int)
    requires c > 0 && a * c < (b + 1) * c
    ensures a <= b
  {
    if b + 1 <= a { MulLe(b + 1, a, c); }
  }

  lemma {:induction false} ShareWithinBalance(effective: int, balance: int, total: int)
    requires 0 <= effective <= total && total > 0 && balance > 0
    ensures 0 <= Share(effective, balance, total) <= balance
    ensures effective * balance == Share(effective, balance, total) * total + effective * balance % total
  {
    var p := effective * balance;
    var q, r := p / total, p % total;
    MulLe(0, effective, balance);
    MulLe(effective, total, balance);
    assert p == q * total + r;
    assert q * total < (balance + 1) * total;
    Cancel(q, balance, total);
    assert -1 * total < (q + 0) * total || r >= total || p < 0;
    Cancel(-q, 0, total);
  }

  method ProportionalAllocation(sources: seq<Source>, amount: int) returns (allocs: seq<Alloc>)
    requires Positive(sources)
    ensures allocs ==
      if amount <= 0 || sources == [] then []
      else (TotalPositive(sources); Portions(sources, Min(amount, Total(sources)), Total(sources), |sources|))
  {
    allocs := [];
    if amount <= 0 { return; }
    var total := 0;
    for i := 0 to |sources|
      invariant total == Before(sources, i)
    {
      total := total + sources[i].balance;
    }
    BeforeAtLeast(sources, |sources|);
    if total == 0 { return; }
    var effective := amount;
    if effective > total { effective := total; }
    var remaining := effective;
    for i := 0 to |sources|
      invariant allocs == Portions(sources, effective, total, i)
      invariant remaining == effective -
        if i == |sources| && i > 0 then
          Shares(sources, effective, total, i - 1) + Max(0, Portion(sources, effective, total, i - 1))
        else Shares(sources, effective, total, i)
    {
      var alloc;
      if i == |sources| - 1 {
        alloc := remaining;
      } else {
        alloc := effective * sources[i].balance / total;
        ShareWithinBalance(effective, sources[i].balance, total);
      }
      if alloc > sources[i].balance { alloc := sources[i].balance; }
      if alloc > 0 {
        allocs := allocs + [Alloc(sources[i].balanceId, alloc)];
        remaining := remaining - alloc;
      }
    }
  }

  /** The remainders lost by rounding down the first k shares. */
  function Lost(sources: seq<Source>, effective: int, total: int, k: nat): int
    requires total > 0 && k <= |sources|
  {
    if k == 0 then 0 else Lost(sources, effective, total, k - 1) + effective * sources[k - 1].balance % total
  }

  lemma {:induction false} SharesExactly(sources: seq<Source>, effective: int, total: int, k: nat)
    requires Positive(sources) && 0 <= effective <= total && total > 0 && k <= |sources|
    ensures Shares(sources, effective, total, k) * total + Lost(sources, effective, total, k) ==
      effective * Before(sources, k)
    ensures 0 <= Lost(sources, effective, total, k) <= k * (total - 1)
    ensures effective == total ==> Lost(sources, effective, total, k) == 0
  {
    if k > 0 {
      var b := sources[k - 1].balance;
      SharesExactly(sources, effective, total, k - 1);
      ShareWithinBalance(effective, b, total);
      OneMoreShare(effective, total, b, Shares(sources, effective, total, k - 1),
        Lost(sources, effective, total, k - 1), Before(sources, k - 1), k - 1);
      if effective == total { MultipleHasNoRemainder(total, b); }
    }
  }

  lemma {:induction false} OneMoreShare(effective: int, total: int, b: int, s: int, lost: int, t: int, k: int)
    requires total > 0 && s * total + lost == effective * t && lost <= k * (total - 1)
    requires effective * b == Share(effective, b, total) * total + effective * b % total
    ensures (s + Share(effective, b, total)) * total + (lost + effective * b % total) == effective * (t + b)
    ensures lost + effective * b % total <= (k + 1) * (total - 1)
  {
    var share, r := Share(effective, b, total), effective * b % total;
    assert (s + share) * total == s * total + share * total;
    assert effective * (t + b) == effective * t + effective * b;
    assert (k + 1) * (total - 1) == k * (total - 1) + (total - 1);
  }

  lemma {:induction false} MultipleHasNoRemainder(total: int, b: int)
    requires total > 0
    ensures total * b % total == 0
  {
    var q, r := total * b / total, total * b % total;
    assert (b - q) * total == r;
    assert (b - q) * total < (0 + 1) * total;
    Cancel(b - q, 0, total);
    assert (q - b) * total < (0 + 1) * total;
    Cancel(q - b, 0, total);
  }

  /** What the last source would have to give beyond its balance, scaled by the total. */
  lemma {:induction false} Overhang(effective: int, total: int, s: int, lost: int, last: int)
    requires s * total + lost == effective * (total - last)
    ensures (effective - s - last) * total == (effective - total) * last + lost
  {
    calc {
      (effective - s - last) * total;
      effective * total - s * total - last * total;
      effective * total - (effective * (total - last) - lost) - last * total;
      { assert effective * (total - last) == effective * total - effective * last; }
      effective * last + lost - last * total;
      (effective - total) * last + lost;
    }
  }

  lemma {:induction false} PortionsSum(sources: seq<Source>, effective: int, total: int, k: nat)
    requires Positive(sources) && 0 <= effective <= total && total > 0 && k < |sources|
    ensures Sum(Portions(sources, effective, total, k)) == Shares(sources, effective, total, k)
  {
    if k > 0 {
      PortionsSum(sources, effective, total, k - 1);
      ShareWithinBalance(effective, sources[k - 1].balance, total);
      var rest, p := Portions(sources, effective, total, k - 1), Portion(sources, effective, total, k - 1);
      SumAppend(rest, Alloc(sources[k - 1].balanceId, p));
      assert rest + [] == rest;
    }
  }

  /** What the last position of a proportional split has to work with. */
  lemma {:induction false} LastPortion(sources: seq<Source>, effective: int, total: int)
    requires Positive(sources) && sources != [] && total == Total(sources) && 0 <= effective <= total
    ensures
      total > 0 &&
      var n := |sources| - 1;
      var rest := effective - Shares(sources, effective, total, n);
      && 0 <= rest && rest - sources[n].balance <= Max(0, n - 1)
      && (effective == total ==> rest == sources[n].balance)
  {
    var n := |sources| - 1;
    BeforeAtLeast(sources, |sources|);
    BeforeAtLeast(sources, n);
    SharesExactly(sources, effective, total, n);
    var last, s, lost := sources[n].balance, Shares(sources, effective, total, n), Lost(sources, effective, total, n);
    assert Before(sources, n) == total - last;
    Overhang(effective, total, s, lost, last);
    SharesFit(effective, total, s, lost, last);
    OverhangBound(effective, total, s, lost, last, n);
  }

  /** Rounding down and capping the last source lose at most n - 2 units, and nothing when
      everything is spent. */
  lemma {:induction false} ProportionalBounds(sources: seq<Source>, amount: int)
    requires Positive(sources) && sources != [] && amount > 0
    ensures
      var total := Total(sources);
      var effective := Min(amount, total);
      total > 0 &&
      var sum := Sum(Portions(sources, effective, total, |sources|));
      && (forall k | 0 <= k < |sources| :: 0 <= Portion(sources, effective, total, k) <= sources[k].balance)
      && sum <= effective
      && effective - sum <= Max(0, |sources| - 2)
      && (effective == total ==> sum == effective)
  {
    var total, n := Total(sources), |sources| - 1;
    BeforeAtLeast(sources, |sources|);
    var effective := Min(amount, total);
    LastPortion(sources, effective, total);
    forall k | 0 <= k < n
      ensures 0 <= Portion(sources, effective, total, k) <= sources[k].balance
    {
      ShareWithinBalance(effective, sources[k].balance, total);
    }
    PortionsSum(sources, effective, total, n);
    var rest, p := Portions(sources, effective, total, n), Portion(sources, effective, total, n);
    if p > 0 { SumAppend(rest, Alloc(sources[n].balanceId, p)); } else { assert rest + [] == rest; }
  }

  lemma {:induction false} SharesFit(effective: int, total: int, s: int, lost: int, last: int)
    requires total > 0 && 0 <= effective && 0 <= lost && 0 < last <= total
    requires s * total + lost == effective * (total - last)
    ensures s <= effective
  {
    MulLe(total - last, total, effective);
    assert s * total < (effective + 1) * total;
    Cancel(s, effective, total);
  }

  lemma {:induction false} OverhangBound(effective: int, total: int, s: int, lost: int, last: int, n: nat)
    requires 0 < last <= total && 0 <= effective <= total && 0 <= lost <= n * (total - 1)
    requires (effective - s - last) * total == (effective - total) * last + lost
    requires effective == total ==> lost == 0
    ensures effective - s - last <= Max(0, n - 1)
    ensures effective == total ==> effective - s - last == 0
  {
    var h := effective - s - last;
    if effective == total {
      assert h * total < (0 + 1) * total;
      Cancel(h, 0, total);
      assert -h * total < (0 + 1) * total;
      Cancel(-h, 0, total);
    } else {
      MulLe(effective - total, -1, last);
      assert n * (total - 1) == n * total - n;
      assert h * total <= -1 + n * total - n;
      if n == 0 {
        Cancel(h, 0, total);
      } else {
        assert h * total < (n - 1 + 1) * total;
        Cancel(h, n - 1, total);
      }
    }
  }

  /** What a strategy hands out of the ordered sources. */
  function Allocs(ordered: seq<Source>, amount: int, strategy: Strategy): seq<Alloc>
    requires Positive(ordered)
  {
    if ordered == [] || amount <= 0 then []
    else if strategy == Proportional then
      TotalPositive(ordered);
      Portions(ordered, Min(amount, Total(ordered)), Total(ordered), |ordered|)
    else Draws(ordered, amount, |ordered|)
  }

  // ---- what each balance is given ---------------------------------------------------------

  /** What an allocation gives to one balance. */
  function Given(allocs: seq<Alloc>, id: Id): int {
    if allocs == [] then 0
    else
      var last := allocs[|allocs| - 1];
      Given(allocs[..|allocs| - 1], id) + if last.balanceId == id then last.amount else 0
  }

  predicate DistinctIds(sources: seq<Source>) {
    forall i, j | 0 <= i < j < |sources| :: sources[i].balanceId != sources[j].balanceId
  }

  /** One more position, which gives something or is left out. */
  function OneMore(allocs: seq<Alloc>, id: Id, amount: int): seq<Alloc> {
    allocs + if amount > 0 then [Alloc(id, amount)] else []
  }

  lemma {:induction false} OneMoreGives(allocs: seq<Alloc>, id: Id, amount: int, x: Id)
    ensures Given(OneMore(allocs, id, amount), x) == Given(allocs, x) + if id == x then Max(0, amount) else 0
    ensures Sum(OneMore(allocs, id, amount)) == Sum(allocs) + Max(0, amount)
  {
    assert (allocs + [Alloc(id, amount)])[..|allocs|] == allocs;
    assert allocs + [] == allocs;
  }

  lemma {:induction false} DrawsGive(sources: seq<Source>, amount: int, k: nat, i: nat)
    requires DistinctIds(sources) && k <= |sources| && i < |sources|
    ensures Given(Draws(sources, amount, k), sources[i].balanceId) == if i < k then Drawn(sources, amount, i) else 0
  {
    if k > 0 {
      DrawsGive(sources, amount, k - 1, i);
      var rest, id, d := Draws(sources, amount, k - 1), sources[k - 1].balanceId, Drawn(sources, amount, k - 1);
      assert Draws(sources, amount, k) == OneMore(rest, id, d);
      assert id == sources[i].balanceId <==> i == k - 1;
      OneMoreGives(rest, id, d, sources[i].balanceId);
    }
  }

  lemma {:induction false} PortionsGive(sources: seq<Source>, effective: int, total: int, k: nat, i: nat)
    requires DistinctIds(sources) && total > 0 && k <= |sources| && i < |sources|
    ensures Given(Portions(sources, effective, total, k), sources[i].balanceId) ==
      if i < k then Max(0, Portion(sources, effective, total, i)) else 0
  {
    if k > 0 {
      PortionsGive(sources, effective, total, k - 1, i);
      var rest, id := Portions(sources, effective, total, k - 1), sources[k - 1].balanceId;
      var p := Portion(sources, effective, total, k - 1);
      assert Portions(sources, effective, total, k) == OneMore(rest, id, p);
      assert id == sources[i].balanceId <==> i == k - 1;
      OneMoreGives(rest, id, p, sources[i].balanceId);
    }
  }

  lemma {:induction false} LastPortionSum(sources: seq<Source>, effective: int, total: int)
    requires Positive(sources) && 0 <= effective <= total && total > 0 && sources != []
    ensures
      var n := |sources| - 1;
      Sum(Portions(sources, effective, total, |sources|)) ==
        Shares(sources, effective, total, n) + Max(0, Portion(sources, effective, total, n))
  {
    var n := |sources| - 1;
    PortionsSum(sources, effective, total, n);
    var rest, p := Portions(sources, effective, total, n), Portion(sources, effective, total, n);
    assert Portions(sources, effective, total, n + 1) == OneMore(rest, sources[n].balanceId, p);
    OneMoreGives(rest, sources[n].balanceId, p, sources[n].balanceId);
  }

  /** A share rounded down. */
  lemma {:induction false} ShareRounds(effective: int, balance: int, total: int)
    requires 0 <= effective <= total && total > 0 && balance > 0
    ensures
      var g := Share(effective, balance, total);
      g * total <= effective * balance < (g + 1) * total
  {
    var g, r := Share(effective, balance, total), effective * balance % total;
    ShareWithinBalance(effective, balance, total);
    assert (g + 1) * total == g * total + total;
  }

  lemma {:induction false} ShareGiven(sources: seq<Source>, effective: int, total: int, i: nat)
    requires Positive(sources) && DistinctIds(sources) && 0 <= effective <= total && total > 0 && i < |sources| - 1
    ensures
      var g := Given(Portions(sources, effective, total, |sources|), sources[i].balanceId);
      g * total <= effective * sources[i].balance < (g + 1) * total
  {
    PortionsGive(sources, effective, total, |sources|, i);
    ShareWithinBalance(effective, sources[i].balance, total);
    ShareRounds(effective, sources[i].balance, total);
  }

  lemma {:induction false} LastGiven(sources: seq<Source>, effective: int, total: int)
    requires Positive(sources) && DistinctIds(sources) && sources != [] && total == Total(sources)
    requires 0 <= effective <= total
    ensures
      total > 0 &&
      var allocs, last := Portions(sources, effective, total, |sources|), sources[|sources| - 1];
      var g := Given(allocs, last.balanceId);
      g == Min(last.balance, effective - (Sum(allocs) - g))
  {
    var n := |sources| - 1;
    LastPortion(sources, effective, total);
    PortionsGive(sources, effective, total, |sources|, n);
    LastPortionSum(sources, effective, total);
  }

  /** Every source but the last is given its share of what can be spent, rounded down, and the last
      what the others leave, as far as its balance goes. */
  predicate SharedOut(sources: seq<Source>, amount: int, allocs: seq<Alloc>)
    requires sources != []
  {
    var total, last := Total(sources), sources[|sources| - 1];
    var effective := Min(amount, total);
    && (forall i | 0 <= i < |sources| - 1 ::
          var g := Given(allocs, sources[i].balanceId);
          g * total <= effective * sources[i].balance < (g + 1) * total)
    && (var g := Given(allocs, last.balanceId); g == Min(last.balance, effective - (Sum(allocs) - g)))
    && effective - Max(0, |sources| - 2) <= Sum(allocs) <= effective
    && (effective == total ==> Sum(allocs) == effective)
  }

  lemma {:induction false} ProportionalGives(sources: seq<Source>, amount: int)
    requires Positive(sources) && DistinctIds(sources) && sources != [] && amount > 0
    ensures SharedOut(sources, amount, Allocs(sources, amount, Proportional))
  {
    var total := Total(sources);
    TotalPositive(sources);
    var effective := Min(amount, total);
    ProportionalBounds(sources, amount);
    forall i | 0 <= i < |sources| - 1
      ensures
        var g := Given(Portions(sources, effective, total, |sources|), sources[i].balanceId);
        g * total <= effective * sources[i].balance < (g + 1) * total
    {
      ShareGiven(sources, effective, total, i);
    }
    LastGiven(sources, effective, total);
  }

  predicate Sooner(strategy: Strategy, a: Source, b: Source) {
    if strategy == Fifo then a.createdAt < b.createdAt else a.createdAt > b.createdAt
  }

  lemma {:induction false} TotalSplit(a: seq<Source>, b: seq<Source>)
    ensures Total(a + b) == Total(a) + Total(b)
  {
    BeforeSplit(a, b, |b|);
  }

  lemma {:induction false} OneFewer(a: seq<Source>, b: seq<Source>, j: nat)
    requires a != [] && multiset(a) == multiset(b) && j < |b| && b[j] == a[0]
    ensures multiset(a[1..]) == multiset(b[..j] + b[j + 1..])
  {
    TailMultiset(a);
    assert b == b[..j] + ([b[j]] + b[j + 1..]);
    var x, y := multiset(b[..j]), multiset(b[j + 1..]);
    assert multiset(b) == x + (multiset{b[j]} + y);
    assert multiset(b) - multiset{b[j]} == x + y;
  }

  lemma {:induction false} TotalPermutes(a: seq<Source>, b: seq<Source>)
    requires multiset(a) == multiset(b)
    ensures Total(a) == Total(b)
  {
    if a == [] {
      assert |multiset(b)| == 0;
    } else {
      assert a[0] in multiset(b);
      var j :| 0 <= j < |b| && b[j] == a[0];
      OneFewer(a, b, j);
      TotalPermutes(a[1..], b[..j] + b[j + 1..]);
      assert a == [a[0]] + a[1..] && b == b[..j] + ([a[0]] + b[j + 1..]);
      TotalSplit([a[0]], a[1..]);
      TotalSplit(b[..j], [a[0]] + b[j + 1..]);
      TotalSplit([a[0]], b[j + 1..]);
      TotalSplit(b[..j], b[j + 1..]);
    }
  }

  lemma {:induction false} OrderedGives(ordered: seq<Source>, amount: int, strategy: Strategy, i: nat)
    requires Positive(ordered) && DistinctIds(ordered) && strategy != Proportional && i < |ordered|
    ensures Given(Allocs(ordered, amount, strategy), ordered[i].balanceId) == Drawn(ordered, amount, i)
  {
    DrawsGive(ordered, amount, |ordered|, i);
    BeforeAtLeast(ordered, i);
  }

  /** Nobody is given more than there is, a source is given something only if every strictly older, or
      newer, one is given all it has, and together they are given the amount or everything there is. */
  predicate SpentByAge(sources: seq<Source>, strategy: Strategy, amount: int, allocs: seq<Alloc>) {
    && (forall a <- sources :: 0 <= Given(allocs, a.balanceId) <= a.balance)
    && (forall a <- sources, b <- sources | Sooner(strategy, a, b) && Given(allocs, b.balanceId) > 0 ::
          Given(allocs, a.balanceId) == a.balance)
    && Sum(allocs) == Max(0, Min(amount, Total(sources)))
  }

  lemma {:induction false} SequentialGives(sources: seq<Source>, strategy: Strategy, ordered: seq<Source>, amount: int)
    requires Positive(sources) && DistinctIds(ordered) && SortedAs(sources, strategy, ordered)
    requires strategy != Proportional
    ensures Positive(ordered) && SpentByAge(sources, strategy, amount, Allocs(ordered, amount, strategy))
  {
    PermutedPositive(sources, ordered);
    TotalPermutes(ordered, sources);
    var allocs := Allocs(ordered, amount, strategy);
    forall a <- sources ensures 0 <= Given(allocs, a.balanceId) <= a.balance {
      var i := Whereabouts(sources, ordered, a);
      OrderedGives(ordered, amount, strategy, i);
    }
    forall a <- sources, b <- sources | Sooner(strategy, a, b) && Given(allocs, b.balanceId) > 0
      ensures Given(allocs, a.balanceId) == a.balance
    {
      var i := Whereabouts(sources, ordered, a);
      var j := Whereabouts(sources, ordered, b);
      OrderedGives(ordered, amount, strategy, i);
      OrderedGives(ordered, amount, strategy, j);
      AgeOrder(sources, strategy, ordered, amount, i, j);
    }
    SequentialCovers(ordered, amount);
    TotalNonNegative(ordered);
  }

  lemma {:induction false} TotalNonNegative(sources: seq<Source>)
    requires Positive(sources)
    ensures Total(sources) >= 0 && (sources == [] ==> Total(sources) == 0)
  {
    BeforeAtLeast(sources, |sources|);
  }

  lemma {:induction false} Whereabouts(sources: seq<Source>, ordered: seq<Source>, a: Source) returns (i: nat)
    requires multiset(ordered) == multiset(sources) && a in sources
    ensures i < |ordered| && ordered[i] == a
  {
    assert a in multiset(ordered);
    i :| 0 <= i < |ordered| && ordered[i] == a;
  }

  lemma {:induction false} Once(a: seq<Source>, p: nat)
    requires DistinctIds(a) && p < |a|
    ensures multiset(a)[a[p]] == 1
  {
    assert a == a[..p] + [a[p]] + a[p + 1..];
  }

  lemma {:induction false} Twice(b: seq<Source>, i: nat, j: nat)
    requires i < j < |b| && b[i] == b[j]
    ensures multiset(b)[b[i]] >= 2
  {
    assert b == b[..i] + [b[i]] + b[i + 1..j] + [b[j]] + b[j + 1..];
  }

  lemma {:induction false} StaysDistinct(a: seq<Source>, b: seq<Source>, i: nat, j: nat)
    requires multiset(a) == multiset(b) && DistinctIds(a) && i < j < |b|
    ensures b[i].balanceId != b[j].balanceId
  {
    assert b[i] in multiset(a) && b[j] in multiset(a);
    var p := Whereabouts(b, a, b[i]);
    var q := Whereabouts(b, a, b[j]);
    if p == q {
      Once(a, p);
      Twice(b, i, j);
      assert false;
    }
  }

  /** What a strategy gives, in whatever order the sort has left sources of one age. */
  lemma {:induction false} StrategyGives(sources: seq<Source>, ordered: seq<Source>, amount: int, strategy: Strategy)
    requires Positive(sources) && DistinctIds(sources) && SortedAs(sources, strategy, ordered)
    requires sources != [] && amount > 0
    ensures Positive(ordered)
    ensures
      var allocs := Allocs(ordered, amount, strategy);
      if strategy == Proportional then SharedOut(sources, amount, allocs)
      else SpentByAge(sources, strategy, amount, allocs)
  {
    if strategy == Proportional {
      ProportionalGives(sources, amount);
    } else {
      forall i, j | 0 <= i < j < |ordered| ensures ordered[i].balanceId != ordered[j].balanceId {
        StaysDistinct(sources, ordered, i, j);
      }
      SequentialGives(sources, strategy, ordered, amount);
    }
  }

  method ByStrategy(sources: seq<Source>, ordered: seq<Source>, amount: int, strategy: Strategy)
    returns (allocs: seq<Alloc>)
    requires Positive(sources) && Positive(ordered) && SortedAs(sources, strategy, ordered)
    ensures allocs == Allocs(ordered, amount, strategy)
  {
    if |sources| == 0 {
      assert |multiset(ordered)| == 0;
      return [];
    }
    match strategy
    case Proportional => allocs := ProportionalAllocation(sources, amount);
    case _ =>
      allocs := Sequential(ordered, amount);
      if amount <= 0 { NothingDrawn(ordered, amount, 0, |ordered|); }
  }

  /** One call: order the sources and allocate. `ordered` is what the library sort returned. */
  method Calculate(sources: seq<Source>, ordered: seq<Source>, amount: int, strategy: Strategy)
    returns (allocs: seq<Alloc>)
    requires Positive(sources) && Positive(ordered) && SortedAs(sources, strategy, ordered)
    ensures allocs == Allocs(ordered, amount, strategy)
    ensures DistinctIds(sources) && sources != [] && amount > 0 ==>
      if strategy == Proportional then SharedOut(sources, amount, allocs)
      else SpentByAge(sources, strategy, amount, allocs)
  {
    if DistinctIds(sources) && sources != [] && amount > 0 { StrategyGives(sources, ordered, amount, strategy); }
    allocs := ByStrategy(sources, ordered, amount, strategy);
  }
}
