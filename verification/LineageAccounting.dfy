/** What fund lineage keeps true of its shadow and aggregate balances
    (lineage_credit.go:146-174, lineage_debit.go:283-431). */
module LineageAccounting {
  import opened Wrappers
  import Ledger
  import opened Allocation

  /** The balances lineage keeps for an identity: one shadow a provider, one aggregate. */
  datatype Key = Shadow(provider: string, identity: string) | Aggregate(identity: string)

  type Book = map<Key, Ledger.Amounts>

  /** A balance that does not exist yet is created empty. */
  function At(book: Book, key: Key): Ledger.Amounts {
    if key in book then book[key] else Ledger.ZeroAmounts
  }

  /** A settled shadow transaction; only the credit and the receive may overdraw. */
  function Shadowing(amount: int, overdraft: bool): Ledger.Txn {
    Ledger.Txn("", "", "", "", "", "", amount, Ledger.Applied, false, overdraft, 0.0, 1.0, 0, None)
  }

  function Post(book: Book, source: Key, destination: Key, amount: int, overdraft: bool): Result<Book, Ledger.Error> {
    var t := Shadowing(amount, overdraft);
    var debited :- Ledger.SourceSide(t, At(book, source), 0);
    var after := book[source := debited];
    var credited :- Ledger.DestinationSide(t, At(after, destination));
    Ok(after[destination := credited])
  }

  /** Crediting a tracked balance from a provider. */
  function Credit(book: Book, identity: string, provider: string, amount: int): Result<Book, Ledger.Error> {
    Post(book, Shadow(provider, identity), Aggregate(identity), amount, true)
  }

  function ReleaseOf(book: Book, identity: string, provider: string, amount: int): Result<Book, Ledger.Error> {
    Post(book, Aggregate(identity), Shadow(provider, identity), amount, false)
  }

  function ReceiveOf(book: Book, identity: string, provider: string, amount: int): Result<Book, Ledger.Error> {
    Post(book, Shadow(provider, identity), Aggregate(identity), amount, true)
  }

  /** Posting the allocations of a debit. Each names its provider; a tracked destination
      receives what was released. */
  function Spend(book: Book, identity: string, dest: Option<string>, allocs: seq<Alloc>): Result<Book, Ledger.Error>
    decreases |allocs|
  {
    if allocs == [] then Ok(book)
    else
      var released :- ReleaseOf(book, identity, allocs[0].balanceId, allocs[0].amount);
      var received :- if dest.Some? then ReceiveOf(released, dest.value, allocs[0].balanceId, allocs[0].amount)
        else Ok(released);
      Spend(received, identity, dest, allocs[1..])
  }

  /** An attempt at a debit: providers released by earlier attempts are passed over, and it dies
      after `stop` postings. */
  function SpendUpTo(book: Book, identity: string, dest: Option<string>, allocs: seq<Alloc>, released: set<string>,
                     stop: nat)
    : Result<Book, Ledger.Error>
    decreases |allocs|
  {
    if allocs == [] || stop == 0 then Ok(book)
    else if allocs[0].balanceId in released then SpendUpTo(book, identity, dest, allocs[1..], released, stop)
    else
      var first :- ReleaseOf(book, identity, allocs[0].balanceId, allocs[0].amount);
      if stop == 1 then Ok(first)
      else
        var second :- if dest.Some? then ReceiveOf(first, dest.value, allocs[0].balanceId, allocs[0].amount)
          else Ok(first);
        SpendUpTo(second, identity, dest, allocs[1..], released, stop - 2)
  }

  // ---- the accounting invariant -----------------------------------------------------------

  function Availability(book: Book, identity: string, provider: string): int {
    At(book, Shadow(provider, identity)).debit - At(book, Shadow(provider, identity)).credit
  }

  function AggregateBalance(book: Book, identity: string): int {
    At(book, Aggregate(identity)).balance
  }

  function SumAvailable(book: Book, identity: string, providers: seq<string>): int {
    if providers == [] then 0
    else
      SumAvailable(book, identity, providers[..|providers| - 1]) +
      Availability(book, identity, providers[|providers| - 1])
  }

  predicate Balanced(book: Book, identity: string, providers: seq<string>) {
    && AggregateBalance(book, identity) == SumAvailable(book, identity, providers)
    && At(book, Aggregate(identity)).balance ==
      At(book, Aggregate(identity)).credit - At(book, Aggregate(identity)).debit
    && At(book, Aggregate(identity)).inflightDebit == 0
  }

  predicate Solvent(book: Book, identity: string, providers: seq<string>) {
    forall p <- providers :: Availability(book, identity, p) >= 0
  }

  /** Every identity's aggregate is the sum of its availabilities, none of them negative. */
  ghost predicate Accounted(book: Book, providers: seq<string>) {
    forall identity: string :: Balanced(book, identity, providers) && Solvent(book, identity, providers)
  }

  lemma {:induction false} SumMoves(before: Book, after: Book, identity: string, providers: seq<string>,
                                    provider: string, d: int)
    requires Distinct(providers)
    requires forall p <- providers ::
      Availability(after, identity, p) == Availability(before, identity, p) + if p == provider then d else 0
    ensures SumAvailable(after, identity, providers) ==
      SumAvailable(before, identity, providers) + if provider in providers then d else 0
  {
    if providers != [] {
      var n := |providers| - 1;
      assert providers == providers[..n] + [providers[n]];
      SumMoves(before, after, identity, providers[..n], provider, d);
    }
  }

  lemma {:induction false} SumAtLeast(book: Book, identity: string, providers: seq<string>, provider: string)
    requires Solvent(book, identity, providers)
    ensures SumAvailable(book, identity, providers) >= 0
    ensures provider in providers ==> Availability(book, identity, provider) <= SumAvailable(book, identity, providers)
  {
    if providers != [] {
      var n := |providers| - 1;
      assert providers == providers[..n] + [providers[n]];
      SumAtLeast(book, identity, providers[..n], provider);
      assert providers[n] in providers;
    }
  }

  /** What one lineage posting does: `d` moves onto a provider's availability and onto the
      aggregate, and nothing else changes. */
  ghost predicate Moves(before: Book, after: Book, identity: string, provider: string, d: int) {
    && (forall i: string, p: string ::
          Availability(after, i, p) == Availability(before, i, p) + if i == identity && p == provider then d else 0)
    && (forall i: string ::
          && AggregateBalance(after, i) == AggregateBalance(before, i) + (if i == identity then d else 0)
          && At(after, Aggregate(i)).balance - At(after, Aggregate(i)).credit + At(after, Aggregate(i)).debit
             == At(before, Aggregate(i)).balance - At(before, Aggregate(i)).credit + At(before, Aggregate(i)).debit
          && At(after, Aggregate(i)).inflightDebit == At(before, Aggregate(i)).inflightDebit)
  }

  lemma {:induction false} MovesKeep(before: Book, after: Book, identity: string, provider: string, d: int,
                                     providers: seq<string>)
    requires Distinct(providers) && provider in providers
    requires Accounted(before, providers) && Moves(before, after, identity, provider, d)
    requires Availability(before, identity, provider) + d >= 0
    ensures Accounted(after, providers)
  {
    forall i: string
      ensures Balanced(after, i, providers) && Solvent(after, i, providers)
    {
      assert Balanced(before, i, providers) && Solvent(before, i, providers);
      if i == identity {
        SumMoves(before, after, i, providers, provider, d);
      } else {
        SumMoves(before, after, i, providers, provider, 0);
      }
    }
  }

  /** Crediting and receiving always go through. */
  lemma {:induction false} CreditMoves(book: Book, identity: string, provider: string, amount: int,
                                       providers: seq<string>)
    requires Accounted(book, providers) && amount > 0
    ensures Credit(book, identity, provider, amount).Ok?
    ensures Moves(book, Credit(book, identity, provider, amount).value, identity, provider, amount)
  {
    assert Balanced(book, identity, providers);
  }

  /** A release of no more than a provider has available never finds the aggregate short, even
      though it may not overdraw it. */
  lemma {:induction false} ReleaseNeverOverdraws(book: Book, identity: string, provider: string, amount: int,
                                                 providers: seq<string>)
    requires Accounted(book, providers) && provider in providers
    requires 0 < amount <= Availability(book, identity, provider)
    ensures ReleaseOf(book, identity, provider, amount).Ok?
    ensures Moves(book, ReleaseOf(book, identity, provider, amount).value, identity, provider, -amount)
  {
    assert Balanced(book, identity, providers) && Solvent(book, identity, providers);
    SumAtLeast(book, identity, providers, provider);
  }

  // ---- debits -------------------------------------------------------------------------------

  function DrawnFrom(allocs: seq<Alloc>, provider: string): int {
    if allocs == [] then 0
    else DrawnFrom(allocs[1..], provider) + if allocs[0].balanceId == provider then allocs[0].amount else 0
  }

  /** One allocation a provider, none of them more than it has. */
  predicate Fits(book: Book, identity: string, allocs: seq<Alloc>, providers: seq<string>) {
    && (forall i, j | 0 <= i < j < |allocs| :: allocs[i].balanceId != allocs[j].balanceId)
    && (forall i | 0 <= i < |allocs| ::
          && allocs[i].balanceId in providers
          && 0 < allocs[i].amount <= Availability(book, identity, allocs[i].balanceId))
  }

  /** How a fully posted debit changes every availability: what was drawn leaves the spender
      and, when the destination is tracked, arrives there under the same provider. */
  ghost predicate Spent(before: Book, after: Book, identity: string, dest: Option<string>, allocs: seq<Alloc>) {
    forall i: string, p: string ::
      Availability(after, i, p) == Availability(before, i, p)
        - (if i == identity then DrawnFrom(allocs, p) else 0)
        + (if dest == Some(i) then DrawnFrom(allocs, p) else 0)
  }

  lemma {:induction false} SpendOne(book: Book, identity: string, dest: Option<string>, provider: string, amount: int,
                                    providers: seq<string>)
    returns (after: Book)
    requires Distinct(providers) && Accounted(book, providers) && provider in providers
    requires 0 < amount <= Availability(book, identity, provider)
    ensures ReleaseOf(book, identity, provider, amount).Ok?
    ensures Accounted(ReleaseOf(book, identity, provider, amount).value, providers)
    ensures
      var released := ReleaseOf(book, identity, provider, amount).value;
      (if dest.Some? then ReceiveOf(released, dest.value, provider, amount) else Ok(released)) == Ok(after)
    ensures Accounted(after, providers)
    ensures forall i: string, p: string ::
      Availability(after, i, p) == Availability(book, i, p)
        - (if i == identity && p == provider then amount else 0)
        + (if dest == Some(i) && p == provider then amount else 0)
  {
    ReleaseNeverOverdraws(book, identity, provider, amount, providers);
    after := ReleaseOf(book, identity, provider, amount).value;
    MovesKeep(book, after, identity, provider, -amount, providers);
    if dest.Some? {
      var released := after;
      CreditMoves(released, dest.value, provider, amount, providers);
      after := ReceiveOf(released, dest.value, provider, amount).value;
      assert Balanced(released, dest.value, providers) && Solvent(released, dest.value, providers);
      MovesKeep(released, after, dest.value, provider, amount, providers);
    }
  }

  lemma {:induction false} StillFits(book: Book, next: Book, identity: string, allocs: seq<Alloc>,
                                     providers: seq<string>)
    requires allocs != [] && Fits(book, identity, allocs, providers)
    requires forall p: string | p != allocs[0].balanceId ::
      Availability(next, identity, p) == Availability(book, identity, p)
    ensures Fits(next, identity, allocs[1..], providers)
  {
    var rest := allocs[1..];
    forall i | 0 <= i < |rest|
      ensures rest[i].balanceId in providers && 0 < rest[i].amount <= Availability(next, identity, rest[i].balanceId)
    {
      assert rest[i] == allocs[i + 1] && allocs[0].balanceId != allocs[i + 1].balanceId;
    }
  }

  /** An attempt never finds the aggregate short and keeps the books wherever it dies: each
      posting does on its own. */
  lemma {:induction false} SpendUpToKeeps(book: Book, identity: string, dest: Option<string>, allocs: seq<Alloc>,
                                          released: set<string>,
                                          stop: nat, providers: seq<string>)
    requires Distinct(providers) && Accounted(book, providers) && Fits(book, identity, allocs, providers)
    ensures SpendUpTo(book, identity, dest, allocs, released, stop).Ok?
    ensures Accounted(SpendUpTo(book, identity, dest, allocs, released, stop).value, providers)
    decreases |allocs|
  {
    if allocs != [] && stop != 0 {
      if allocs[0].balanceId in released {
        StillFits(book, book, identity, allocs, providers);
        SpendUpToKeeps(book, identity, dest, allocs[1..], released, stop, providers);
      } else {
        var next := SpendOne(book, identity, dest, allocs[0].balanceId, allocs[0].amount, providers);
        if stop > 1 {
          StillFits(book, next, identity, allocs, providers);
          SpendUpToKeeps(next, identity, dest, allocs[1..], released, stop - 2, providers);
        }
      }
    }
  }

  /** An attempt that neither dies nor finds anything released is the whole debit. */
  lemma {:induction false} UpToTheEnd(book: Book, identity: string, dest: Option<string>, allocs: seq<Alloc>, stop: nat)
    requires stop >= 2 * |allocs|
    ensures SpendUpTo(book, identity, dest, allocs, {}, stop) == Spend(book, identity, dest, allocs)
    decreases |allocs|
  {
    if allocs != [] {
      var first := ReleaseOf(book, identity, allocs[0].balanceId, allocs[0].amount);
      if first.Ok? {
        var second := if dest.Some? then ReceiveOf(first.value, dest.value, allocs[0].balanceId, allocs[0].amount)
          else first;
        if second.Ok? { UpToTheEnd(second.value, identity, dest, allocs[1..], stop - 2); }
      }
    }
  }

  /** A debit posts in full, keeps the books, and moves exactly what was drawn. */
  lemma {:induction false} SpendMoves(book: Book, identity: string, dest: Option<string>, allocs: seq<Alloc>,
                                      providers: seq<string>)
    requires Distinct(providers) && Accounted(book, providers) && Fits(book, identity, allocs, providers)
    ensures Spend(book, identity, dest, allocs).Ok?
    ensures Accounted(Spend(book, identity, dest, allocs).value, providers)
    ensures Spent(book, Spend(book, identity, dest, allocs).value, identity, dest, allocs)
    decreases |allocs|
  {
    if allocs != [] {
      var next := SpendOne(book, identity, dest, allocs[0].balanceId, allocs[0].amount, providers);
      StillFits(book, next, identity, allocs, providers);
      SpendMoves(next, identity, dest, allocs[1..], providers);
    }
  }

  // ---- the allocations of a strategy fit ------------------------------------------------------

  /** The sources of an allocation, one a provider, each with all it has available. */
  predicate Reads(book: Book, identity: string, ordered: seq<Source>, providers: seq<string>) {
    && (forall i, j | 0 <= i < j < |ordered| :: ordered[i].balanceId != ordered[j].balanceId)
    && (forall i | 0 <= i < |ordered| ::
          && ordered[i].balanceId in providers
          && ordered[i].balance == Availability(book, identity, ordered[i].balanceId) > 0)
  }

  /** Allocations taken from distinct positions, in order, each within its source. */
  predicate TakenFrom(allocs: seq<Alloc>, ordered: seq<Source>, k: nat)
    requires k <= |ordered|
    decreases k
  {
    if allocs == [] then true
    else
      k > 0 &&
      var last := allocs[|allocs| - 1];
      if last.balanceId == ordered[k - 1].balanceId && 0 < last.amount <= ordered[k - 1].balance
      then TakenFrom(allocs[..|allocs| - 1], ordered, k - 1)
      else TakenFrom(allocs, ordered, k - 1)
  }

  lemma {:induction false} TakenMore(allocs: seq<Alloc>, ordered: seq<Source>, k: nat)
    requires k < |ordered| && TakenFrom(allocs, ordered, k)
    requires forall i, j | 0 <= i < j < |ordered| :: ordered[i].balanceId != ordered[j].balanceId
    ensures TakenFrom(allocs, ordered, k + 1)
  {
    if allocs != [] {
      TakenIsThere(allocs, ordered, k, |allocs| - 1);
    }
  }

  lemma {:induction false} TakenIsThere(allocs: seq<Alloc>, ordered: seq<Source>, k: nat, i: nat)
    requires k <= |ordered| && TakenFrom(allocs, ordered, k) && i < |allocs|
    ensures exists j | 0 <= j < k ::
      allocs[i].balanceId == ordered[j].balanceId && 0 < allocs[i].amount <= ordered[j].balance
    decreases k
  {
    var last := allocs[|allocs| - 1];
    if last.balanceId == ordered[k - 1].balanceId && 0 < last.amount <= ordered[k - 1].balance {
      if i < |allocs| - 1 {
        TakenIsThere(allocs[..|allocs| - 1], ordered, k - 1, i);
      }
    } else {
      TakenIsThere(allocs, ordered, k - 1, i);
    }
  }

  lemma {:induction false} TakenDistinct(allocs: seq<Alloc>, ordered: seq<Source>, k: nat, i: nat, j: nat)
    requires k <= |ordered| && TakenFrom(allocs, ordered, k) && i < j < |allocs|
    requires forall i, j | 0 <= i < j < |ordered| :: ordered[i].balanceId != ordered[j].balanceId
    ensures allocs[i].balanceId != allocs[j].balanceId
    decreases k
  {
    var n := |allocs| - 1;
    var last := allocs[n];
    if last.balanceId == ordered[k - 1].balanceId && 0 < last.amount <= ordered[k - 1].balance {
      if j < n {
        TakenDistinct(allocs[..n], ordered, k - 1, i, j);
      } else {
        TakenIsThere(allocs[..n], ordered, k - 1, i);
      }
    } else {
      TakenDistinct(allocs, ordered, k - 1, i, j);
    }
  }

  lemma {:induction false} DrawsTaken(ordered: seq<Source>, amount: int, k: nat)
    requires k <= |ordered| && Positive(ordered)
    requires forall i, j | 0 <= i < j < |ordered| :: ordered[i].balanceId != ordered[j].balanceId
    ensures TakenFrom(Draws(ordered, amount, k), ordered, k)
  {
    if k > 0 {
      DrawsTaken(ordered, amount, k - 1);
      var rest, d := Draws(ordered, amount, k - 1), Drawn(ordered, amount, k - 1);
      if d > 0 {
        var allocs := rest + [Alloc(ordered[k - 1].balanceId, d)];
        assert allocs[..|rest|] == rest;
      } else {
        assert rest + [] == rest;
        TakenMore(rest, ordered, k - 1);
      }
    }
  }

  lemma {:induction false} PortionsTaken(ordered: seq<Source>, effective: int, total: int, k: nat)
    requires k <= |ordered| && total > 0
    requires forall i, j | 0 <= i < j < |ordered| :: ordered[i].balanceId != ordered[j].balanceId
    requires forall i | 0 <= i < |ordered| :: Portion(ordered, effective, total, i) <= ordered[i].balance
    ensures TakenFrom(Portions(ordered, effective, total, k), ordered, k)
  {
    if k > 0 {
      PortionsTaken(ordered, effective, total, k - 1);
      var rest, p := Portions(ordered, effective, total, k - 1), Portion(ordered, effective, total, k - 1);
      if p > 0 {
        var allocs := rest + [Alloc(ordered[k - 1].balanceId, p)];
        assert allocs[..|rest|] == rest;
      } else {
        assert rest + [] == rest;
        TakenMore(rest, ordered, k - 1);
      }
    }
  }

  lemma {:induction false} AllocsTaken(ordered: seq<Source>, amount: int, strategy: Strategy)
    requires Positive(ordered)
    requires forall i, j | 0 <= i < j < |ordered| :: ordered[i].balanceId != ordered[j].balanceId
    ensures TakenFrom(Allocs(ordered, amount, strategy), ordered, |ordered|)
  {
    if ordered != [] && amount > 0 {
      if strategy == Proportional {
        ProportionalBounds(ordered, amount);
        PortionsTaken(ordered, Min(amount, Total(ordered)), Total(ordered), |ordered|);
      } else {
        DrawsTaken(ordered, amount, |ordered|);
      }
    }
  }

  /** Whatever the strategy, what it hands out fits what is available. */
  lemma {:induction false} AllocsFit(book: Book, identity: string, ordered: seq<Source>, amount: int,
                                     strategy: Strategy, providers: seq<string>)
    requires Reads(book, identity, ordered, providers) && Positive(ordered)
    ensures Fits(book, identity, Allocs(ordered, amount, strategy), providers)
  {
    var allocs := Allocs(ordered, amount, strategy);
    AllocsTaken(ordered, amount, strategy);
    if allocs != [] {
      forall i | 0 <= i < |allocs|
        ensures allocs[i].balanceId in providers
          && 0 < allocs[i].amount <= Availability(book, identity, allocs[i].balanceId)
      {
        TakenIsThere(allocs, ordered, |ordered|, i);
      }
      forall i, j | 0 <= i < j < |allocs|
        ensures allocs[i].balanceId != allocs[j].balanceId
      {
        TakenDistinct(allocs, ordered, |ordered|, i, j);
      }
    }
  }

  // ---- runs -----------------------------------------------------------------------------------

  /** A debit event is one attempt: what is left to debit, the sources as they are then, the
      providers already released, and where it dies. */
  datatype Event =
    | CreditEvent(identity: string, provider: string, amount: int)
    | DebitEvent(identity: string, dest: Option<string>, ordered: seq<Source>, amount: int, strategy: Strategy,
                 released: set<string>, stop: nat)

  predicate Proper(book: Book, e: Event, providers: seq<string>) {
    match e
    case CreditEvent(_, provider, amount) => provider in providers && amount > 0
    case DebitEvent(identity, _, ordered, _, _, _, _) => Reads(book, identity, ordered, providers) && Positive(ordered)
  }

  function Next(book: Book, e: Event): Result<Book, Ledger.Error>
    requires e.DebitEvent? ==> Positive(e.ordered)
  {
    match e
    case CreditEvent(identity, provider, amount) => Credit(book, identity, provider, amount)
    case DebitEvent(identity, dest, ordered, amount, strategy, released, stop) =>
      SpendUpTo(book, identity, dest, Allocs(ordered, amount, strategy), released, stop)
  }

  predicate ProperRun(book: Book, events: seq<Event>, providers: seq<string>)
    decreases |events|
  {
    events == [] ||
    (Proper(book, events[0], providers)
      && (Next(book, events[0]).Ok? ==> ProperRun(Next(book, events[0]).value, events[1..], providers)))
  }

  /** A run stops at the first posting that is refused. */
  function Run(book: Book, events: seq<Event>, providers: seq<string>): Result<Book, Ledger.Error>
    requires ProperRun(book, events, providers)
    decreases |events|
  {
    if events == [] then Ok(book)
    else
      var next := Next(book, events[0]);
      if next.Err? then next else Run(next.value, events[1..], providers)
  }

  lemma {:induction false} EventKeeps(book: Book, e: Event, providers: seq<string>)
    requires Distinct(providers) && Accounted(book, providers) && Proper(book, e, providers)
    ensures Next(book, e).Ok? && Accounted(Next(book, e).value, providers)
  {
    match e
    case CreditEvent(identity, provider, amount) =>
      CreditMoves(book, identity, provider, amount, providers);
      assert Solvent(book, identity, providers) by { assert Balanced(book, identity, providers); }
      MovesKeep(book, Next(book, e).value, identity, provider, amount, providers);
    case DebitEvent(identity, dest, ordered, amount, strategy, released, stop) =>
      AllocsFit(book, identity, ordered, amount, strategy, providers);
      SpendUpToKeeps(book, identity, dest, Allocs(ordered, amount, strategy), released, stop, providers);
  }

  /** Over any run of credits and attempts at debits, with any strategy, wherever the attempts
      die and however they are retried, no posting is ever refused and every aggregate stays the sum of its identity's
      non-negative availabilities. */
  lemma {:induction false} RunStaysAccounted(book: Book, events: seq<Event>, providers: seq<string>)
    requires Distinct(providers) && Accounted(book, providers) && ProperRun(book, events, providers)
    ensures Run(book, events, providers).Ok? && Accounted(Run(book, events, providers).value, providers)
    decreases |events|
  {
    if events != [] {
      EventKeeps(book, events[0], providers);
      RunStaysAccounted(Next(book, events[0]).value, events[1..], providers);
    }
  }

  lemma {:induction false} EmptyIsAccounted(providers: seq<string>)
    ensures Accounted(map[], providers)
  {
    forall identity: string
      ensures Balanced(map[], identity, providers)
    {
      EmptySum(identity, providers);
    }
  }

  lemma {:induction false} EmptySum(identity: string, providers: seq<string>)
    ensures SumAvailable(map[], identity, providers) == 0
  {
    if providers != [] {
      EmptySum(identity, providers[..|providers| - 1]);
    }
  }

  // ---- conservation ---------------------------------------------------------------------------

  function HeldBy(book: Book, identities: seq<string>, provider: string): int {
    if identities == [] then 0
    else
      HeldBy(book, identities[..|identities| - 1], provider) +
      Availability(book, identities[|identities| - 1], provider)
  }

  lemma {:induction false} HeldMoves(before: Book, after: Book, identity: string, dest: Option<string>,
                                     allocs: seq<Alloc>,
                                     identities: seq<string>, provider: string)
    requires Distinct(identities) && Spent(before, after, identity, dest, allocs)
    ensures HeldBy(after, identities, provider) == HeldBy(before, identities, provider)
      - (if identity in identities then DrawnFrom(allocs, provider) else 0)
      + (if dest.Some? && dest.value in identities then DrawnFrom(allocs, provider) else 0)
  {
    if identities != [] {
      var n := |identities| - 1;
      assert identities == identities[..n] + [identities[n]];
      HeldMoves(before, after, identity, dest, allocs, identities[..n], provider);
    }
  }

  /** Between tracked balances a debit moves funds but conserves, provider by provider, what all
      identities together have available; to an untracked destination it loses exactly what was
      drawn. */
  lemma {:induction false} DebitConserves(book: Book, identity: string, dest: Option<string>, ordered: seq<Source>,
                                          amount: int,
                                          strategy: Strategy, providers: seq<string>, identities: seq<string>,
                                            provider: string)
    requires Distinct(providers) && Accounted(book, providers) && Reads(book, identity, ordered, providers)
    requires Positive(ordered)
    requires Distinct(identities) && identity in identities && (dest.Some? ==> dest.value in identities)
    ensures
      var allocs := Allocs(ordered, amount, strategy);
      var r := Spend(book, identity, dest, allocs);
      && r.Ok?
      && HeldBy(r.value, identities, provider) ==
           HeldBy(book, identities, provider) - if dest.Some? then 0 else DrawnFrom(allocs, provider)
  {
    var allocs := Allocs(ordered, amount, strategy);
    AllocsFit(book, identity, ordered, amount, strategy, providers);
    SpendMoves(book, identity, dest, allocs, providers);
    HeldMoves(book, Spend(book, identity, dest, allocs).value, identity, dest, allocs, identities, provider);
  }
}
