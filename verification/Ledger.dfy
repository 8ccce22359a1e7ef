/** Balances and the arithmetic a transaction performs on them
    (model/balance.go, model/model.go, transaction_execution.go). */
module Ledger {
  import opened Wrappers

  datatype Status = Queued | Scheduled | Applied | Inflight | Commit | Void | Rejected | Unset

  datatype Error =
    | DuplicateReference | EmptyReference | MixedCurrencies
    | BalanceNotFound | NonPositiveAmount | InsufficientFunds | OverdraftExceeded | InsufficientHold
    | ZeroAmount | VersionConflict
    | TransactionNotFound | NotInflight | AlreadyVoided | AlreadyCommitted
    | NegativeAmount | ExceedsOriginal | ExceedsRemaining | Unavailable

  /** A transaction, both as a request and as a stored row. `amount` is the precise
      amount in minor units. */
  datatype Txn = Txn(
    id: Id, parent: Id, source: Id, destination: Id, reference: string, currency: string,
    amount: int, status: Status, inflight: bool,
    allowOverdraft: bool, overdraftLimit: real, precision: real,
    createdAt: int, effectiveDate: Option<int>)

  /** The six stored amounts of a balance row. */
  datatype Amounts = Amounts(
    balance: int, credit: int, debit: int,
    inflight: int, inflightCredit: int, inflightDebit: int)
  {
    /** The two derived columns agree with the four they are derived from. */
    predicate Coherent() {
      balance == credit - debit && inflight == inflightCredit - inflightDebit
    }

    function Recomputed(hold: bool): Amounts {
      if hold then this.(inflight := inflightCredit - inflightDebit) else this.(balance := credit - debit)
    }

    function Debited(amount: int, hold: bool): Amounts {
      (if hold then this.(inflightDebit := inflightDebit + amount)
       else this.(debit := debit + amount)).Recomputed(hold)
    }

    function Credited(amount: int, hold: bool): Amounts {
      (if hold then this.(inflightCredit := inflightCredit + amount)
       else this.(credit := credit + amount)).Recomputed(hold)
    }

    function DebitReleased(amount: int): Amounts {
      this.(inflightDebit := inflightDebit - amount).Recomputed(true)
    }

    function CreditReleased(amount: int): Amounts {
      this.(inflightCredit := inflightCredit - amount).Recomputed(true)
    }

    function DebitCommitted(amount: int): Amounts {
      DebitReleased(amount).Debited(amount, false)
    }

    function CreditCommitted(amount: int): Amounts {
      CreditReleased(amount).Credited(amount, false)
    }
  }

  const ZeroAmounts := Amounts(0, 0, 0, 0, 0, 0)

  /** The overdraft limit in minor units, rounded half up. */
  function PreciseLimit(t: Txn): int {
    (t.overdraftLimit * t.precision + 0.5).Floor
  }

  /** `queued` is the queued debit of the source, 0 when queued checks are off. */
  function CanProcess(t: Txn, source: Amounts, queued: int): Result<(), Error> {
    if t.allowOverdraft && t.overdraftLimit == 0.0 then Ok(())
    else
      var available := source.balance - source.inflightDebit - queued;
      if available >= t.amount then Ok(())
      else if t.overdraftLimit > 0.0 then
        if available - t.amount >= -PreciseLimit(t) then Ok(()) else Err(OverdraftExceeded)
      else Err(InsufficientFunds)
  }

  function SourceSide(t: Txn, source: Amounts, queued: int): Result<Amounts, Error> {
    match t.status
    case Commit =>
      if source.inflightDebit < t.amount then Err(InsufficientHold) else Ok(source.DebitCommitted(t.amount))
    case Void =>
      if source.inflightDebit < t.amount then Err(InsufficientHold) else Ok(source.DebitReleased(t.amount))
    case _ =>
      if t.amount <= 0 then Err(NonPositiveAmount)
      else
        var _ :- CanProcess(t, source, queued);
        Ok(source.Debited(t.amount, t.inflight))
  }

  function DestinationSide(t: Txn, destination: Amounts): Result<Amounts, Error> {
    match t.status
    case Commit =>
      if destination.inflightCredit < t.amount then Err(InsufficientHold)
      else Ok(destination.CreditCommitted(t.amount))
    case Void =>
      if destination.inflightCredit < t.amount then Err(InsufficientHold)
      else Ok(destination.CreditReleased(t.amount))
    case _ => Ok(destination.Credited(t.amount, t.inflight))
  }

  /** The effect of one transaction on a set of balances held in memory; the source side
      is written before the destination is read, so a self-transfer sees its own debit. */
  function Post(balances: map<Id, Amounts>, t: Txn, queued: int): Result<map<Id, Amounts>, Error> {
    if t.source !in balances || t.destination !in balances then Err(BalanceNotFound)
    else
      var source :- SourceSide(t, balances[t.source], queued);
      var debited := balances[t.source := source];
      var destination :- DestinationSide(t, debited[t.destination]);
      Ok(debited[t.destination := destination])
  }

  /** The status a transaction is stored with. */
  function FinalStatus(status: Status, inflight: bool): Status {
    if inflight then Inflight
    else match status
      case Queued | Applied | Scheduled | Commit => Applied
      case Void => Void
      case _ => Unset
  }

  function Finalized(t: Txn): Txn {
    t.(status := FinalStatus(t.status, t.inflight))
  }

  lemma {:induction false} PostKeepsCoherence(balances: map<Id, Amounts>, t: Txn, queued: int)
    requires forall id <- balances :: balances[id].Coherent()
    requires Post(balances, t, queued).Ok?
    ensures forall id <- Post(balances, t, queued).value :: Post(balances, t, queued).value[id].Coherent()
  {
    var source := SourceSide(t, balances[t.source], queued).value;
    var debited := balances[t.source := source];
    assert source.Coherent();
    assert DestinationSide(t, debited[t.destination]).value.Coherent();
  }

  /** What a caller may rely on after a posting, side by side: only the two named balances
      move, and every unit that leaves one column of the source enters the same column of
      the destination. */
  lemma {:induction false} PostIsDoubleEntry(balances: map<Id, Amounts>, t: Txn, queued: int)
    requires t.source != t.destination
    requires Post(balances, t, queued).Ok?
    ensures
      var s, d := balances[t.source], balances[t.destination];
      var after := Post(balances, t, queued).value;
      && after.Keys == balances.Keys
      && (forall id <- balances :: id != t.source && id != t.destination ==> after[id] == balances[id])
      && after[t.source].debit - s.debit == after[t.destination].credit - d.credit
      && after[t.source].inflightDebit - s.inflightDebit == after[t.destination].inflightCredit - d.inflightCredit
      && after[t.source].credit == s.credit && after[t.destination].debit == d.debit
      && after[t.source].inflightCredit == s.inflightCredit && after[t.destination].inflightDebit == d.inflightDebit
  {
  }

  /** Storing a batch member finalizes it before and again after applying it. */
  lemma {:induction false} FinalizedTwice(t: Txn)
    ensures Finalized(Finalized(t)) == Finalized(t)
    ensures t.status == Queued ==>
      Finalized(t).status == (if t.inflight then Inflight else Applied)
  {
  }

  // ---- the in-memory balance object -------------------------------------------------

  class Balance {
    const id: Id
    var balance: int
    var credit: int
    var debit: int
    var inflight: int
    var inflightCredit: int
    var inflightDebit: int
    var queuedDebit: int
    var version: int

    constructor (id: Id, amounts: Amounts, queuedDebit: int, version: int)
      ensures this.id == id && View() == amounts && this.queuedDebit == queuedDebit && this.version == version
    {
      this.id := id;
      balance, credit, debit := amounts.balance, amounts.credit, amounts.debit;
      inflight, inflightCredit, inflightDebit := amounts.inflight, amounts.inflightCredit, amounts.inflightDebit;
      this.queuedDebit, this.version := queuedDebit, version;
    }

    function View(): Amounts
      reads this
    {
      Amounts(balance, credit, debit, inflight, inflightCredit, inflightDebit)
    }

    method AddCredit(amount: int, hold: bool)
      modifies this`inflightCredit, this`credit
      ensures View() == if hold then old(View()).(inflightCredit := old(inflightCredit) + amount)
                        else old(View()).(credit := old(credit) + amount)
    {
      if hold { inflightCredit := inflightCredit + amount; } else { credit := credit + amount; }
    }

    method AddDebit(amount: int, hold: bool)
      modifies this`inflightDebit, this`debit
      ensures View() == if hold then old(View()).(inflightDebit := old(inflightDebit) + amount)
                        else old(View()).(debit := old(debit) + amount)
    {
      if hold { inflightDebit := inflightDebit + amount; } else { debit := debit + amount; }
    }

    method ComputeBalance(hold: bool)
      modifies this`inflight, this`balance
      ensures View() == old(View()).Recomputed(hold)
    {
      if hold { inflight := inflightCredit - inflightDebit; } else { balance := credit - debit; }
    }

    method CommitInflightDebit(amount: int) returns (r: Result<(), Error>)
      modifies this`inflightDebit, this`debit, this`inflight, this`balance
      ensures r.Ok? <==> old(inflightDebit) >= amount
      ensures r.Ok? ==> View() == old(View()).DebitCommitted(amount)
      ensures r.Err? ==> r.error == InsufficientHold && View() == old(View())
    {
      if inflightDebit < amount { return Err(InsufficientHold); }
      inflightDebit := inflightDebit - amount;
      debit := debit + amount;
      ComputeBalance(true);
      ComputeBalance(false);
      return Ok(());
    }

    method CommitInflightCredit(amount: int) returns (r: Result<(), Error>)
      modifies this`inflightCredit, this`credit, this`inflight, this`balance
      ensures r.Ok? <==> old(inflightCredit) >= amount
      ensures r.Ok? ==> View() == old(View()).CreditCommitted(amount)
      ensures r.Err? ==> r.error == InsufficientHold && View() == old(View())
    {
      if inflightCredit < amount { return Err(InsufficientHold); }
      inflightCredit := inflightCredit - amount;
      credit := credit + amount;
      ComputeBalance(true);
      ComputeBalance(false);
      return Ok(());
    }

    method RollbackInflightDebit(amount: int) returns (r: Result<(), Error>)
      modifies this`inflightDebit, this`inflight, this`balance
      ensures r.Ok? <==> old(inflightDebit) >= amount
      ensures r.Ok? ==> View() == old(View()).DebitReleased(amount)
      ensures r.Err? ==> r.error == InsufficientHold && View() == old(View())
    {
      if inflightDebit < amount { return Err(InsufficientHold); }
      inflightDebit := inflightDebit - amount;
      ComputeBalance(true);
      return Ok(());
    }

    method RollbackInflightCredit(amount: int) returns (r: Result<(), Error>)
      modifies this`inflightCredit, this`inflight, this`balance
      ensures r.Ok? <==> old(inflightCredit) >= amount
      ensures r.Ok? ==> View() == old(View()).CreditReleased(amount)
      ensures r.Err? ==> r.error == InsufficientHold && View() == old(View())
    {
      if inflightCredit < amount { return Err(InsufficientHold); }
      inflightCredit := inflightCredit - amount;
      ComputeBalance(true);
      return Ok(());
    }
  }

  method UpdateBalances(t: Txn, source: Balance, destination: Balance) returns (r: Result<(), Error>)
    requires t.status != Commit && t.status != Void
    modifies source, destination
    ensures source.queuedDebit == old(source.queuedDebit) && source.version == old(source.version)
    ensures destination.queuedDebit == old(destination.queuedDebit) && destination.version == old(destination.version)
    ensures
      var side := SourceSide(t, old(source.View()), old(source.queuedDebit));
      if side.Err? then
        r == Err(side.error) && source.View() == old(source.View()) && destination.View() == old(destination.View())
      else
        && r.Ok?
        && (source != destination ==>
              source.View() == side.value && destination.View() == DestinationSide(t, old(destination.View())).value)
        && (source == destination ==> source.View() == DestinationSide(t, side.value).value)
  {
    if t.amount <= 0 { return Err(NonPositiveAmount); }
    var ok := CanProcess(t, source.View(), source.queuedDebit);
    if ok.Err? { return ok; }
    source.AddDebit(t.amount, t.inflight);
    source.ComputeBalance(t.inflight);
    destination.AddCredit(t.amount, t.inflight);
    destination.ComputeBalance(t.inflight);
    return Ok(());
  }

  /** Applies a transaction to its two balance objects, which are one object for a
      self-transfer. On an error the objects may be left half updated, as in the source;
      nothing is then stored. */
  method ApplyTransactionToBalances(t: Txn, source: Balance, destination: Balance) returns (r: Result<(), Error>)
    modifies source, destination
    ensures source.queuedDebit == old(source.queuedDebit) && source.version == old(source.version)
    ensures destination.queuedDebit == old(destination.queuedDebit) && destination.version == old(destination.version)
    ensures
      var side := SourceSide(t, old(source.View()), old(source.queuedDebit));
      if side.Err? then r == Err(side.error)
      else
        var other := DestinationSide(t, if source == destination then side.value else old(destination.View()));
        if other.Err? then r == Err(other.error)
        else r.Ok? && destination.View() == other.value && (source != destination ==> source.View() == side.value)
  {
    if t.status == Commit {
      r := source.CommitInflightDebit(t.amount);
      if r.Err? { return; }
      r := destination.CommitInflightCredit(t.amount);
      return;
    }
    if t.status == Void {
      r := source.RollbackInflightDebit(t.amount);
      if r.Err? { return; }
      r := destination.RollbackInflightCredit(t.amount);
      return;
    }
    r := UpdateBalances(t, source, destination);
  }
}
