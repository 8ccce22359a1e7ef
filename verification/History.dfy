/** A balance as it stood at some time, from a snapshot and the transactions since
    (database/balance.go:1428-1644). */
module History {
  import opened Wrappers
  import opened Ledger
  import opened Storage
  import opened Inflight
  import Coalescing
  import Kernel

  datatype Snapshot = Snapshot(balanceId: Id, time: int, credit: int, debit: int)

  /** The zero time, where a replay from genesis starts. */
  const ZeroTime := 0

  function Effective(t: Txn): int {
    if t.effectiveDate.Some? then t.effectiveDate.value else t.createdAt
  }

  predicate Counts(t: Txn, id: Id, debit: bool, after: int, until: int) {
    t.status == Applied && End(t, debit) == id && after < Effective(t) <= until
  }

  /** What was applied to one side of a balance after one time and up to another. */
  function Window(rows: seq<Txn>, id: Id, debit: bool, after: int, until: int): int {
    if rows == [] then 0
    else
      Window(rows[..|rows| - 1], id, debit, after, until) +
      if Counts(rows[|rows| - 1], id, debit, after, until) then rows[|rows| - 1].amount else 0
  }

  /** The most recent snapshot of a balance that is not later than the target. */
  function Latest(snapshots: seq<Snapshot>, id: Id, target: int): Option<Snapshot> {
    if snapshots == [] then None
    else
      var best, last := Latest(snapshots[..|snapshots| - 1], id, target), snapshots[|snapshots| - 1];
      if last.balanceId == id && last.time <= target && (best.None? || best.value.time < last.time) then Some(last)
        else best
  }

  datatype Totals = Totals(credit: int, debit: int)

  function Replay(rows: seq<Txn>, id: Id, after: int, until: int): Totals {
    Totals(Window(rows, id, false, after, until), Window(rows, id, true, after, until))
  }

  /** The answer, from the snapshot if there is one and the replay since. */
  function AtTime(rows: seq<Txn>, snapshots: seq<Snapshot>, id: Id, target: int, fromSource: bool): Totals {
    match if fromSource then None else Latest(snapshots, id, target)
    case None => Replay(rows, id, ZeroTime, target)
    case Some(s) =>
      var since := Replay(rows, id, s.time, target);
      Totals(s.credit + since.credit, s.debit + since.debit)
  }

  /** A snapshot that agrees with a replay through its own time. */
  predicate Accurate(rows: seq<Txn>, s: Snapshot) {
    Replay(rows, s.balanceId, ZeroTime, s.time) == Totals(s.credit, s.debit)
  }

  lemma {:induction false} WindowSplits(rows: seq<Txn>, id: Id, debit: bool, a: int, b: int, c: int)
    requires a <= b <= c
    ensures Window(rows, id, debit, a, c) == Window(rows, id, debit, a, b) + Window(rows, id, debit, b, c)
  {
    if rows != [] {
      WindowSplits(rows[..|rows| - 1], id, debit, a, b, c);
    }
  }

  lemma {:induction false} LatestIsEarlier(snapshots: seq<Snapshot>, id: Id, target: int)
    requires Latest(snapshots, id, target).Some?
    ensures
      var s := Latest(snapshots, id, target).value;
      s in snapshots && s.balanceId == id && s.time <= target
      && forall o <- snapshots :: o.balanceId == id && o.time <= target ==> o.time <= s.time
  {
    var n := |snapshots| - 1;
    assert snapshots == snapshots[..n] + [snapshots[n]];
    if Latest(snapshots[..n], id, target).Some? {
      LatestIsEarlier(snapshots[..n], id, target);
    } else {
      NoneIsEarlier(snapshots[..n], id, target);
    }
  }

  lemma {:induction false} NoneIsEarlier(snapshots: seq<Snapshot>, id: Id, target: int)
    requires Latest(snapshots, id, target).None?
    ensures forall o <- snapshots :: o.balanceId == id ==> o.time > target
  {
    if snapshots != [] {
      var n := |snapshots| - 1;
      assert snapshots == snapshots[..n] + [snapshots[n]];
      NoneIsEarlier(snapshots[..n], id, target);
    }
  }

  predicate Timed(snapshots: seq<Snapshot>) {
    forall s <- snapshots :: s.time >= ZeroTime
  }

  /** The answer is the genesis replay exactly when the snapshot it starts from, if any, is
      accurate. */
  lemma {:induction false} AtTimeIff(rows: seq<Txn>, snapshots: seq<Snapshot>, id: Id, target: int)
    requires Timed(snapshots)
    ensures AtTime(rows, snapshots, id, target, false) == AtTime(rows, snapshots, id, target, true) <==>
      (Latest(snapshots, id, target).Some? ==> Accurate(rows, Latest(snapshots, id, target).value))
  {
    if Latest(snapshots, id, target).Some? {
      LatestIsEarlier(snapshots, id, target);
      var s := Latest(snapshots, id, target).value;
      WindowSplits(rows, id, false, ZeroTime, s.time, target);
      WindowSplits(rows, id, true, ZeroTime, s.time, target);
    }
  }

  /** With accurate snapshots it does not matter which of them exist. */
  lemma {:induction false} SnapshotsIrrelevant(rows: seq<Txn>, a: seq<Snapshot>, b: seq<Snapshot>, id: Id, target: int)
    requires Timed(a) && Timed(b)
    requires (forall s <- a :: Accurate(rows, s)) && (forall s <- b :: Accurate(rows, s))
    ensures AtTime(rows, a, id, target, false) == AtTime(rows, b, id, target, false) ==
      Replay(rows, id, ZeroTime, target)
  {
    AtTimeIff(rows, a, id, target);
    AtTimeIff(rows, b, id, target);
    if Latest(a, id, target).Some? { LatestIsEarlier(a, id, target); }
    if Latest(b, id, target).Some? { LatestIsEarlier(b, id, target); }
  }

  // ---- what one row changes -----------------------------------------------------------------------

  /** When a row takes effect: on the date it carries, or when it was created if it carries none. */
  predicate TakesEffectAt(t: Txn, time: int) {
    t.effectiveDate == Some(time) || (t.effectiveDate == None && t.createdAt == time)
  }

  /** One more applied row changes the past balances of its two ends from the time it takes effect,
      by its amount, and nothing else; any other row changes none. */
  lemma {:induction false} OneRowChanges(rows: seq<Txn>, t: Txn, time: int, id: Id, target: int)
    requires TakesEffectAt(t, time)
    ensures
      var before, after := AtTime(rows, [], id, target, true), AtTime(rows + [t], [], id, target, true);
      var moved := if t.status == Applied && ZeroTime < time <= target then t.amount else 0;
      && after.credit == before.credit + (if id == t.destination then moved else 0)
      && after.debit == before.debit + (if id == t.source then moved else 0)
  {
    assert (rows + [t])[..|rows|] == rows;
  }

  /** So the genesis balance of an end changes exactly when the row is effective by then. */
  lemma {:induction false} EffectiveIff(rows: seq<Txn>, t: Txn, time: int, id: Id, target: int)
    requires TakesEffectAt(t, time) && t.status == Applied && t.amount > 0 && t.source != t.destination
    requires id == t.source || id == t.destination
    ensures AtTime(rows + [t], [], id, target, true) != AtTime(rows, [], id, target, true) <==>
      ZeroTime < time <= target
  {
    OneRowChanges(rows, t, time, id, target);
  }

  // ---- where accuracy comes from, and how it is lost --------------------------------------------

  /** Every applied row of a balance is effective after the zero time and up to the given one. */
  ghost predicate AllWithin(rows: seq<Txn>, id: Id, until: int) {
    forall i, time: int | 0 <= i < |rows| && TakesEffectAt(rows[i], time) ::
      rows[i].status == Applied && (rows[i].source == id || rows[i].destination == id) ==> ZeroTime < time <= until
  }

  lemma {:induction false} WindowAtMost(rows: seq<Txn>, id: Id, debit: bool, until: int)
    requires forall i | 0 <= i < |rows| :: rows[i].status == Applied ==> rows[i].amount > 0
    ensures Window(rows, id, debit, ZeroTime, until) <= Moved(rows, Applied, id, debit)
    ensures Window(rows, id, debit, ZeroTime, until) == Moved(rows, Applied, id, debit) <==>
      forall i | 0 <= i < |rows| :: rows[i].status == Applied && End(rows[i], debit) == id ==>
        ZeroTime < Effective(rows[i]) <= until
  {
    if rows != [] {
      var n := |rows| - 1;
      WindowAtMost(rows[..n], id, debit, until);
      assert forall i | 0 <= i < n :: rows[..n][i] == rows[i];
    }
  }

  /** A snapshot copied from the stored balance of a reachable ledger is accurate exactly when
      nothing applied to that balance is effective after the snapshot and no settlement has
      rolled it. */
  lemma {:induction false} StoredSnapshotAccurateIff(store: Store, id: Id, time: int)
    requires Kernel.Inv(store) && id in store.balances
    ensures
      var a := store.balances[id].amounts;
      Accurate(store.rows, Snapshot(id, time, a.credit, a.debit)) <==>
        AllWithin(store.rows, id, time) && Kernel.NoRollOn(store.rows, id)
  {
    var a, rows := store.balances[id].amounts, store.rows;
    assert Kernel.Replays(a, rows, id);
    assert Kernel.SideOf(a, true) == Settled(rows, id, true) && Kernel.SideOf(a, false) == Settled(rows, id, false);
    Kernel.AppliedReplaysIff(store, id);
    Kernel.MovedNothingIff(rows, Unset, id, true);
    Kernel.MovedNothingIff(rows, Unset, id, false);
    WindowAtMost(rows, id, true, time);
    WindowAtMost(rows, id, false, time);
    forall i | 0 <= i < |rows|
      ensures TakesEffectAt(rows[i], Effective(rows[i]))
      ensures (End(rows[i], true) == id || End(rows[i], false) == id) <==>
        (rows[i].source == id || rows[i].destination == id)
    {
    }
  }

  /** An accurate snapshot survives a later row exactly when that row is not an applied one,
      dated back to the snapshot or earlier, of the same balance. */
  lemma {:induction false} BackdatedRowBreaksSnapshot(rows: seq<Txn>, s: Snapshot, t: Txn, time: int)
    requires Accurate(rows, s) && t.amount > 0 && TakesEffectAt(t, time)
    ensures Accurate(rows + [t], s) <==>
      !(t.status == Applied && (t.source == s.balanceId || t.destination == s.balanceId)
        && ZeroTime < time <= s.time)
  {
    assert (rows + [t])[..|rows|] == rows;
  }

  // ---- copies that have lost their date -----------------------------------------------------------

  predicate Within(time: int, after: int, until: int) {
    after < time <= until
  }

  /** The row an original ends up as when its own queue copy is run. */
  function OwnOutcome(t: Txn, copyId: Id): Txn {
    Finalized(Coalescing.QueueCopy(t, copyId))
  }

  /** The row it ends up as when a batch or a recovery has read it back first. */
  function ReloadedOutcome(t: Txn, copyId: Id): Txn {
    Finalized(Coalescing.QueueCopy(Coalescing.Reloaded(t), copyId))
  }

  lemma {:induction false} OneMoreReplayed(rows: seq<Txn>, t: Txn, id: Id, after: int, until: int)
    ensures
      var before, now := Replay(rows, id, after, until), Replay(rows + [t], id, after, until);
      && now.credit == before.credit + (if Counts(t, id, false, after, until) then t.amount else 0)
      && now.debit == before.debit + (if Counts(t, id, true, after, until) then t.amount else 0)
  {
    assert (rows + [t])[..|rows|] == rows;
  }

  /** The date an original carries is lost when it is read back. Over one window a balance reads the
      same either way exactly when the window holds both that date and the creation time or
      neither, or the row does not count there at all. */
  lemma {:induction false} ReloadedReadsAlikeIff(rows: seq<Txn>, t: Txn, copyId: Id, date: int, id: Id, after: int,
                                                 until: int)
    requires t.status == Queued && t.amount > 0 && t.effectiveDate == Some(date)
    ensures
      Replay(rows + [OwnOutcome(t, copyId)], id, after, until) ==
        Replay(rows + [ReloadedOutcome(t, copyId)], id, after, until) <==>
        t.inflight || (id != t.source && id != t.destination) ||
        (Within(date, after, until) <==> Within(t.createdAt, after, until))
  {
    OneMoreReplayed(rows, OwnOutcome(t, copyId), id, after, until);
    OneMoreReplayed(rows, ReloadedOutcome(t, copyId), id, after, until);
    assert Counts(OwnOutcome(t, copyId), id, true, after, until) <==>
      !t.inflight && id == t.source && Within(date, after, until);
    assert Counts(OwnOutcome(t, copyId), id, false, after, until) <==>
      !t.inflight && id == t.destination && Within(date, after, until);
    assert Counts(ReloadedOutcome(t, copyId), id, true, after, until) <==>
      !t.inflight && id == t.source && Within(t.createdAt, after, until);
    assert Counts(ReloadedOutcome(t, copyId), id, false, after, until) <==>
      !t.inflight && id == t.destination && Within(t.createdAt, after, until);
  }

  /** A date the reloaded copy does not lose: none, the creation time itself, or one that like the
      creation time is not after the zero time. */
  predicate DateSurvives(t: Txn) {
    t.inflight || t.effectiveDate == None || t.effectiveDate == Some(t.createdAt) ||
    (t.effectiveDate.value <= ZeroTime && t.createdAt <= ZeroTime)
  }

  /** A balance at every past time reads the same either way exactly when the original was not
      dated back or forward. */
  lemma {:induction false} ReloadedHistoryAlikeIff(rows: seq<Txn>, t: Txn, copyId: Id)
    requires t.status == Queued && t.amount > 0
    ensures
      (forall id: Id, target: int ::
         Replay(rows + [OwnOutcome(t, copyId)], id, ZeroTime, target) ==
         Replay(rows + [ReloadedOutcome(t, copyId)], id, ZeroTime, target))
      <==> DateSurvives(t)
  {
    if t.effectiveDate == None {
      forall id: Id, target: int
        ensures Replay(rows + [OwnOutcome(t, copyId)], id, ZeroTime, target) ==
          Replay(rows + [ReloadedOutcome(t, copyId)], id, ZeroTime, target)
      {
        OneMoreReplayed(rows, OwnOutcome(t, copyId), id, ZeroTime, target);
        OneMoreReplayed(rows, ReloadedOutcome(t, copyId), id, ZeroTime, target);
      }
    } else {
      var e, c := t.effectiveDate.value, t.createdAt;
      forall id: Id, target: int
        ensures
          Replay(rows + [OwnOutcome(t, copyId)], id, ZeroTime, target) ==
            Replay(rows + [ReloadedOutcome(t, copyId)], id, ZeroTime, target) <==>
            t.inflight || (id != t.source && id != t.destination) ||
            (Within(e, ZeroTime, target) <==> Within(c, ZeroTime, target))
      {
        ReloadedReadsAlikeIff(rows, t, copyId, e, id, ZeroTime, target);
      }
      if !DateSurvives(t) {
        var target := if e <= ZeroTime then c else if c <= ZeroTime then e else Min(e, c);
        assert !(Within(e, ZeroTime, target) <==> Within(c, ZeroTime, target));
        assert Replay(rows + [OwnOutcome(t, copyId)], t.source, ZeroTime, target)
            != Replay(rows + [ReloadedOutcome(t, copyId)], t.source, ZeroTime, target);
      }
    }
  }

  // ---- the query --------------------------------------------------------------------------------

  method GetMostRecentSnapshot(snapshots: seq<Snapshot>, id: Id, target: int) returns (s: Option<Snapshot>)
    ensures s == Latest(snapshots, id, target)
  {
    s := None;
    for i := 0 to |snapshots|
      invariant s == Latest(snapshots[..i], id, target)
    {
      assert snapshots[..i + 1][..i] == snapshots[..i];
      var o := snapshots[i];
      if o.balanceId == id && o.time <= target && (s.None? || s.value.time < o.time) { s := Some(o); }
    }
    assert snapshots[..|snapshots|] == snapshots;
  }

  method CalculateFromTransactions(rows: seq<Txn>, id: Id, start: int, target: int, initialCredit: int,
                                   initialDebit: int)
    returns (credit: int, debit: int)
    ensures Totals(credit, debit) ==
      Totals(initialCredit + Replay(rows, id, start, target).credit,
        initialDebit + Replay(rows, id, start, target).debit)
  {
    credit, debit := initialCredit, initialDebit;
    for i := 0 to |rows|
      invariant credit == initialCredit + Window(rows[..i], id, false, start, target)
      invariant debit == initialDebit + Window(rows[..i], id, true, start, target)
    {
      assert rows[..i + 1][..i] == rows[..i];
      var t := rows[i];
      if t.status == Applied && start < Effective(t) <= target {
        if t.source == id { debit := debit + t.amount; }
        if t.destination == id { credit := credit + t.amount; }
      }
    }
    assert rows[..|rows|] == rows;
  }

  method GetBalanceAtTime(rows: seq<Txn>, snapshots: seq<Snapshot>, id: Id, target: int, fromSource: bool)
    returns (balance: int, credit: int, debit: int)
    ensures Totals(credit, debit) == AtTime(rows, snapshots, id, target, fromSource)
    ensures balance == credit - debit
  {
    var start := ZeroTime;
    credit, debit := 0, 0;
    if !fromSource {
      var s := GetMostRecentSnapshot(snapshots, id, target);
      if s.Some? { credit, debit, start := s.value.credit, s.value.debit, s.value.time; }
    }
    credit, debit := CalculateFromTransactions(rows, id, start, target, credit, debit);
    balance := credit - debit;
  }
}
