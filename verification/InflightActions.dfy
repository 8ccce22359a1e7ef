/** Committing or voiding every leg of an inflight parent from a queued task that may be
    retried any number of times (transaction_inflight.go:187-734, 837-861). */
module InflightActions {
  import opened Wrappers
  import opened Ledger
  import opened Storage
  import opened Execution
  import opened Inflight
  import Coalescing
  import opened Kernel

  datatype Action = CommitAction | VoidAction

  function Name(action: Action): string {
    match action
    case CommitAction => "commit"
    case VoidAction => "void"
  }

  /** The reference a leg's child is stored under; without an action id it is whatever random
      reference the attempt generated. */
  function LegReference(leg: Id, action: Action, actionId: string, random: string): string {
    if actionId == "" then random else leg + "_" + Name(action) + "_" + actionId
  }

  lemma {:induction false} LegReferenceInjective(a: Id, b: Id, x: Action, y: Action, actionId: string, r: string,
                                                 q: string)
    requires actionId != ""
    requires LegReference(a, x, actionId, r) == LegReference(b, y, actionId, q)
    ensures a == b && x == y
  {
    var s, t := LegReference(a, x, actionId, r), LegReference(b, y, actionId, q);
    assert |s| == |a| + |Name(x)| + |actionId| + 2 && |t| == |b| + |Name(y)| + |actionId| + 2;
    var k := |s| - |actionId| - 2;
    assert s[k] == Name(x)[|Name(x)| - 1] && t[k] == Name(y)[|Name(y)| - 1];
    assert a == s[..|a|] && b == t[..|b|];
  }

  /** What can go wrong around one leg that is not its own doing: nothing, a failure before
      anything is stored, or a failure reported although the child was stored. */
  datatype Fault = NoFault | FailsFirst | FailsAfter

  /** One leg's share of one attempt: the generated child id, random reference and clock, and
      the fault it meets. */
  datatype Try = Try(childId: Id, random: string, now: int, fault: Fault)

  function Act(store: Store, leg: Id, action: Action, amount: int, stamp: Stamp, checks: bool): Result<Store, Error> {
    match action
    case CommitAction => CommitLeg(store, leg, amount, stamp, checks)
    case VoidAction => VoidLeg(store, leg, stamp, checks)
  }

  function StampOf(leg: Id, action: Action, actionId: string, t: Try): Stamp {
    Stamp(t.childId, LegReference(leg, action, actionId, t.random), t.now)
  }

  function AfterLeg(store: Store, leg: Id, action: Action, amount: int, actionId: string, t: Try, checks: bool): Store {
    var r := Act(store, leg, action, amount, StampOf(leg, action, actionId, t), checks);
    if t.fault == FailsFirst || r.Err? then store else r.value
  }

  function LegResult(store: Store, leg: Id, action: Action, amount: int, actionId: string, t: Try,
                     checks: bool): Result<(), Error> {
    var r := Act(store, leg, action, amount, StampOf(leg, action, actionId, t), checks);
    if t.fault == FailsFirst then Err(Unavailable)
    else if r.Err? then Err(r.error)
    else if t.fault == FailsAfter then Err(Unavailable)
    else Ok(())
  }

  /** Errors after which a retry cannot succeed. */
  predicate Terminal(e: Error) {
    e in {DuplicateReference, AlreadyCommitted, AlreadyVoided, NotInflight, ExceedsOriginal, ExceedsRemaining}
  }

  predicate Benign(r: Result<(), Error>) {
    r.Ok? || Terminal(r.error)
  }

  function AfterLegs(store: Store, legs: seq<Txn>, action: Action, amount: int, actionId: string, tries: seq<Try>,
                     checks: bool): Store
    requires |tries| == |legs|
  {
    if legs == [] then store
    else
      var n := |legs| - 1;
      AfterLeg(AfterLegs(store, legs[..n], action, amount, actionId, tries[..n], checks), legs[n].id, action, amount,
        actionId, tries[n], checks)
  }

  /** Whether any leg failed with an error worth retrying. */
  predicate Retryable(store: Store, legs: seq<Txn>, action: Action, amount: int, actionId: string, tries: seq<Try>,
                      checks: bool)
    requires |tries| == |legs|
  {
    legs != [] &&
    var n := |legs| - 1;
    var before := AfterLegs(store, legs[..n], action, amount, actionId, tries[..n], checks);
    || Retryable(store, legs[..n], action, amount, actionId, tries[..n], checks)
    || !Benign(LegResult(before, legs[n].id, action, amount, actionId, tries[n], checks))
  }

  // ---- each leg gains at most one child per action -----------------------------------------

  /** What happens to the store over the life of one action: its attempts touch legs, in any
      order and any number of times, while everything else goes on. */
  datatype Happening = Touch(leg: Id, t: Try) | Elsewhere(step: Step)

  datatype Tally = Tally(store: Store, gained: map<Id, nat>)

  function Gained(tally: Tally, leg: Id): nat {
    if leg in tally.gained then tally.gained[leg] else 0
  }

  function Happen(tally: Tally, h: Happening, action: Action, amount: int, actionId: string, checks: bool): Tally {
    match h
    case Elsewhere(step) => tally.(store := Next(tally.store, step, checks))
    case Touch(leg, t) =>
      var after := AfterLeg(tally.store, leg, action, amount, actionId, t, checks);
      Tally(after, if |after.rows| > |tally.store.rows| then tally.gained[leg := Gained(tally, leg) + 1]
        else tally.gained)
  }

  function History(tally: Tally, hs: seq<Happening>, action: Action, amount: int, actionId: string, checks: bool): Tally
    decreases |hs|
  {
    if hs == [] then tally
    else History(Happen(tally, hs[0], action, amount, actionId, checks), hs[1..], action, amount, actionId, checks)
  }

  predicate GainsRecorded(tally: Tally, action: Action, actionId: string) {
    && UniqueReferences(tally.store.rows)
    && forall leg <- tally.gained ::
      tally.gained[leg] <= 1 && HasReference(tally.store.rows, LegReference(leg, action, actionId, ""))
  }

  lemma {:induction false} SingleGrows(store: Store, t: Txn, checks: bool)
    requires Single(store, t, checks).Ok? && UniqueReferences(store.rows)
    ensures
      var after := Single(store, t, checks).value;
      && UniqueReferences(after.rows)
      && (after.rows == store.rows
        || (after.rows == store.rows + [Finalized(t)] && !HasReference(store.rows, t.reference)))
  {
  }

  lemma {:induction false} NextGrows(store: Store, step: Step, checks: bool)
    requires UniqueReferences(store.rows)
    ensures UniqueReferences(Next(store, step, checks).rows) && store.rows <= Next(store, step, checks).rows
  {
    if Attempt(store, step, checks).Ok? {
      match step
      case Insert(_) =>
      case Record(t) => SingleGrows(store, t, checks);
      case CommitStep(id, amount, stamp) =>
        var t := FetchInflight(store.rows, id).value;
        SingleGrows(store, Child(t, Commit, CommitAmount(t, t.amount - Committed(store.rows, id), amount).value, stamp),
          checks);
      case VoidStep(id, stamp) =>
        var t := FetchInflight(store.rows, id).value;
        SingleGrows(store, Child(t, Void, t.amount - Committed(store.rows, id), stamp), checks);
      case Recompute(_) =>
    }
  }

  lemma {:induction false} AfterLegGrows(store: Store, leg: Id, action: Action, amount: int, actionId: string, t: Try,
                                         checks: bool)
    requires UniqueReferences(store.rows)
    ensures
      var after, reference :=
        AfterLeg(store, leg, action, amount, actionId, t, checks), LegReference(leg, action, actionId, t.random);
      && UniqueReferences(after.rows) && store.rows <= after.rows
      && (|after.rows| > |store.rows| ==> !HasReference(store.rows, reference) && HasReference(after.rows, reference))
  {
    var r := Act(store, leg, action, amount, StampOf(leg, action, actionId, t), checks);
    if r.Ok? {
      var row := FetchInflight(store.rows, leg).value;
      var left := row.amount - Committed(store.rows, leg);
      var child := if action.CommitAction? then
        Child(row, Commit, CommitAmount(row, left, amount).value, StampOf(leg, action, actionId, t))
                   else Child(row, Void, left, StampOf(leg, action, actionId, t));
      assert r == Single(store, child, checks);
      SingleGrows(store, child, checks);
      if |r.value.rows| > |store.rows| {
        assert r.value.rows[|store.rows|].reference == child.reference;
      }
    }
  }

  lemma {:induction false} ReferenceStays(rows: seq<Txn>, rows': seq<Txn>, reference: string)
    requires rows <= rows' && HasReference(rows, reference)
    ensures HasReference(rows', reference)
  {
    assert rows' == rows + rows'[|rows|..];
    ReferencesSplit(rows, rows'[|rows|..], reference);
  }

  /** For one action id, however often it is retried and whatever fails or happens in between,
      no leg gains more than one child from it. */
  lemma {:induction false} AtMostOneChildPerLeg(tally: Tally, hs: seq<Happening>, action: Action, amount: int,
                                                actionId: string, checks: bool)
    requires actionId != "" && GainsRecorded(tally, action, actionId)
    ensures GainsRecorded(History(tally, hs, action, amount, actionId, checks), action, actionId)
    decreases |hs|
  {
    if hs != [] {
      var next := Happen(tally, hs[0], action, amount, actionId, checks);
      match hs[0] {
        case Elsewhere(step) => NextGrows(tally.store, step, checks);
        case Touch(leg, t) =>
          AfterLegGrows(tally.store, leg, action, amount, actionId, t, checks);
          assert LegReference(leg, action, actionId, t.random) == LegReference(leg, action, actionId, "");
      }
      forall leg <- next.gained
        ensures next.gained[leg] <= 1 && HasReference(next.store.rows, LegReference(leg, action, actionId, ""))
      {
        if leg in tally.gained {
          ReferenceStays(tally.store.rows, next.store.rows, LegReference(leg, action, actionId, ""));
        }
      }
      AtMostOneChildPerLeg(next, hs[1..], action, amount, actionId, checks);
    }
  }

  /** Without an action id the reference is random, and an attempt whose failure was reported
      after its commit was stored takes the amount a second time when it is retried. */
  lemma {:induction false} EmptyActionIdRepeats(store: Store, k: nat, amount: int, first: Try, second: Try,
                                                checks: bool)
    requires Inv(store) && k < |store.rows| && store.rows[k].status == Inflight
    requires !IsVoided(store.rows, store.rows[k].id)
    requires 0 < amount && 2 * amount <= HoldOf(store.rows, store.rows[k])
    requires first.fault == FailsAfter && second.fault == NoFault
    requires Unused(store.rows, first.childId) && first.random != second.random
    requires !HasReference(store.rows, first.random) && !HasReference(store.rows, second.random)
    ensures
      var leg := store.rows[k].id;
      var hs := [Touch(leg, first), Touch(leg, second)];
      Gained(History(Tally(store, map[]), hs, CommitAction, amount, "", checks), leg) == 2
  {
    var t := store.rows[k];
    var stamp := StampOf(t.id, CommitAction, "", first);
    CommitSucceedsIff(store, k, amount, stamp, checks);
    CommitTakes(store, k, amount, stamp, checks);
    var after := AfterLeg(store, t.id, CommitAction, amount, "", first, checks);
    assert after == Next(store, CommitStep(t.id, amount, stamp), checks);
    StepKeeps(store, CommitStep(t.id, amount, stamp), checks);
    var child := Finalized(Child(t, Commit, amount, stamp));
    OneMore(store.rows, child, t.id);
    Coalescing.OneMoreReference(store.rows, child);
    assert after.rows[k] == t;
    CommitSucceedsIff(after, k, amount, StampOf(t.id, CommitAction, "", second), checks);
    CommitTakes(after, k, amount, StampOf(t.id, CommitAction, "", second), checks);
    var hs := [Touch(t.id, first), Touch(t.id, second)];
    assert hs[1..] == [hs[1]] && hs[1..][1..] == [];
    var one := Happen(Tally(store, map[]), hs[0], CommitAction, amount, "", checks);
    var two := Happen(one, hs[1], CommitAction, amount, "", checks);
    assert History(one, hs[1..], CommitAction, amount, "", checks) ==
      History(two, [], CommitAction, amount, "", checks);
  }

  // ---- what an attempt leaves behind --------------------------------------------------------

  predicate Open(rows: seq<Txn>, leg: Txn) {
    !IsVoided(rows, leg.id) && HoldOf(rows, leg) > 0
  }

  /** Nothing is left for this action to do to this leg: it has done its part, or the leg is
      finished, or the requested amount can no longer be taken. */
  predicate LegDone(rows: seq<Txn>, leg: Txn, action: Action, amount: int, reference: string) {
    HasReference(rows, reference) || !Open(rows, leg) || (action == CommitAction && amount > HoldOf(rows, leg))
  }

  lemma {:induction false} LegStaysDone(before: Store, after: Store, leg: Txn, action: Action, amount: int,
                                        reference: string)
    requires Inv(after) && before.rows <= after.rows
    requires LegDone(before.rows, leg, action, amount, reference)
    ensures LegDone(after.rows, leg, action, amount, reference)
  {
    var more := after.rows[|before.rows|..];
    assert after.rows == before.rows + more;
    forall i | 0 <= i < |more| && more[i].status == Applied ensures more[i].amount >= 0 {
      assert more[i] == after.rows[|before.rows| + i];
    }
    CommittedGrows(before.rows, more, leg.id);
    ReferencesSplit(before.rows, more, reference);
    if IsVoided(before.rows, leg.id) {
      var i :| 0 <= i < |before.rows| && before.rows[i].parent == leg.id && before.rows[i].status == Void;
      assert after.rows[i] == before.rows[i];
    }
  }

  predicate IsLeg(rows: seq<Txn>, leg: Txn) {
    leg in rows && leg.status == Inflight
  }

  function StepOf(leg: Txn, action: Action, amount: int, actionId: string, t: Try): Step {
    if action.CommitAction? then CommitStep(leg.id, amount, StampOf(leg.id, action, actionId, t))
    else VoidStep(leg.id, StampOf(leg.id, action, actionId, t))
  }

  lemma {:induction false} AfterLegIsStep(store: Store, leg: Txn, action: Action, amount: int, actionId: string, t: Try,
                                          checks: bool)
    requires IsLeg(store.rows, leg) && Unused(store.rows, t.childId)
    ensures WellFormed(store, StepOf(leg, action, amount, actionId, t))
    ensures
      var after := AfterLeg(store, leg.id, action, amount, actionId, t, checks);
      after == store || after == Next(store, StepOf(leg, action, amount, actionId, t), checks)
  {
  }

  lemma {:induction false} AfterLegKeeps(store: Store, leg: Txn, action: Action, amount: int, actionId: string, t: Try,
                                         checks: bool)
    requires Inv(store) && IsLeg(store.rows, leg) && Unused(store.rows, t.childId)
    ensures
      var after := AfterLeg(store, leg.id, action, amount, actionId, t, checks);
      && Inv(after) && store.rows <= after.rows
      && (after.rows == store.rows || exists c: Txn ::
        c.id == t.childId && c.parent == leg.id && after.rows == store.rows + [c])
  {
    var step := StepOf(leg, action, amount, actionId, t);
    AfterLegIsStep(store, leg, action, amount, actionId, t, checks);
    StepKeeps(store, step, checks);
    if Next(store, step, checks).rows != store.rows {
      var c := AppendedRow(store, step, checks);
    }
  }

  /** What the direct result of acting on one leg says about it. */
  predicate Verdict(store: Store, leg: Txn, action: Action, amount: int, reference: string, r: Result<Store, Error>) {
    && (r.Ok? ==> HasReference(r.value.rows, reference) && !(action == CommitAction && amount < 0))
    && (r.Err? && Terminal(r.error) ==> LegDone(store.rows, leg, action, amount, reference))
    && (r.Err? && !Terminal(r.error) <==> action == CommitAction && amount < 0 && Open(store.rows, leg))
  }

  lemma {:induction false} CommitVerdict(store: Store, k: nat, amount: int, stamp: Stamp, checks: bool)
    requires Inv(store) && k < |store.rows| && store.rows[k].status == Inflight
    ensures Verdict(store, store.rows[k], CommitAction, amount, stamp.reference,
                    CommitLeg(store, store.rows[k].id, amount, stamp, checks))
  {
    var t := store.rows[k];
    FindsIt(store.rows, k);
    CommittedNonNegative(store, t.id);
    CommitSucceedsIff(store, k, amount, stamp, checks);
    if CommitLeg(store, t.id, amount, stamp, checks).Ok? {
      CommitTakes(store, k, amount, stamp, checks);
      var c := Finalized(Child(t, Commit, if amount == 0 then HoldOf(store.rows, t) else amount, stamp));
      Coalescing.OneMoreReference(store.rows, c);
    } else if !IsVoided(store.rows, t.id) {
      HoldIsRemainder(store.rows, t);
      if amount >= 0 && Committable(store.rows, k, amount) {
        var child := Child(t, Commit, if amount == 0 then HoldOf(store.rows, t) else amount, stamp);
        TakenReference(store, child, checks);
      }
    }
  }

  lemma {:induction false} VoidVerdict(store: Store, k: nat, amount: int, stamp: Stamp, checks: bool)
    requires Inv(store) && k < |store.rows| && store.rows[k].status == Inflight
    ensures Verdict(store, store.rows[k], VoidAction, amount, stamp.reference,
                    VoidLeg(store, store.rows[k].id, stamp, checks))
  {
    var t := store.rows[k];
    FindsIt(store.rows, k);
    VoidSucceedsIff(store, k, stamp, checks);
    if !IsVoided(store.rows, t.id) {
      HoldIsRemainder(store.rows, t);
      var child := Child(t, Void, t.amount - Committed(store.rows, t.id), stamp);
      if VoidLeg(store, t.id, stamp, checks).Ok? {
        SingleAppends(store, child, checks);
        Coalescing.OneMoreReference(store.rows, Finalized(child));
      } else if HoldOf(store.rows, t) > 0 {
        TakenReference(store, child, checks);
      }
    }
  }

  lemma {:induction false} TakenReference(store: Store, t: Txn, checks: bool)
    requires HasReference(store.rows, t.reference)
    ensures Single(store, t, checks) == Err(DuplicateReference)
  {
  }

  /** One leg, exactly: what its result says about it afterwards. */
  lemma {:induction false} LegVerdict(store: Store, leg: Txn, action: Action, amount: int, actionId: string, t: Try,
                                      checks: bool)
    requires Inv(store) && IsLeg(store.rows, leg) && Unused(store.rows, t.childId)
    ensures
      var r := LegResult(store, leg.id, action, amount, actionId, t, checks);
      var after := AfterLeg(store, leg.id, action, amount, actionId, t, checks);
      && (Benign(r) ==> LegDone(after.rows, leg, action, amount, LegReference(leg.id, action, actionId, t.random)))
      && (t.fault == NoFault ==> (Benign(r) <==> !(action == CommitAction && amount < 0 && Open(store.rows, leg))))
      && (action == CommitAction && amount < 0 ==> after == store)
  {
    var k :| 0 <= k < |store.rows| && store.rows[k] == leg;
    var stamp := StampOf(leg.id, action, actionId, t);
    if action.CommitAction? {
      CommitVerdict(store, k, amount, stamp, checks);
    } else {
      VoidVerdict(store, k, amount, stamp, checks);
    }
  }

  predicate AllLegs(rows: seq<Txn>, legs: seq<Txn>) {
    forall i | 0 <= i < |legs| :: IsLeg(rows, legs[i])
  }

  predicate NewIds(rows: seq<Txn>, tries: seq<Try>) {
    && (forall i | 0 <= i < |tries| :: Unused(rows, tries[i].childId))
    && (forall i, j | 0 <= i < j < |tries| :: tries[i].childId != tries[j].childId)
  }

  predicate MadeBy(c: Txn, legs: seq<Txn>, tries: seq<Try>) {
    && (exists j | 0 <= j < |tries| :: c.id == tries[j].childId)
    && (exists j | 0 <= j < |legs| :: c.parent == legs[j].id)
  }

  /** The rows an attempt adds are children of its legs under its generated ids. */
  predicate Grown(rows: seq<Txn>, rows': seq<Txn>, legs: seq<Txn>, tries: seq<Try>) {
    rows <= rows' && forall i | |rows| <= i < |rows'| :: MadeBy(rows'[i], legs, tries)
  }

  lemma {:induction false} StillUnused(rows: seq<Txn>, rows': seq<Txn>, legs: seq<Txn>, tries: seq<Try>, n: nat)
    requires |tries| == |legs| && n < |legs| && AllLegs(rows, legs) && NewIds(rows, tries)
    requires Grown(rows, rows', legs[..n], tries[..n])
    ensures Unused(rows', tries[n].childId) && IsLeg(rows', legs[n])
  {
    forall i | 0 <= i < |rows'|
      ensures rows'[i].id != tries[n].childId && rows'[i].parent != tries[n].childId
    {
      if i >= |rows| {
        assert MadeBy(rows'[i], legs[..n], tries[..n]);
        var j :| 0 <= j < n && rows'[i].id == tries[..n][j].childId;
        var l :| 0 <= l < n && rows'[i].parent == legs[..n][l].id;
        assert IsLeg(rows, legs[l]);
      }
    }
    assert IsLeg(rows, legs[n]);
  }

  lemma {:induction false} MadeByMore(c: Txn, legs: seq<Txn>, tries: seq<Try>, n: nat)
    requires |tries| == |legs| && n < |legs|
    requires MadeBy(c, legs[..n], tries[..n]) || (c.id == tries[n].childId && c.parent == legs[n].id)
    ensures MadeBy(c, legs, tries)
  {
    if MadeBy(c, legs[..n], tries[..n]) {
      var j :| 0 <= j < n && c.id == tries[..n][j].childId;
      var l :| 0 <= l < n && c.parent == legs[..n][l].id;
      assert c.id == tries[j].childId && c.parent == legs[l].id;
    }
  }

  lemma {:induction false} LegsKeep(store: Store, legs: seq<Txn>, action: Action, amount: int, actionId: string,
                                    tries: seq<Try>, checks: bool)
    requires |tries| == |legs| && Inv(store) && AllLegs(store.rows, legs) && NewIds(store.rows, tries)
    ensures
      var after := AfterLegs(store, legs, action, amount, actionId, tries, checks);
      Inv(after) && Grown(store.rows, after.rows, legs, tries)
  {
    if legs != [] {
      var n := |legs| - 1;
      LegsKeep(store, legs[..n], action, amount, actionId, tries[..n], checks);
      var before := AfterLegs(store, legs[..n], action, amount, actionId, tries[..n], checks);
      var after := AfterLegs(store, legs, action, amount, actionId, tries, checks);
      StillUnused(store.rows, before.rows, legs, tries, n);
      AfterLegKeeps(before, legs[n], action, amount, actionId, tries[n], checks);
      forall i | |store.rows| <= i < |after.rows|
        ensures MadeBy(after.rows[i], legs, tries)
      {
        if i < |before.rows| { assert after.rows[i] == before.rows[i]; }
        MadeByMore(after.rows[i], legs, tries, n);
      }
    }
  }

  /** The store just before the last leg, and what holds of it there. */
  lemma {:induction false} LastLeg(store: Store, legs: seq<Txn>, action: Action, amount: int, actionId: string,
                                   tries: seq<Try>, checks: bool)
    returns (before: Store)
    requires |tries| == |legs| && legs != [] && Inv(store) && AllLegs(store.rows, legs) && NewIds(store.rows, tries)
    ensures before == AfterLegs(store, legs[..|legs| - 1], action, amount, actionId, tries[..|legs| - 1], checks)
    ensures Inv(before) && IsLeg(before.rows, legs[|legs| - 1]) && Unused(before.rows, tries[|legs| - 1].childId)
  {
    var n := |legs| - 1;
    before := AfterLegs(store, legs[..n], action, amount, actionId, tries[..n], checks);
    LegsKeep(store, legs[..n], action, amount, actionId, tries[..n], checks);
    StillUnused(store.rows, before.rows, legs, tries, n);
  }

  /** An attempt that does not ask to be retried leaves every leg with nothing more for this
      action to do. */
  lemma {:induction false} AttemptSettles(store: Store, legs: seq<Txn>, action: Action, amount: int, actionId: string,
                                          tries: seq<Try>, checks: bool, k: nat)
    requires |tries| == |legs| && Inv(store) && AllLegs(store.rows, legs) && NewIds(store.rows, tries)
    requires k < |legs| && !Retryable(store, legs, action, amount, actionId, tries, checks)
    ensures LegDone(AfterLegs(store, legs, action, amount, actionId, tries, checks).rows, legs[k], action, amount,
                    LegReference(legs[k].id, action, actionId, tries[k].random))
  {
    var n := |legs| - 1;
    var before := LastLeg(store, legs, action, amount, actionId, tries, checks);
    if k == n {
      LegVerdict(before, legs[n], action, amount, actionId, tries[n], checks);
    } else {
      AttemptSettles(store, legs[..n], action, amount, actionId, tries[..n], checks, k);
      AfterLegKeeps(before, legs[n], action, amount, actionId, tries[n], checks);
      var after := AfterLegs(store, legs, action, amount, actionId, tries, checks);
      LegStaysDone(before, after, legs[k], action, amount, LegReference(legs[k].id, action, actionId, tries[k].random));
    }
  }

  lemma {:induction false} LegTried(store: Store, leg: Txn, action: Action, amount: int, actionId: string, t: Try,
                                    checks: bool)
    requires Inv(store) && IsLeg(store.rows, leg) && Unused(store.rows, t.childId)
    requires t.fault != FailsFirst && (action == CommitAction ==> amount >= 0)
    ensures LegDone(AfterLeg(store, leg.id, action, amount, actionId, t, checks).rows, leg, action, amount,
                    LegReference(leg.id, action, actionId, t.random))
  {
    var k :| 0 <= k < |store.rows| && store.rows[k] == leg;
    var stamp := StampOf(leg.id, action, actionId, t);
    if action.CommitAction? {
      CommitVerdict(store, k, amount, stamp, checks);
    } else {
      VoidVerdict(store, k, amount, stamp, checks);
    }
  }

  /** No leg stands in the way of another: one that is reached without a fault of its own is done after
      the attempt, whatever happens to the legs before and after it. */
  lemma {:induction false} EachLegTried(store: Store, legs: seq<Txn>, action: Action, amount: int, actionId: string,
                                        tries: seq<Try>, checks: bool, k: nat)
    requires |tries| == |legs| && Inv(store) && AllLegs(store.rows, legs) && NewIds(store.rows, tries)
    requires k < |legs| && tries[k].fault != FailsFirst && (action == CommitAction ==> amount >= 0)
    ensures LegDone(AfterLegs(store, legs, action, amount, actionId, tries, checks).rows, legs[k], action, amount,
                    LegReference(legs[k].id, action, actionId, tries[k].random))
  {
    var n := |legs| - 1;
    var before := LastLeg(store, legs, action, amount, actionId, tries, checks);
    if k == n {
      LegTried(before, legs[n], action, amount, actionId, tries[n], checks);
    } else {
      EachLegTried(store, legs[..n], action, amount, actionId, tries[..n], checks, k);
      AfterLegKeeps(before, legs[n], action, amount, actionId, tries[n], checks);
      var after := AfterLegs(store, legs, action, amount, actionId, tries, checks);
      LegStaysDone(before, after, legs[k], action, amount, LegReference(legs[k].id, action, actionId, tries[k].random));
    }
  }

  predicate FaultFree(tries: seq<Try>) {
    forall i | 0 <= i < |tries| :: tries[i].fault == NoFault
  }

  predicate SomeOpen(rows: seq<Txn>, legs: seq<Txn>) {
    legs != [] && (SomeOpen(rows, legs[..|legs| - 1]) || Open(rows, legs[|legs| - 1]))
  }

  /** With no outside fault an attempt asks for a retry exactly when it commits a negative
      amount against a leg that still holds something; every retry then finds the same store. */
  lemma {:induction false} FaultFreeRetryIff(store: Store, legs: seq<Txn>, action: Action, amount: int,
                                             actionId: string, tries: seq<Try>, checks: bool)
    requires |tries| == |legs| && Inv(store) && AllLegs(store.rows, legs) && NewIds(store.rows, tries)
    requires FaultFree(tries)
    ensures Retryable(store, legs, action, amount, actionId, tries, checks) <==>
      action == CommitAction && amount < 0 && SomeOpen(store.rows, legs)
    ensures action == CommitAction && amount < 0 ==>
      AfterLegs(store, legs, action, amount, actionId, tries, checks) == store
  {
    if legs != [] {
      var n := |legs| - 1;
      FaultFreeRetryIff(store, legs[..n], action, amount, actionId, tries[..n], checks);
      var before := LastLeg(store, legs, action, amount, actionId, tries, checks);
      LegVerdict(before, legs[n], action, amount, actionId, tries[n], checks);
    }
  }

  // ---- the service --------------------------------------------------------------------------

  /** A transaction being turned into its own child, field by field. */
  class Draft {
    var txn: Txn

    constructor (txn: Txn)
      ensures this.txn == txn
    {
      this.txn := txn;
    }

    method UpdateAmount(amount: int, left: int)
      modifies this
      ensures txn == old(txn).(amount := if amount != 0 then amount else left)
    {
      if amount != 0 { txn := txn.(amount := amount); } else { txn := txn.(amount := left); }
    }

    method Finalize(status: Status, stamp: Stamp)
      modifies this
      ensures txn == Child(old(txn), status, old(txn).amount, stamp)
    {
      txn := txn.(status := status);
      txn := txn.(parent := txn.id);
      txn := txn.(createdAt := stamp.now, effectiveDate := Some(stamp.now), inflight := false);
      txn := txn.(id := stamp.id);
      txn := txn.(reference := stamp.reference);
    }
  }

  function Page(all: seq<Txn>, limit: nat, offset: nat): seq<Txn> {
    if offset >= |all| then [] else if offset + limit >= |all| then all[offset..] else all[offset..offset + limit]
  }

  class Service {
    const blnk: Coalescing.Blnk

    constructor (blnk: Coalescing.Blnk)
      ensures this.blnk == blnk
    {
      this.blnk := blnk;
    }

    method CommitWithRef(id: Id, amount: int, stamp: Stamp) returns (r: Result<(), Error>)
      modifies blnk.ds
      ensures Outcome(CommitLeg(old(blnk.ds.Snapshot()), id, amount, stamp, blnk.queuedChecks),
                      old(blnk.ds.Snapshot()), blnk.ds.Snapshot(), r)
    {
      var fetched := FetchInflight(blnk.ds.rows, id);
      if fetched.Err? { return Err(fetched.error); }
      var left := fetched.value.amount - Committed(blnk.ds.rows, id);
      var valid := CommitAmount(fetched.value, left, amount);
      if valid.Err? { return Err(valid.error); }
      FetchedId(blnk.ds.rows, id);
      var draft := new Draft(fetched.value);
      draft.UpdateAmount(amount, left);
      draft.Finalize(Commit, stamp);
      r := blnk.RecordTransactionSingle(draft.txn);
    }

    method VoidWithRef(id: Id, stamp: Stamp) returns (r: Result<(), Error>)
      modifies blnk.ds
      ensures Outcome(VoidLeg(old(blnk.ds.Snapshot()), id, stamp, blnk.queuedChecks),
                      old(blnk.ds.Snapshot()), blnk.ds.Snapshot(), r)
    {
      var fetched := FetchInflight(blnk.ds.rows, id);
      if fetched.Err? { return Err(fetched.error); }
      var left := fetched.value.amount - Committed(blnk.ds.rows, id);
      if left == 0 { return Err(AlreadyCommitted); }
      FetchedId(blnk.ds.rows, id);
      var draft := new Draft(fetched.value.(amount := left));
      draft.Finalize(Void, stamp);
      r := blnk.RecordTransactionSingle(draft.txn);
    }

    /** Pages through the legs; `matching` is what the query would return in full. */
    method CollectLegs(matching: seq<Txn>, configuredBatchSize: int) returns (legs: seq<Txn>)
      ensures legs == matching
    {
      var batchSize := if configuredBatchSize <= 0 then 100 else configuredBatchSize;
      legs := [];
      var offset := 0;
      while true
        invariant 0 <= offset
        invariant legs == if offset <= |matching| then matching[..offset] else matching
        decreases |matching| + batchSize - offset
      {
        var batch := Page(matching, batchSize, offset);
        legs := legs + batch;
        if |batch| < batchSize {
          return;
        }
        offset := offset + batchSize;
      }
    }

    method ApplyToLeg(leg: Id, action: Action, amount: int, actionId: string, t: Try) returns (r: Result<(), Error>)
      modifies blnk.ds
      ensures blnk.ds.Snapshot() ==
        AfterLeg(old(blnk.ds.Snapshot()), leg, action, amount, actionId, t, blnk.queuedChecks)
      ensures r == LegResult(old(blnk.ds.Snapshot()), leg, action, amount, actionId, t, blnk.queuedChecks)
    {
      if t.fault == FailsFirst { return Err(Unavailable); }
      var stamp := StampOf(leg, action, actionId, t);
      if action == VoidAction {
        r := VoidWithRef(leg, stamp);
      } else {
        r := CommitWithRef(leg, amount, stamp);
      }
      if r.Ok? {
        r := if t.fault == FailsAfter then Err(Unavailable) else Ok(());
      }
    }

    /** One attempt of the queued task; `fetchFails` is a failure to list the legs. */
    method RunByParent(matching: seq<Txn>, configuredBatchSize: int, fetchFails: bool, action: Action, amount: int,
                       actionId: string, tries: seq<Try>)
      returns (retryable: bool, r: Result<(), Error>)
      requires |tries| == |matching|
      modifies blnk.ds
      ensures fetchFails ==> retryable && blnk.ds.Snapshot() == old(blnk.ds.Snapshot())
      ensures !fetchFails ==>
        && retryable == Retryable(old(blnk.ds.Snapshot()), matching, action, amount, actionId, tries, blnk.queuedChecks)
        && blnk.ds.Snapshot() ==
          AfterLegs(old(blnk.ds.Snapshot()), matching, action, amount, actionId, tries, blnk.queuedChecks)
      ensures r.Err? <==> retryable
    {
      if fetchFails { return true, Err(Unavailable); }
      var legs := CollectLegs(matching, configuredBatchSize);
      ghost var store := blnk.ds.Snapshot();
      var last: Result<(), Error> := Ok(());
      for i := 0 to |legs|
        invariant blnk.ds.Snapshot() ==
          AfterLegs(store, legs[..i], action, amount, actionId, tries[..i], blnk.queuedChecks)
        invariant last.Err? <==> Retryable(store, legs[..i], action, amount, actionId, tries[..i], blnk.queuedChecks)
      {
        assert legs[..i + 1][..i] == legs[..i] && tries[..i + 1][..i] == tries[..i];
        var result := ApplyToLeg(legs[i].id, action, amount, actionId, tries[i]);
        if !Benign(result) { last := result; }
      }
      assert legs[..|legs|] == legs && tries[..|tries|] == tries;
      return last.Err?, last;
    }
  }

  lemma {:induction false} FetchedId(rows: seq<Txn>, id: Id)
    requires FetchInflight(rows, id).Ok?
    ensures FetchInflight(rows, id).value.id == id
  {
    var k := FoundAt(rows, id);
  }
}
