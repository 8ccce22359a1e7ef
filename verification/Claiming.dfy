/** Concurrent workers claiming match groups (reconciliation.go:853-995). */
module Claiming {
  import opened Wrappers

  type Key = string

  /** A single transaction's goroutine: not started, working through its snapshot of keys, about
      to emit the members of the group it owns, or done. */
  datatype Worker =
    | Idle
    | Trying(keys: seq<Key>)
    | Owning(key: Key, emitted: nat)
    | Finished(owned: Option<Key>)

  /** What is put on the match channel: which single, which group, which member of it. */
  datatype Match = Match(single: nat, key: Key, member: nat)

  /** One batch of groups. `open` are the groups nobody has claimed. */
  datatype State = State(workers: seq<Worker>, open: set<Key>, matches: seq<Match>, unmatched: seq<nat>)

  /** The fixed part: the groups with their sizes, and which single fits which group. */
  datatype Batch = Batch(groups: map<Key, nat>, fits: set<(nat, Key)>)

  function Start(b: Batch, singles: nat): State {
    State(seq(singles, _ => Idle), b.groups.Keys, [], [])
  }

  /** One atomic action of worker w. `keys` is the order in which a snapshot happens to list the
      open groups. */
  function Step(b: Batch, s: State, w: nat, keys: seq<Key>): State {
    if w >= |s.workers| then s
    else match s.workers[w]
      case Idle =>
        if (set k | k in keys) == s.open then s.(workers := s.workers[w := Trying(keys)]) else s
      case Trying(left) =>
        if left == [] then s.(workers := s.workers[w := Finished(None)], unmatched := s.unmatched + [w])
        else if (w, left[0]) in b.fits && left[0] in s.open then
          s.(workers := s.workers[w := Owning(left[0], 0)], open := s.open - {left[0]})
        else s.(workers := s.workers[w := Trying(left[1..])])
      case Owning(key, emitted) =>
        if key in b.groups && emitted < b.groups[key] then
          s.(workers := s.workers[w := Owning(key, emitted + 1)], matches := s.matches + [Match(w, key, emitted)])
        else s.(workers := s.workers[w := Finished(Some(key))])
      case Finished(_) => s
  }

  datatype Action = Action(w: nat, keys: seq<Key>)

  function Run(b: Batch, s: State, actions: seq<Action>): State
    decreases |actions|
  {
    if actions == [] then s else Run(b, Step(b, s, actions[0].w, actions[0].keys), actions[1..])
  }

  // ---- the invariant ------------------------------------------------------------------------

  predicate Owns(w: Worker, key: Key) {
    (w.Owning? && w.key == key) || (w.Finished? && w.owned == Some(key))
  }

  /** How many members of its group a worker has emitted. */
  function Emitted(b: Batch, w: Worker): nat {
    match w
    case Owning(_, emitted) => emitted
    case Finished(Some(key)) => if key in b.groups then b.groups[key] else 0
    case _ => 0
  }

  function CountMatches(matches: seq<Match>, m: Match): nat {
    if matches == [] then 0
    else
      CountMatches(matches[..|matches| - 1], m) +
      if matches[|matches| - 1] == m then 1 else 0
  }

  function CountUnmatched(unmatched: seq<nat>, w: nat): nat {
    if unmatched == [] then 0
    else
      CountUnmatched(unmatched[..|unmatched| - 1], w) +
      if unmatched[|unmatched| - 1] == w then 1 else 0
  }

  /** A worker's state is within bounds: what it owns is a group it fits and that is no longer
      open, and it emits members in order. */
  predicate WorkerHolds(b: Batch, s: State, w: nat)
    requires w < |s.workers|
  {
    match s.workers[w]
    case Owning(key, emitted) => key in b.groups && key !in s.open && (w, key) in b.fits && emitted <= b.groups[key]
    case Finished(Some(key)) => key in b.groups && key !in s.open && (w, key) in b.fits
    case _ => true
  }

  /** Group members are emitted once, by the owner, in order; nothing else is emitted. */
  ghost predicate MatchesHold(b: Batch, s: State) {
    forall w: nat, key: Key, m: nat ::
      CountMatches(s.matches, Match(w, key, m)) ==
        if w < |s.workers| && Owns(s.workers[w], key) && m < Emitted(b, s.workers[w]) then 1 else 0
  }

  ghost predicate UnmatchedHolds(s: State) {
    forall w: nat :: CountUnmatched(s.unmatched, w) ==
      if w < |s.workers| && s.workers[w] == Finished(None) then 1 else 0
  }

  predicate OneOwner(s: State) {
    forall v, w | 0 <= v < w < |s.workers| :: forall key <- OwnedBy(s.workers[v]) :: !Owns(s.workers[w], key)
  }

  function OwnedBy(w: Worker): set<Key> {
    match w
    case Owning(key, _) => {key}
    case Finished(Some(key)) => {key}
    case _ => {}
  }

  /** Every group is open or owned. */
  predicate OpenOrOwned(b: Batch, s: State) {
    && s.open <= b.groups.Keys
    && forall key <- b.groups :: key in s.open || exists w | 0 <= w < |s.workers| :: Owns(s.workers[w], key)
  }

  ghost predicate Inv(b: Batch, s: State) {
    && (forall w | 0 <= w < |s.workers| :: WorkerHolds(b, s, w))
    && OneOwner(s) && OpenOrOwned(b, s) && MatchesHold(b, s) && UnmatchedHolds(s)
  }

  lemma {:induction false} StartHolds(b: Batch, singles: nat)
    ensures Inv(b, Start(b, singles))
  {
  }

  lemma {:induction false} OneMoreMatch(matches: seq<Match>, last: Match, m: Match)
    ensures CountMatches(matches + [last], m) == CountMatches(matches, m) + if last == m then 1 else 0
  {
    assert (matches + [last])[..|matches|] == matches;
  }

  lemma {:induction false} OneMoreUnmatched(unmatched: seq<nat>, last: nat, w: nat)
    ensures CountUnmatched(unmatched + [last], w) == CountUnmatched(unmatched, w) + if last == w then 1 else 0
  {
    assert (unmatched + [last])[..|unmatched|] == unmatched;
  }

  /** A step that changes neither who owns what nor what is open or emitted. */
  lemma {:induction false} QuietStep(b: Batch, s: State, after: State, w: nat)
    requires Inv(b, s) && w < |s.workers|
    requires |after.workers| == |s.workers| && after.workers == s.workers[w := after.workers[w]] && after.open == s.open
    requires OwnedBy(s.workers[w]) == OwnedBy(after.workers[w]) == {} && Emitted(b, after.workers[w]) == 0
    requires after.matches == s.matches
    requires s.workers[w] != Finished(None)
    requires after.unmatched == if after.workers[w] == Finished(None) then s.unmatched + [w] else s.unmatched
    ensures Inv(b, after)
  {
    forall v | 0 <= v < |after.workers| ensures WorkerHolds(b, after, v) { assert v != w ==> WorkerHolds(b, s, v); }
    forall v: nat, key: Key, m: nat
      ensures CountMatches(after.matches, Match(v, key, m)) ==
        if v < |after.workers| && Owns(after.workers[v], key) && m < Emitted(b, after.workers[v]) then 1 else 0
    {
      assert CountMatches(s.matches, Match(v, key, m)) ==
        if v < |s.workers| && Owns(s.workers[v], key) && m < Emitted(b, s.workers[v]) then 1 else 0;
    }
    forall v: nat
      ensures CountUnmatched(after.unmatched, v) ==
        if v < |after.workers| && after.workers[v] == Finished(None) then 1 else 0
    {
      OneMoreUnmatched(s.unmatched, w, v);
    }
    forall key <- b.groups
      ensures key in after.open || exists v | 0 <= v < |after.workers| :: Owns(after.workers[v], key)
    {
      if key !in s.open {
        var v :| 0 <= v < |s.workers| && Owns(s.workers[v], key);
        assert Owns(after.workers[v], key);
      }
    }
  }

  lemma {:induction false} ClaimStep(b: Batch, s: State, w: nat, key: Key)
    requires Inv(b, s) && w < |s.workers| && s.workers[w].Trying? && key in s.open && (w, key) in b.fits
    ensures Inv(b, s.(workers := s.workers[w := Owning(key, 0)], open := s.open - {key}))
  {
    var after := s.(workers := s.workers[w := Owning(key, 0)], open := s.open - {key});
    forall v | 0 <= v < |after.workers| ensures WorkerHolds(b, after, v) { assert v != w ==> WorkerHolds(b, s, v); }
    forall v | 0 <= v < |s.workers| ensures !Owns(s.workers[v], key) { assert WorkerHolds(b, s, v); }
    forall v: nat, k: Key, m: nat
      ensures CountMatches(after.matches, Match(v, k, m)) ==
        if v < |after.workers| && Owns(after.workers[v], k) && m < Emitted(b, after.workers[v]) then 1 else 0
    {
      assert CountMatches(s.matches, Match(v, k, m)) ==
        if v < |s.workers| && Owns(s.workers[v], k) && m < Emitted(b, s.workers[v]) then 1 else 0;
    }
    forall k <- b.groups
      ensures k in after.open || exists v | 0 <= v < |after.workers| :: Owns(after.workers[v], k)
    {
      if k == key {
        assert Owns(after.workers[w], k);
      } else if k !in s.open {
        var v :| 0 <= v < |s.workers| && Owns(s.workers[v], k);
        assert Owns(after.workers[v], k);
      }
    }
  }

  lemma {:induction false} EmittedMatches(b: Batch, s: State, after: State, w: nat, v: nat, k: Key, m: nat)
    requires MatchesHold(b, s) && w < |s.workers| && s.workers[w].Owning?
    requires after.workers == s.workers[w := Owning(s.workers[w].key, s.workers[w].emitted + 1)]
    requires after.matches == s.matches + [Match(w, s.workers[w].key, s.workers[w].emitted)]
    ensures CountMatches(after.matches, Match(v, k, m)) ==
      if v < |after.workers| && Owns(after.workers[v], k) && m < Emitted(b, after.workers[v]) then 1 else 0
  {
    OneMoreMatch(s.matches, Match(w, s.workers[w].key, s.workers[w].emitted), Match(v, k, m));
    assert CountMatches(s.matches, Match(v, k, m)) ==
      if v < |s.workers| && Owns(s.workers[v], k) && m < Emitted(b, s.workers[v]) then 1 else 0;
  }

  lemma {:induction false} EmitStep(b: Batch, s: State, w: nat)
    requires Inv(b, s) && w < |s.workers| && s.workers[w].Owning? && s.workers[w].key in b.groups
    requires s.workers[w].emitted < b.groups[s.workers[w].key]
    ensures Inv(b, s.(workers := s.workers[w := Owning(s.workers[w].key, s.workers[w].emitted + 1)],
                      matches := s.matches + [Match(w, s.workers[w].key, s.workers[w].emitted)]))
  {
    var key, n := s.workers[w].key, s.workers[w].emitted;
    var after := s.(workers := s.workers[w := Owning(key, n + 1)], matches := s.matches + [Match(w, key, n)]);
    forall v | 0 <= v < |after.workers| ensures WorkerHolds(b, after, v) { assert WorkerHolds(b, s, v); }
    forall v: nat, k: Key, m: nat
      ensures CountMatches(after.matches, Match(v, k, m)) ==
        if v < |after.workers| && Owns(after.workers[v], k) && m < Emitted(b, after.workers[v]) then 1 else 0
    {
      EmittedMatches(b, s, after, w, v, k, m);
    }
    SameOwners(b, s, after, w);
  }

  lemma {:induction false} FinishStep(b: Batch, s: State, w: nat)
    requires Inv(b, s) && w < |s.workers| && s.workers[w].Owning?
    requires !(s.workers[w].key in b.groups && s.workers[w].emitted < b.groups[s.workers[w].key])
    ensures Inv(b, s.(workers := s.workers[w := Finished(Some(s.workers[w].key))]))
  {
    var key := s.workers[w].key;
    var after := s.(workers := s.workers[w := Finished(Some(key))]);
    assert WorkerHolds(b, s, w);
    forall v | 0 <= v < |after.workers| ensures WorkerHolds(b, after, v) { assert WorkerHolds(b, s, v); }
    forall v: nat, k: Key, m: nat
      ensures CountMatches(after.matches, Match(v, k, m)) ==
        if v < |after.workers| && Owns(after.workers[v], k) && m < Emitted(b, after.workers[v]) then 1 else 0
    {
      assert CountMatches(s.matches, Match(v, k, m)) ==
        if v < |s.workers| && Owns(s.workers[v], k) && m < Emitted(b, s.workers[v]) then 1 else 0;
    }
    SameOwners(b, s, after, w);
  }

  lemma {:induction false} SameOwners(b: Batch, s: State, after: State, w: nat)
    requires Inv(b, s) && w < |s.workers| && |after.workers| == |s.workers|
    requires after.workers == s.workers[w := after.workers[w]]
    requires after.open == s.open && after.unmatched == s.unmatched
    requires s.workers[w].Owning? && OwnedBy(after.workers[w]) == OwnedBy(s.workers[w])
    ensures OneOwner(after) && OpenOrOwned(b, after) && UnmatchedHolds(after)
  {
    forall key <- b.groups
      ensures key in after.open || exists v | 0 <= v < |after.workers| :: Owns(after.workers[v], key)
    {
      if key !in s.open {
        var v :| 0 <= v < |s.workers| && Owns(s.workers[v], key);
        assert key in OwnedBy(s.workers[v]);
        assert Owns(after.workers[v], key);
      }
    }
    forall v: nat
      ensures CountUnmatched(after.unmatched, v) ==
        if v < |after.workers| && after.workers[v] == Finished(None) then 1 else 0
    {
      assert CountUnmatched(s.unmatched, v) == if v < |s.workers| && s.workers[v] == Finished(None) then 1 else 0;
    }
  }

  lemma {:induction false} StepHolds(b: Batch, s: State, w: nat, keys: seq<Key>)
    requires Inv(b, s)
    ensures Inv(b, Step(b, s, w, keys))
  {
    if w < |s.workers| {
      match s.workers[w]
      case Idle => if (set k | k in keys) == s.open { QuietStep(b, s, Step(b, s, w, keys), w); }
      case Trying(left) =>
        if left == [] {
          QuietStep(b, s, Step(b, s, w, keys), w);
        } else if (w, left[0]) in b.fits && left[0] in s.open {
          ClaimStep(b, s, w, left[0]);
        } else {
          QuietStep(b, s, Step(b, s, w, keys), w);
        }
      case Owning(key, emitted) =>
        if key in b.groups && emitted < b.groups[key] { EmitStep(b, s, w); } else { FinishStep(b, s, w); }
      case Finished(_) =>
    }
  }

  lemma {:induction false} RunHolds(b: Batch, s: State, actions: seq<Action>)
    requires Inv(b, s)
    ensures Inv(b, Run(b, s, actions))
    decreases |actions|
  {
    if actions != [] {
      StepHolds(b, s, actions[0].w, actions[0].keys);
      RunHolds(b, Step(b, s, actions[0].w, actions[0].keys), actions[1..]);
    }
  }

  predicate AllFinished(s: State) {
    forall w | 0 <= w < |s.workers| :: s.workers[w].Finished?
  }

  /** Once every worker is done, whatever the interleaving: each single either owns exactly one
      group, one that it fits and whose members it has emitted once each, or is reported unmatched
      once; and no group has two owners. */
  lemma {:induction false} EveryoneSettled(b: Batch, singles: nat, actions: seq<Action>, w: nat)
    requires AllFinished(Run(b, Start(b, singles), actions)) && w < |Run(b, Start(b, singles), actions).workers|
    ensures
      var s := Run(b, Start(b, singles), actions);
      var owned := s.workers[w].owned;
      && CountUnmatched(s.unmatched, w) == (if owned.None? then 1 else 0)
      && (forall key: Key, m: nat ::
            CountMatches(s.matches, Match(w, key, m)) ==
              if owned == Some(key) && key in b.groups && m < b.groups[key] then 1 else 0)
      && (owned.Some? ==> owned.value in b.groups && (w, owned.value) in b.fits)
      && (forall v | 0 <= v < |s.workers| && v != w :: s.workers[v].owned.Some? ==> s.workers[v].owned != owned)
  {
    StartHolds(b, singles);
    RunHolds(b, Start(b, singles), actions);
    var s := Run(b, Start(b, singles), actions);
    assert WorkerHolds(b, s, w);
    forall v | 0 <= v < |s.workers| && v != w && s.workers[v].owned.Some?
      ensures s.workers[v].owned != s.workers[w].owned
    {
      assert s.workers[v].owned.value in OwnedBy(s.workers[v]);
      if s.workers[w].owned.Some? { assert s.workers[w].owned.value in OwnedBy(s.workers[w]); }
    }
  }

  // ---- nothing is missed --------------------------------------------------------------------------

  /** A worker still has before it, or has found nobody to claim, every open group that fits. */
  predicate Thorough(b: Batch, s: State, w: nat)
    requires w < |s.workers|
  {
    match s.workers[w]
    case Trying(left) => forall key <- s.open :: (w, key) in b.fits ==> key in left
    case Finished(None) => forall key <- s.open :: (w, key) !in b.fits
    case _ => true
  }

  predicate AllThorough(b: Batch, s: State) {
    forall w | 0 <= w < |s.workers| :: Thorough(b, s, w)
  }

  lemma {:induction false} StepThorough(b: Batch, s: State, w: nat, keys: seq<Key>)
    requires AllThorough(b, s)
    ensures AllThorough(b, Step(b, s, w, keys))
  {
    var after := Step(b, s, w, keys);
    forall v | 0 <= v < |after.workers|
      ensures Thorough(b, after, v)
    {
      assert Thorough(b, s, v) && after.open <= s.open;
      if v == w && s.workers[w].Idle? && after.workers[w].Trying? {
        forall key <- after.open ensures key in keys { assert key in (set k | k in keys); }
      }
      if v == w && s.workers[w].Trying? && after.workers[w].Trying? {
        var left := s.workers[w].keys;
        assert left == [left[0]] + left[1..];
      }
    }
  }

  lemma {:induction false} RunThorough(b: Batch, s: State, actions: seq<Action>)
    requires AllThorough(b, s)
    ensures AllThorough(b, Run(b, s, actions))
    decreases |actions|
  {
    if actions != [] {
      StepThorough(b, s, actions[0].w, actions[0].keys);
      RunThorough(b, Step(b, s, actions[0].w, actions[0].keys), actions[1..]);
    }
  }

  /** Whatever the interleaving, a single that is reported unmatched fits none of the groups that
      are still open when everyone is done: every group it fits was claimed by someone else. */
  lemma {:induction false} NothingMissed(b: Batch, singles: nat, actions: seq<Action>, w: nat, key: Key)
    requires AllFinished(Run(b, Start(b, singles), actions)) && w < |Run(b, Start(b, singles), actions).workers|
    requires CountUnmatched(Run(b, Start(b, singles), actions).unmatched, w) > 0 && key in b.groups
    requires (w, key) in b.fits
    ensures
      var s := Run(b, Start(b, singles), actions);
      key !in s.open && exists v | 0 <= v < |s.workers| && v != w :: s.workers[v].owned == Some(key)
  {
    var s := Run(b, Start(b, singles), actions);
    EveryoneSettled(b, singles, actions, w);
    RunThorough(b, Start(b, singles), actions);
    assert Thorough(b, s, w);
    StartHolds(b, singles);
    RunHolds(b, Start(b, singles), actions);
    var v :| 0 <= v < |s.workers| && Owns(s.workers[v], key);
  }

  // ---- one goroutine, undisturbed ---------------------------------------------------------------

  function Members(w: nat, key: Key, n: nat): seq<Match> {
    if n == 0 then [] else Members(w, key, n - 1) + [Match(w, key, n - 1)]
  }

  /** The first key that fits and is still open. */
  function FirstFit(b: Batch, open: set<Key>, w: nat, keys: seq<Key>): (claim: Option<Key>)
    ensures claim.Some? ==> claim.value in open && (w, claim.value) in b.fits
    ensures claim.Some? ==>
      exists k | 0 <= k < |keys| ::
        keys[k] == claim.value && forall i | 0 <= i < k :: (w, keys[i]) !in b.fits || keys[i] !in open
    ensures claim.None? ==> forall k | 0 <= k < |keys| :: (w, keys[k]) !in b.fits || keys[k] !in open
  {
    if keys == [] then None
    else if (w, keys[0]) in b.fits && keys[0] in open then Some(keys[0])
    else FirstFit(b, open, w, keys[1..])
  }

  class Matcher {
    const batch: Batch
    var open: set<Key>
    var matches: seq<Match>
    var unmatched: seq<nat>

    constructor (batch: Batch)
      ensures this.batch == batch && open == batch.groups.Keys && matches == [] && unmatched == []
    {
      this.batch, open, matches, unmatched := batch, batch.groups.Keys, [], [];
    }

    /** Tries the keys in order; the first one that fits and is still open is claimed and its
        members are sent. */
    method MatchSingle(w: nat, keys: seq<Key>) returns (matched: bool)
      requires open <= batch.groups.Keys
      modifies this`open, this`matches
      ensures
        var claim := FirstFit(batch, old(open), w, keys);
        && matched == claim.Some?
        && open == old(open) - (if claim.Some? then {claim.value} else {})
        && matches == old(matches) + if claim.Some? then Members(w, claim.value, batch.groups[claim.value]) else []
    {
      for i := 0 to |keys|
        invariant open == old(open) && matches == old(matches)
        invariant FirstFit(batch, open, w, keys) == FirstFit(batch, open, w, keys[i..])
      {
        assert keys[i..][0] == keys[i] && keys[i..][1..] == keys[i + 1..];
        var key := keys[i];
        if (w, key) !in batch.fits { continue; }
        if key !in open { continue; }
        open := open - {key};
        for m := 0 to batch.groups[key]
          invariant open == old(open) - {key}
          invariant matches == old(matches) + Members(w, key, m)
        {
          matches := matches + [Match(w, key, m)];
        }
        return true;
      }
      return false;
    }

    method ProcessSingle(w: nat, keys: seq<Key>)
      requires open <= batch.groups.Keys
      modifies this
      ensures
        match FirstFit(batch, old(open), w, keys)
        case Some(key) =>
          open == old(open) - {key} && matches == old(matches) + Members(w, key, batch.groups[key])
            && unmatched == old(unmatched)
        case None =>
          open == old(open) && matches == old(matches) && unmatched == old(unmatched) + [w]
    {
      var matched := MatchSingle(w, keys);
      if !matched { unmatched := unmatched + [w]; }
    }
  }
}
