/** One lineage debit under crashes and retries: which releases end up posted
    (lineage_debit.go:31-268). */
module LineageDebit {
  import opened Wrappers
  import opened Allocation

  /** Where a provider's funds are held for the spending identity. Mappings of one balance
      have distinct providers and distinct shadow balances and are read oldest first. */
  datatype Mapping = Mapping(provider: string, shadowId: Id, createdAt: int)

  datatype Release = Release(provider: string, amount: int)

  /** The destination as an attempt sees it: each provider's shadow there, if it tracks lineage
      and its shadows could be prepared for this attempt. */
  datatype Destination = Untracked | Tracked(shadows: map<string, Id>)

  /** What is available on each shadow balance (debit minus credit), and the releases and
      receives already posted for this transaction; their references are keyed by provider. */
  datatype Book = Book(available: map<Id, int>, releases: seq<Release>, receives: seq<Release>)

  function Available(available: map<Id, int>, id: Id): int {
    if id in available then available[id] else 0
  }

  predicate Has(releases: seq<Release>, provider: string) {
    releases != [] && (releases[|releases| - 1].provider == provider || Has(releases[..|releases| - 1], provider))
  }

  function Lookup(releases: seq<Release>, provider: string): int {
    if releases == [] then 0
    else if releases[|releases| - 1].provider == provider then releases[|releases| - 1].amount
    else Lookup(releases[..|releases| - 1], provider)
  }

  function Total(releases: seq<Release>): int {
    if releases == [] then 0 else Total(releases[..|releases| - 1]) + releases[|releases| - 1].amount
  }

  /** The sources the allocation works on: every mapped shadow with something available. */
  function SourcesOf(mappings: seq<Mapping>, available: map<Id, int>): seq<Source> {
    if mappings == [] then []
    else
      var m := mappings[|mappings| - 1];
      SourcesOf(mappings[..|mappings| - 1], available) +
      if Available(available, m.shadowId) > 0 then [Source(m.shadowId, Available(available, m.shadowId), m.createdAt)]
        else []
  }

  predicate Supplies(m: Mapping, available: map<Id, int>) {
    m.shadowId in available && available[m.shadowId] > 0
  }

  /** Which mappings supply a source: exactly those whose shadow has something available, each once, in
      order, with all that is available there. */
  lemma {:induction false} SourcesArePicked(mappings: seq<Mapping>, available: map<Id, int>) returns (picks: seq<nat>)
    ensures |picks| == |SourcesOf(mappings, available)|
    ensures forall k | 0 <= k < |picks| :: picks[k] < |mappings| && Supplies(mappings[picks[k]], available)
    ensures forall k | 0 <= k < |picks| ::
      var m := mappings[picks[k]];
      && m.shadowId in available
      && SourcesOf(mappings, available)[k] == Source(m.shadowId, available[m.shadowId], m.createdAt)
    ensures forall k, l | 0 <= k < l < |picks| :: picks[k] < picks[l]
    ensures forall i | 0 <= i < |mappings| && Supplies(mappings[i], available) :: i in picks
  {
    picks := [];
    if mappings != [] {
      var n := |mappings| - 1;
      picks := SourcesArePicked(mappings[..n], available);
      if Supplies(mappings[n], available) { picks := picks + [n]; }
    }
  }

  lemma {:induction false} SourcesPositive(mappings: seq<Mapping>, available: map<Id, int>)
    ensures Positive(SourcesOf(mappings, available))
  {
    if mappings != [] {
      SourcesPositive(mappings[..|mappings| - 1], available);
    }
  }

  /** What earlier attempts have already released, over the mapped providers. */
  function Released(releases: seq<Release>, mappings: seq<Mapping>): int {
    if mappings == [] then 0
    else Released(releases, mappings[..|mappings| - 1]) + Lookup(releases, mappings[|mappings| - 1].provider)
  }

  function Find(mappings: seq<Mapping>, shadowId: Id): Option<Mapping> {
    if mappings == [] then None
    else if mappings[0].shadowId == shadowId then Some(mappings[0])
    else Find(mappings[1..], shadowId)
  }

  function PostRelease(b: Book, m: Mapping, amount: int): Book {
    b.(available := b.available[m.shadowId := Available(b.available, m.shadowId) - amount],
       releases := b.releases + [Release(m.provider, amount)])
  }

  predicate AllFound(mappings: seq<Mapping>, found: map<string, Id>) {
    forall i | 0 <= i < |mappings| :: mappings[i].provider in found
  }

  function Shadows(mappings: seq<Mapping>, found: map<string, Id>): map<string, Id>
    requires AllFound(mappings, found)
  {
    if mappings == [] then map[]
    else
      var p := mappings[|mappings| - 1].provider;
      Shadows(mappings[..|mappings| - 1], found)[p := found[p]]
  }

  /** Each provider's shadow at the destination as looked up or created before the locks are
      taken, `found` being the lookups that succeed. The first that fails ends the preparation,
      and the attempt goes on without a destination. */
  function Prepared(tracked: bool, mappings: seq<Mapping>, found: map<string, Id>): Destination {
    if tracked && AllFound(mappings, found) then Tracked(Shadows(mappings, found)) else Untracked
  }

  predicate Reaches(dest: Destination, provider: string) {
    dest.Tracked? && provider in dest.shadows
  }

  function PostReceive(b: Book, m: Mapping, amount: int, dest: Destination): Book {
    if Reaches(dest, m.provider) then
      var shadow := dest.shadows[m.provider];
      b.(available := b.available[shadow := Available(b.available, shadow) + amount],
         receives := b.receives + [Release(m.provider, amount)])
    else b
  }

  /** Working through the allocations; the attempt dies after `stop` postings. */
  function Processed(b: Book, allocs: seq<Alloc>, mappings: seq<Mapping>, dest: Destination, stop: nat): Book
    decreases |allocs|
  {
    if allocs == [] || stop == 0 then b
    else
      var found := Find(mappings, allocs[0].balanceId);
      if allocs[0].amount == 0 || found.None? || Has(b.releases, found.value.provider) then
        Processed(b, allocs[1..], mappings, dest, stop)
      else
        var released := PostRelease(b, found.value, allocs[0].amount);
        if stop == 1 then released
        else Processed(PostReceive(released, found.value, allocs[0].amount, dest), allocs[1..], mappings, dest,
          stop - 2)
  }

  lemma {:induction false} ProcessedSkips(b: Book, a: Alloc, rest: seq<Alloc>, m: Mapping, mappings: seq<Mapping>,
                                          dest: Destination, stop: nat)
    requires Find(mappings, a.balanceId) == Some(m) && Has(b.releases, m.provider)
    ensures Processed(b, [a] + rest, mappings, dest, stop) == Processed(b, rest, mappings, dest, stop)
  {
    assert ([a] + rest)[1..] == rest;
  }

  lemma {:induction false} ProcessedPosts(b: Book, a: Alloc, rest: seq<Alloc>, m: Mapping, mappings: seq<Mapping>,
                                          dest: Destination, stop: nat)
    requires Find(mappings, a.balanceId) == Some(m) && !Has(b.releases, m.provider) && a.amount != 0 && stop > 0
    ensures Processed(b, [a] + rest, mappings, dest, stop) ==
      if stop == 1 then PostRelease(b, m, a.amount)
      else Processed(PostReceive(PostRelease(b, m, a.amount), m, a.amount, dest), rest, mappings, dest, stop - 2)
  {
    assert ([a] + rest)[1..] == rest;
  }

  /** One attempt; `ordered` is the sources as sorted for the strategy. */
  function Attempt(b: Book, amount: int, strategy: Strategy, mappings: seq<Mapping>, ordered: seq<Source>,
                   dest: Destination, stop: nat): Book
    requires Positive(ordered)
  {
    var remaining := amount - Released(b.releases, mappings);
    if mappings == [] || remaining <= 0 then b
    else Processed(b, Allocs(ordered, remaining, strategy), mappings, dest, stop)
  }

  // ---- the destination as prepared ----------------------------------------------------------

  lemma {:induction false} ShadowsAreMapped(mappings: seq<Mapping>, found: map<string, Id>, p: string)
    requires AllFound(mappings, found)
    ensures p in Shadows(mappings, found) <==> Mapped(mappings, p)
    ensures Mapped(mappings, p) ==> p in found && Shadows(mappings, found)[p] == found[p]
  {
    if mappings != [] {
      ShadowsAreMapped(mappings[..|mappings| - 1], found, p);
    }
  }

  /** One failed lookup loses the receives of all providers, not only of its own. */
  lemma {:induction false} PreparedReaches(tracked: bool, mappings: seq<Mapping>, found: map<string, Id>, p: string)
    ensures Reaches(Prepared(tracked, mappings, found), p) <==>
              tracked && Mapped(mappings, p) && forall i | 0 <= i < |mappings| :: mappings[i].provider in found
    ensures Reaches(Prepared(tracked, mappings, found), p) ==>
              p in found && Prepared(tracked, mappings, found).shadows[p] == found[p]
  {
    if AllFound(mappings, found) { ShadowsAreMapped(mappings, found, p); }
  }

  // ---- never too much, never twice --------------------------------------------------------

  predicate DistinctReleases(releases: seq<Release>) {
    releases == [] ||
    (DistinctReleases(releases[..|releases| - 1])
      && !Has(releases[..|releases| - 1], releases[|releases| - 1].provider))
  }

  predicate Mapped(mappings: seq<Mapping>, provider: string) {
    mappings != [] && (mappings[|mappings| - 1].provider == provider || Mapped(mappings[..|mappings| - 1], provider))
  }

  predicate DistinctProviders(mappings: seq<Mapping>) {
    mappings == [] ||
    (DistinctProviders(mappings[..|mappings| - 1])
      && !Mapped(mappings[..|mappings| - 1], mappings[|mappings| - 1].provider))
  }

  predicate AllMapped(releases: seq<Release>, mappings: seq<Mapping>) {
    releases == [] ||
    (AllMapped(releases[..|releases| - 1], mappings) && Mapped(mappings, releases[|releases| - 1].provider))
  }

  lemma {:induction false} AppendedTotal(releases: seq<Release>, r: Release)
    ensures Total(releases + [r]) == Total(releases) + r.amount
  {
    assert (releases + [r])[..|releases|] == releases;
  }

  lemma {:induction false} AppendedHas(releases: seq<Release>, r: Release, provider: string)
    ensures Has(releases + [r], provider) <==> Has(releases, provider) || provider == r.provider
  {
    assert (releases + [r])[..|releases|] == releases;
  }

  lemma {:induction false} AppendedDistinct(releases: seq<Release>, r: Release)
    requires DistinctReleases(releases)
    ensures DistinctReleases(releases + [r]) <==> !Has(releases, r.provider)
  {
    assert (releases + [r])[..|releases|] == releases;
  }

  lemma {:induction false} AppendedMapped(releases: seq<Release>, r: Release, mappings: seq<Mapping>)
    requires AllMapped(releases, mappings) && Mapped(mappings, r.provider)
    ensures AllMapped(releases + [r], mappings)
  {
    assert (releases + [r])[..|releases|] == releases;
  }

  lemma {:induction false} NotReleased(releases: seq<Release>, provider: string)
    requires !Has(releases, provider)
    ensures Lookup(releases, provider) == 0
  {
    if releases != [] {
      NotReleased(releases[..|releases| - 1], provider);
    }
  }

  lemma {:induction false} OneMoreReleased(releases: seq<Release>, r: Release, mappings: seq<Mapping>)
    requires DistinctProviders(mappings) && !Has(releases, r.provider)
    ensures Released(releases + [r], mappings) == Released(releases, mappings) +
      if Mapped(mappings, r.provider) then r.amount else 0
  {
    if mappings != [] {
      OneMoreReleased(releases, r, mappings[..|mappings| - 1]);
      NotReleased(releases, r.provider);
      assert (releases + [r])[..|releases|] == releases;
    }
  }

  lemma {:induction false} NothingReleased(mappings: seq<Mapping>)
    ensures Released([], mappings) == 0
  {
    if mappings != [] {
      NothingReleased(mappings[..|mappings| - 1]);
    }
  }

  /** The running sum over the mappings is the sum over the posted releases. */
  lemma {:induction false} ReleasedIsTotal(releases: seq<Release>, mappings: seq<Mapping>)
    requires DistinctProviders(mappings) && DistinctReleases(releases) && AllMapped(releases, mappings)
    ensures Released(releases, mappings) == Total(releases)
  {
    if releases == [] {
      NothingReleased(mappings);
    } else {
      var n := |releases| - 1;
      assert releases == releases[..n] + [releases[n]];
      ReleasedIsTotal(releases[..n], mappings);
      OneMoreReleased(releases[..n], releases[n], mappings);
    }
  }

  predicate AllPositive(allocs: seq<Alloc>) {
    forall i | 0 <= i < |allocs| :: allocs[i].amount > 0
  }

  lemma {:induction false} SumHead(allocs: seq<Alloc>)
    requires allocs != []
    ensures Sum(allocs) == allocs[0].amount + Sum(allocs[1..])
  {
    if |allocs| > 1 {
      SumHead(allocs[..|allocs| - 1]);
      assert allocs[..|allocs| - 1][1..] == allocs[1..][..|allocs| - 2];
    }
  }

  lemma {:induction false} SumPositive(allocs: seq<Alloc>)
    requires AllPositive(allocs)
    ensures Sum(allocs) >= 0
  {
    if allocs != [] {
      SumPositive(allocs[..|allocs| - 1]);
    }
  }

  /** A healthy book: each provider released at most once, under a known mapping. */
  predicate Healthy(b: Book, mappings: seq<Mapping>) {
    DistinctReleases(b.releases) && AllMapped(b.releases, mappings)
  }

  lemma {:induction false} FoundIsMapped(mappings: seq<Mapping>, id: Id)
    requires Find(mappings, id).Some?
    ensures Mapped(mappings, Find(mappings, id).value.provider)
  {
    var i := FoundIndex(mappings, id);
    IndexIsMapped(mappings, i);
  }

  lemma {:induction false} IndexIsMapped(mappings: seq<Mapping>, i: nat)
    requires i < |mappings|
    ensures Mapped(mappings, mappings[i].provider)
  {
    if i < |mappings| - 1 {
      IndexIsMapped(mappings[..|mappings| - 1], i);
    }
  }

  lemma {:induction false} FoundIndex(mappings: seq<Mapping>, id: Id) returns (i: nat)
    requires Find(mappings, id).Some?
    ensures i < |mappings| && mappings[i] == Find(mappings, id).value
  {
    if mappings[0].shadowId == id {
      i := 0;
    } else {
      i := FoundIndex(mappings[1..], id);
      i := i + 1;
    }
  }

  lemma {:induction false} OneReleaseHealthy(b: Book, m: Mapping, amount: int, mappings: seq<Mapping>)
    requires Healthy(b, mappings) && Mapped(mappings, m.provider) && !Has(b.releases, m.provider)
    ensures Healthy(PostRelease(b, m, amount), mappings)
    ensures Total(PostRelease(b, m, amount).releases) == Total(b.releases) + amount
  {
    var r := Release(m.provider, amount);
    AppendedTotal(b.releases, r);
    AppendedDistinct(b.releases, r);
    AppendedMapped(b.releases, r, mappings);
  }

  lemma {:induction false} PostedHealthy(b: Book, m: Mapping, amount: int, dest: Destination, mappings: seq<Mapping>)
    requires Healthy(b, mappings) && Mapped(mappings, m.provider) && !Has(b.releases, m.provider)
    ensures
      var after := PostReceive(PostRelease(b, m, amount), m, amount, dest);
      Healthy(after, mappings) && Total(after.releases) == Total(b.releases) + amount
  {
    OneReleaseHealthy(b, m, amount, mappings);
  }

  lemma {:induction false} ProcessedAddsAtMost(b: Book, allocs: seq<Alloc>, mappings: seq<Mapping>, dest: Destination,
                                               stop: nat)
    requires AllPositive(allocs) && Healthy(b, mappings)
    ensures
      var after := Processed(b, allocs, mappings, dest, stop);
      Healthy(after, mappings) && Total(after.releases) <= Total(b.releases) + Sum(allocs)
    decreases |allocs|
  {
    assert Sum(allocs) >= 0 by { SumPositive(allocs); }
    if allocs != [] && stop > 0 {
      var rest, amount := allocs[1..], allocs[0].amount;
      assert Sum(allocs) == amount + Sum(rest) && Sum(rest) >= 0 by {
        SumHead(allocs);
        SumPositive(rest);
      }
      var found := Find(mappings, allocs[0].balanceId);
      if found.None? || Has(b.releases, found.value.provider) {
        assert Processed(b, allocs, mappings, dest, stop) == Processed(b, rest, mappings, dest, stop);
        ProcessedAddsAtMost(b, rest, mappings, dest, stop);
      } else {
        assert Mapped(mappings, found.value.provider) by { FoundIsMapped(mappings, allocs[0].balanceId); }
        OneReleaseHealthy(b, found.value, amount, mappings);
        if stop > 1 {
          PostedHealthy(b, found.value, amount, dest, mappings);
          var next := PostReceive(PostRelease(b, found.value, amount), found.value, amount, dest);
          assert Processed(b, allocs, mappings, dest, stop) == Processed(next, rest, mappings, dest, stop - 2);
          ProcessedAddsAtMost(next, rest, mappings, dest, stop - 2);
        }
      }
    }
  }

  lemma {:induction false} DrawsPositive(sources: seq<Source>, amount: int, k: nat)
    requires k <= |sources|
    ensures AllPositive(Draws(sources, amount, k))
  {
    if k > 0 {
      DrawsPositive(sources, amount, k - 1);
    }
  }

  lemma {:induction false} PortionsPositive(sources: seq<Source>, effective: int, total: int, k: nat)
    requires total > 0 && k <= |sources|
    ensures AllPositive(Portions(sources, effective, total, k))
  {
    if k > 0 {
      PortionsPositive(sources, effective, total, k - 1);
    }
  }

  lemma {:induction false} AllocsWithinAmount(ordered: seq<Source>, amount: int, strategy: Strategy)
    requires Positive(ordered) && amount > 0
    ensures AllPositive(Allocs(ordered, amount, strategy)) && Sum(Allocs(ordered, amount, strategy)) <= amount
  {
    if ordered != [] {
      if strategy == Proportional {
        ProportionalBounds(ordered, amount);
        PortionsPositive(ordered, Min(amount, Allocation.Total(ordered)), Allocation.Total(ordered), |ordered|);
      } else {
        SequentialCovers(ordered, amount);
        DrawsPositive(ordered, amount, |ordered|);
      }
    }
  }

  /** What can happen between the first attempt and the last: attempts that stop anywhere, with
      the mappings, sources and destination as they are then, and any other activity on the
      shadows. */
  datatype Event =
    | Try(mappings: seq<Mapping>, ordered: seq<Source>, dest: Destination, stop: nat)
    | Elsewhere(available: map<Id, int>)

  function Happen(b: Book, e: Event, amount: int, strategy: Strategy): Book
    requires e.Try? ==> Positive(e.ordered)
  {
    match e
    case Try(mappings, ordered, dest, stop) => Attempt(b, amount, strategy, mappings, ordered, dest, stop)
    case Elsewhere(available) => b.(available := available)
  }

  /** Mappings are added but never removed, so every attempt sees the ones already used. */
  predicate Sound(b: Book, e: Event) {
    e.Try? ==> Positive(e.ordered) && DistinctProviders(e.mappings) && AllMapped(b.releases, e.mappings)
  }

  predicate SoundRun(b: Book, events: seq<Event>, amount: int, strategy: Strategy)
    decreases |events|
  {
    events == []
      || (Sound(b, events[0]) && SoundRun(Happen(b, events[0], amount, strategy), events[1..], amount, strategy))
  }

  function History(b: Book, events: seq<Event>, amount: int, strategy: Strategy): Book
    requires SoundRun(b, events, amount, strategy)
    decreases |events|
  {
    if events == [] then b else History(Happen(b, events[0], amount, strategy), events[1..], amount, strategy)
  }

  lemma {:induction false} AttemptWithinAmount(b: Book, amount: int, strategy: Strategy, mappings: seq<Mapping>,
                                               ordered: seq<Source>, dest: Destination, stop: nat)
    requires Positive(ordered) && DistinctProviders(mappings) && Healthy(b, mappings) && Total(b.releases) <= amount
    ensures
      var after := Attempt(b, amount, strategy, mappings, ordered, dest, stop);
      Healthy(after, mappings) && Total(after.releases) <= amount
  {
    var remaining := amount - Released(b.releases, mappings);
    assert remaining == amount - Total(b.releases) by { ReleasedIsTotal(b.releases, mappings); }
    if mappings != [] && remaining > 0 {
      var allocs := Allocs(ordered, remaining, strategy);
      AllocsWithinAmount(ordered, remaining, strategy);
      ProcessedAddsAtMost(b, allocs, mappings, dest, stop);
      assert Attempt(b, amount, strategy, mappings, ordered, dest, stop) == Processed(b, allocs, mappings, dest, stop);
    }
  }

  /** Whatever the strategy, the crashes and the activity in between, the releases never add up
      to more than the transaction and no provider is released twice. */
  lemma {:induction false} NeverOverReleased(b: Book, events: seq<Event>, amount: int, strategy: Strategy)
    requires DistinctReleases(b.releases) && Total(b.releases) <= amount
    requires SoundRun(b, events, amount, strategy)
    ensures
      var after := History(b, events, amount, strategy);
      DistinctReleases(after.releases) && Total(after.releases) <= amount
    decreases |events|
  {
    if events != [] {
      var e := events[0];
      if e.Try? {
        AttemptWithinAmount(b, amount, strategy, e.mappings, e.ordered, e.dest, e.stop);
      }
      NeverOverReleased(Happen(b, e, amount, strategy), events[1..], amount, strategy);
    }
  }

  // ---- receives ----------------------------------------------------------------------------

  lemma {:induction false} ReleaseFindsIt(b: Book, allocs: seq<Alloc>, mappings: seq<Mapping>, dest: Destination,
                                          stop: nat, p: string)
    requires Has(b.releases, p) && !Has(b.receives, p)
    ensures
      var after := Processed(b, allocs, mappings, dest, stop);
      Has(after.releases, p) && !Has(after.receives, p)
    decreases |allocs|
  {
    if allocs != [] && stop != 0 {
      var found, amount := Find(mappings, allocs[0].balanceId), allocs[0].amount;
      if amount == 0 || found.None? || Has(b.releases, found.value.provider) {
        assert Processed(b, allocs, mappings, dest, stop) == Processed(b, allocs[1..], mappings, dest, stop);
        ReleaseFindsIt(b, allocs[1..], mappings, dest, stop, p);
      } else {
        var m := found.value;
        AppendedHas(b.releases, Release(m.provider, amount), p);
        AppendedHas(b.receives, Release(m.provider, amount), p);
        if stop > 1 {
          var next := PostReceive(PostRelease(b, m, amount), m, amount, dest);
          assert Processed(b, allocs, mappings, dest, stop) == Processed(next, allocs[1..], mappings, dest, stop - 2);
          ReleaseFindsIt(next, allocs[1..], mappings, dest, stop - 2, p);
        }
      }
    }
  }

  /** A receive that did not follow its release is never made up for: every later attempt finds
      the release and moves on, whatever else happens. */
  lemma {:induction false} MissedReceiveStaysMissed(b: Book, events: seq<Event>, amount: int, strategy: Strategy,
                                                    p: string)
    requires SoundRun(b, events, amount, strategy)
    requires Has(b.releases, p) && !Has(b.receives, p)
    ensures
      var after := History(b, events, amount, strategy);
      Has(after.releases, p) && !Has(after.receives, p)
    decreases |events|
  {
    if events != [] {
      var e := events[0];
      if e.Try? && e.mappings != [] && amount > Released(b.releases, e.mappings) {
        ReleaseFindsIt(b, Allocs(e.ordered, amount - Released(b.releases, e.mappings), strategy), e.mappings, e.dest,
          e.stop, p);
      }
      MissedReceiveStaysMissed(Happen(b, e, amount, strategy), events[1..], amount, strategy, p);
    }
  }

  /** The releases an attempt would post if nothing stopped it: the mapped allocations whose
      provider has no release yet. */
  function Due(releases: seq<Release>, allocs: seq<Alloc>, mappings: seq<Mapping>): seq<Release>
    decreases |allocs|
  {
    if allocs == [] then []
    else
      var found := Find(mappings, allocs[0].balanceId);
      if allocs[0].amount == 0 || found.None? || Has(releases, found.value.provider) then
        Due(releases, allocs[1..], mappings)
      else
        var r := Release(found.value.provider, allocs[0].amount);
        [r] + Due(releases + [r], allocs[1..], mappings)
  }

  /** How many of the due releases an attempt posts that stops after `stop` postings. */
  function Reached(due: seq<Release>, stop: nat): (k: nat)
    ensures k <= |due|
  {
    Min((stop + 1) / 2, |due|)
  }

  /** Of the due releases that are posted, one is not followed by its receive: the attempt stops
      right after it, or the destination has no shadow for its provider in this attempt. */
  predicate Unfollowed(due: seq<Release>, dest: Destination, stop: nat) {
    exists i | 0 <= i < Reached(due, stop) :: 2 * i + 1 == stop || !Reaches(dest, due[i].provider)
  }

  lemma {:induction false} UnfollowedFirst(r: Release, due: seq<Release>, dest: Destination, stop: nat)
    requires stop > 1
    ensures Unfollowed([r] + due, dest, stop) <==> !Reaches(dest, r.provider) || Unfollowed(due, dest, stop - 2)
  {
    var all := [r] + due;
    if Unfollowed(due, dest, stop - 2) {
      var i :| 0 <= i < Reached(due, stop - 2) && (2 * i + 1 == stop - 2 || !Reaches(dest, due[i].provider));
      assert all[i + 1] == due[i] && i + 1 < Reached(all, stop);
    }
    if !Reaches(dest, r.provider) {
      assert all[0] == r && 0 < Reached(all, stop);
    }
    if Unfollowed(all, dest, stop) && Reaches(dest, r.provider) {
      var i :| 0 <= i < Reached(all, stop) && (2 * i + 1 == stop || !Reaches(dest, all[i].provider));
      assert i > 0 && due[i - 1] == all[i] && i - 1 < Reached(due, stop - 2);
    }
  }

  /** Receives keep up with releases unless one is not followed, and then it is missing. */
  lemma {:induction false} ReceivesKeepUp(b: Book, allocs: seq<Alloc>, mappings: seq<Mapping>, dest: Destination,
                                          stop: nat)
    returns (p: string)
    requires b.receives == b.releases
    ensures
      var after := Processed(b, allocs, mappings, dest, stop);
      if Unfollowed(Due(b.releases, allocs, mappings), dest, stop) then
        Has(after.releases, p) && !Has(after.receives, p)
      else after.receives == after.releases
    decreases |allocs|
  {
    p := "";
    if allocs != [] && stop != 0 {
      var found := Find(mappings, allocs[0].balanceId);
      if allocs[0].amount == 0 || found.None? || Has(b.releases, found.value.provider) {
        p := ReceivesKeepUp(b, allocs[1..], mappings, dest, stop);
      } else {
        var m, amount, rest := found.value, allocs[0].amount, allocs[1..];
        var r := Release(m.provider, amount);
        var due := Due(b.releases + [r], rest, mappings);
        AppendedHas(b.releases, r, r.provider);
        if stop == 1 {
          p := r.provider;
          assert ([r] + due)[0] == r && 0 < Reached([r] + due, stop);
        } else {
          UnfollowedFirst(r, due, dest, stop);
          var received := PostReceive(PostRelease(b, m, amount), m, amount, dest);
          if Reaches(dest, m.provider) {
            p := ReceivesKeepUp(received, rest, mappings, dest, stop - 2);
          } else {
            p := r.provider;
            ReleaseFindsIt(received, rest, mappings, dest, stop - 2, p);
          }
        }
      }
    }
  }

  /** An attempt of a schedule that posts a release without its receive. */
  predicate LosesReceive(b: Book, e: Event, amount: int, strategy: Strategy)
    requires e.Try? ==> Positive(e.ordered)
  {
    e.Try? && e.mappings != [] &&
    var remaining := amount - Released(b.releases, e.mappings);
    remaining > 0 && Unfollowed(Due(b.releases, Allocs(e.ordered, remaining, strategy), e.mappings), e.dest, e.stop)
  }

  predicate SomeLosesReceive(b: Book, events: seq<Event>, amount: int, strategy: Strategy)
    requires SoundRun(b, events, amount, strategy)
    decreases |events|
  {
    events != [] &&
    (LosesReceive(b, events[0], amount, strategy) ||
     SomeLosesReceive(Happen(b, events[0], amount, strategy), events[1..], amount, strategy))
  }

  lemma {:induction false} OneEventKeepsUp(b: Book, e: Event, amount: int, strategy: Strategy) returns (p: string)
    requires Sound(b, e) && b.receives == b.releases
    ensures
      var next := Happen(b, e, amount, strategy);
      if LosesReceive(b, e, amount, strategy) then Has(next.releases, p) && !Has(next.receives, p)
      else next.receives == next.releases
  {
    p := "";
    if e.Try? && e.mappings != [] {
      var remaining := amount - Released(b.releases, e.mappings);
      if remaining > 0 {
        p := ReceivesKeepUp(b, Allocs(e.ordered, remaining, strategy), e.mappings, e.dest, e.stop);
      }
    }
  }

  /** Over any schedule the receives match the releases at the end exactly when every release
      that was posted was followed by its receive in the same attempt. */
  lemma {:induction false} ReceivesMatchIff(b: Book, events: seq<Event>, amount: int, strategy: Strategy)
    requires SoundRun(b, events, amount, strategy) && b.receives == b.releases
    ensures
      var after := History(b, events, amount, strategy);
      after.receives == after.releases <==> !SomeLosesReceive(b, events, amount, strategy)
    decreases |events|
  {
    if events != [] {
      var next, rest := Happen(b, events[0], amount, strategy), events[1..];
      var p := OneEventKeepsUp(b, events[0], amount, strategy);
      if LosesReceive(b, events[0], amount, strategy) {
        MissedReceiveStaysMissed(next, rest, amount, strategy, p);
        StillMissed(History(next, rest, amount, strategy), p);
      } else {
        ReceivesMatchIff(next, rest, amount, strategy);
      }
    }
  }

  lemma {:induction false} StillMissed(b: Book, p: string)
    requires Has(b.releases, p) && !Has(b.receives, p)
    ensures b.receives != b.releases
  {
  }

  /** One provider with 10 at hand, and a destination whose shadow could not be prepared in time:
      nothing dies, the receive is lost, and a second attempt with the shadow at hand changes
      nothing. */
  lemma {:induction false} UnpreparedLosesReceive()
    ensures
      var start := Book(map["sp" := 10], [], []);
      var mappings, ordered := [Mapping("p", "sp", 1)], [Source("sp", 10, 1)];
      var first := Attempt(start, 10, Fifo, mappings, ordered, Prepared(true, mappings, map[]), 100);
      && first.releases == [Release("p", 10)] && first.receives == []
      && Attempt(first, 10, Fifo, mappings, ordered, Prepared(true, mappings, map["p" := "dp"]), 100) == first
  {
    var start := Book(map["sp" := 10], [], []);
    var mappings, ordered := [Mapping("p", "sp", 1)], [Source("sp", 10, 1)];
    var allocs := [Alloc("sp", 10)];
    OneDraw(ordered[0], 10);
    assert Lookup([], "p") == 0 && mappings[..0] == [];
    assert Released([], mappings) == 0;
    assert Find(mappings, "sp") == Some(mappings[0]);
    ProcessedPosts(start, allocs[0], [], mappings[0], mappings, Untracked, 100);
    assert allocs == [allocs[0]] + [];
    var releases := [Release("p", 10)];
    assert Lookup(releases, "p") == 10;
    assert Released(releases, mappings) == 10;
  }

  lemma {:induction false} OneDraw(s: Source, amount: int)
    requires s.balance == amount && amount > 0
    ensures Allocs([s], amount, Fifo) == [Alloc(s.balanceId, amount)]
  {
    assert Before([s], 0) == 0;
    assert Drawn([s], amount, 0) == amount;
    assert Draws([s], amount, 0) == [];
  }

  // ---- the processor ------------------------------------------------------------------------

  class Processor {
    var available: map<Id, int>
    var releases: seq<Release>
    var receives: seq<Release>

    constructor (book: Book)
      ensures View() == book
    {
      available, releases, receives := book.available, book.releases, book.receives;
    }

    function View(): Book
      reads this
    {
      Book(available, releases, receives)
    }

    method GetSources(mappings: seq<Mapping>) returns (sources: seq<Source>)
      ensures sources == SourcesOf(mappings, available)
    {
      sources := [];
      for i := 0 to |mappings|
        invariant sources == SourcesOf(mappings[..i], available)
      {
        assert mappings[..i + 1][..i] == mappings[..i];
        var m := mappings[i];
        if m.shadowId in available && available[m.shadowId] > 0 {
          sources := sources + [Source(m.shadowId, available[m.shadowId], m.createdAt)];
        }
      }
      assert mappings[..|mappings|] == mappings;
    }

    method RemainingDebitAmount(amount: int, mappings: seq<Mapping>) returns (remaining: int)
      ensures remaining == amount - Released(releases, mappings)
    {
      var released := 0;
      for i := 0 to |mappings|
        invariant released == Released(releases, mappings[..i])
      {
        assert mappings[..i + 1][..i] == mappings[..i];
        if Has(releases, mappings[i].provider) {
          released := released + Lookup(releases, mappings[i].provider);
        } else {
          NotReleased(releases, mappings[i].provider);
        }
      }
      assert mappings[..|mappings|] == mappings;
      return amount - released;
    }

    method QueueRelease(m: Mapping, amount: int)
      modifies this
      ensures View() == PostRelease(old(View()), m, amount)
    {
      available := available[m.shadowId := Available(available, m.shadowId) - amount];
      releases := releases + [Release(m.provider, amount)];
    }

    method ProcessDestination(m: Mapping, amount: int, dest: Destination)
      modifies this
      ensures View() == PostReceive(old(View()), m, amount, dest)
    {
      if dest.Untracked? || m.provider !in dest.shadows { return; }
      var shadow := dest.shadows[m.provider];
      available := available[shadow := Available(available, shadow) + amount];
      receives := receives + [Release(m.provider, amount)];
    }

    /** `stop` postings go through before the process dies. */
    method ProcessAllocations(allocs: seq<Alloc>, mappings: seq<Mapping>, dest: Destination, stop: nat)
      modifies this
      ensures View() == Processed(old(View()), allocs, mappings, dest, stop)
    {
      ghost var start := View();
      var left := stop;
      for i := 0 to |allocs|
        invariant Processed(start, allocs, mappings, dest, stop) == Processed(View(), allocs[i..], mappings, dest, left)
      {
        assert allocs[i..][0] == allocs[i] && allocs[i..][1..] == allocs[i + 1..];
        if left == 0 { return; }
        if allocs[i].amount == 0 { continue; }
        var found := Find(mappings, allocs[i].balanceId);
        if found.None? { continue; }
        if Has(releases, found.value.provider) { continue; }
        QueueRelease(found.value, allocs[i].amount);
        if left == 1 { return; }
        ProcessDestination(found.value, allocs[i].amount, dest);
        left := left - 2;
      }
    }

    method PrepareDestination(mappings: seq<Mapping>, found: map<string, Id>) returns (dest: Destination)
      ensures dest == Prepared(true, mappings, found)
    {
      var shadows: map<string, Id> := map[];
      for i := 0 to |mappings|
        invariant AllFound(mappings[..i], found) && shadows == Shadows(mappings[..i], found)
      {
        assert mappings[..i + 1][..i] == mappings[..i];
        var p := mappings[i].provider;
        if p !in found { return Untracked; }
        shadows := shadows[p := found[p]];
      }
      assert mappings[..|mappings|] == mappings;
      return Tracked(shadows);
    }

    /** One attempt; `ordered` is what the library sort made of the sources. */
    method ProcessDebit(amount: int, strategy: Strategy, mappings: seq<Mapping>, ordered: seq<Source>,
                        tracked: bool, found: map<string, Id>, stop: nat)
      requires SortedAs(SourcesOf(mappings, available), strategy, ordered) && Positive(ordered)
      modifies this
      ensures View() ==
        Attempt(old(View()), amount, strategy, mappings, ordered, Prepared(tracked, mappings, found), stop)
    {
      ghost var before := View();
      if |mappings| == 0 { return; }
      var dest := Untracked;
      if tracked { dest := PrepareDestination(mappings, found); }
      assert dest == Prepared(tracked, mappings, found);
      var remaining := RemainingDebitAmount(amount, mappings);
      if remaining <= 0 { return; }
      ghost var after := Processed(before, Allocs(ordered, remaining, strategy), mappings, dest, stop);
      assert Attempt(before, amount, strategy, mappings, ordered, dest, stop) == after;
      var allocs := CalculateAllocation(remaining, strategy, mappings, ordered);
      ProcessAllocations(allocs, mappings, dest, stop);
    }

    method CalculateAllocation(remaining: int, strategy: Strategy, mappings: seq<Mapping>, ordered: seq<Source>)
      returns (allocs: seq<Alloc>)
      requires SortedAs(SourcesOf(mappings, available), strategy, ordered) && Positive(ordered)
      ensures allocs == Allocs(ordered, remaining, strategy)
      ensures
        var sources := SourcesOf(mappings, available);
        DistinctIds(sources) && sources != [] && remaining > 0 ==>
          if strategy == Proportional then SharedOut(sources, remaining, allocs)
          else SpentByAge(sources, strategy, remaining, allocs)
    {
      var sources := GetSources(mappings);
      SourcesPositive(mappings, available);
      allocs := Calculate(sources, ordered, remaining, strategy);
    }
  }
}
