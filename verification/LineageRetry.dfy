/** When retrying a crashed FIFO or LIFO lineage debit ends where one uninterrupted run would,
    with no other activity on the shadows (lineage_debit.go:83-144, 240-268). */
module LineageRetry {
  import opened Wrappers
  import opened Allocation
  import opened LineageDebit

  /** A debit about to be processed: the mappings in draining order, what is available on the
      shadows, the amount, and the destination. */
  datatype Debit = Debit(line: seq<Mapping>, base: map<Id, int>, amount: int, dest: Destination)

  predicate DistinctShadows(line: seq<Mapping>) {
    line == [] || (DistinctShadows(line[..|line| - 1]) && Find(line[..|line| - 1], line[|line| - 1].shadowId).None?)
  }

  predicate Good(d: Debit) {
    DistinctShadows(d.line) && DistinctProviders(d.line) && d.amount > 0
  }

  lemma {:induction false} NotFound(line: seq<Mapping>, id: Id, k: nat)
    requires Find(line, id).None? && k < |line|
    ensures line[k].shadowId != id
  {
    if k > 0 {
      NotFound(line[1..], id, k - 1);
    }
  }

  lemma {:induction false} ShadowsDiffer(line: seq<Mapping>, i: nat, j: nat)
    requires DistinctShadows(line) && i < j < |line|
    ensures line[i].shadowId != line[j].shadowId
  {
    if j == |line| - 1 {
      NotFound(line[..j], line[j].shadowId, i);
    } else {
      ShadowsDiffer(line[..|line| - 1], i, j);
    }
  }

  lemma {:induction false} ProvidersDiffer(line: seq<Mapping>, i: nat, j: nat)
    requires DistinctProviders(line) && i < j < |line|
    ensures line[i].provider != line[j].provider
  {
    if j == |line| - 1 {
      IndexIsMapped(line[..j], i);
    } else {
      ProvidersDiffer(line[..|line| - 1], i, j);
    }
  }

  function Level(m: Mapping, available: map<Id, int>): Source {
    Source(m.shadowId, Max(0, Available(available, m.shadowId)), m.createdAt)
  }

  function Levels(line: seq<Mapping>, available: map<Id, int>): (l: seq<Source>)
    ensures |l| == |line| && NonNegative(l)
    ensures forall k | 0 <= k < |l| :: l[k] == Level(line[k], available)
  {
    if line == [] then [] else Levels(line[..|line| - 1], available) + [Level(line[|line| - 1], available)]
  }

  function DrawsFrom(levels: seq<Source>, amount: int, j: nat): seq<Alloc>
    requires j <= |levels|
    decreases |levels| - j
  {
    if j == |levels| then []
    else
      (if Drawn(levels, amount, j) > 0 then [Alloc(levels[j].balanceId, Drawn(levels, amount, j))] else [])
      + DrawsFrom(levels, amount, j + 1)
  }

  lemma {:induction false} DrawsFromStep(levels: seq<Source>, amount: int, j: nat)
    requires j < |levels|
    ensures DrawsFrom(levels, amount, j) ==
      if Drawn(levels, amount, j) > 0
      then [Alloc(levels[j].balanceId, Drawn(levels, amount, j))] + DrawsFrom(levels, amount, j + 1)
      else DrawsFrom(levels, amount, j + 1)
  {
    assert [] + DrawsFrom(levels, amount, j + 1) == DrawsFrom(levels, amount, j + 1);
  }

  lemma {:induction false} DrawsSplit(levels: seq<Source>, amount: int, j: nat)
    requires j <= |levels|
    ensures Draws(levels, amount, j) + DrawsFrom(levels, amount, j) == Draws(levels, amount, |levels|)
    decreases |levels| - j
  {
    var done, left := Draws(levels, amount, j), DrawsFrom(levels, amount, j);
    if j < |levels| {
      DrawsFromStep(levels, amount, j);
      DrawsSplit(levels, amount, j + 1);
      var rest := DrawsFrom(levels, amount, j + 1);
      if Drawn(levels, amount, j) > 0 {
        var here := Alloc(levels[j].balanceId, Drawn(levels, amount, j));
        assert Draws(levels, amount, j + 1) == done + [here];
        assert done + ([here] + rest) == (done + [here]) + rest;
      } else {
        assert Draws(levels, amount, j + 1) == done + [] == done;
      }
    }
  }

  /** One attempt, on the mappings in draining order. */
  function Retry(b: Book, d: Debit, stop: nat): Book {
    Working(b, d, d.amount - Released(b.releases, d.line), stop)
  }

  function Working(b: Book, d: Debit, remaining: int, stop: nat): Book {
    if remaining <= 0 then b
    else Processed(b, DrawsFrom(Levels(d.line, b.available), remaining, 0), d.line, d.dest, stop)
  }

  function Start(d: Debit): Book {
    Book(d.base, [], [])
  }

  function Retries(d: Debit, stops: seq<nat>): Book {
    if stops == [] then Start(d) else Retry(Retries(d, stops[..|stops| - 1]), d, stops[|stops| - 1])
  }

  /** Far enough for every release and receive of one attempt. */
  function ToTheEnd(d: Debit): nat {
    2 * |d.line|
  }

  function D(d: Debit, k: nat): int
    requires k < |d.line|
  {
    Drawn(Levels(d.line, d.base), d.amount, k)
  }

  /** What an uninterrupted run has released once it is past the first j mappings. */
  function Full(d: Debit, j: nat): seq<Release>
    requires j <= |d.line|
  {
    if j == 0 then [] else Added(Full(d, j - 1), d.line[j - 1].provider, D(d, j - 1))
  }

  function Added(releases: seq<Release>, provider: string, amount: int): seq<Release> {
    if amount > 0 then releases + [Release(provider, amount)] else releases
  }

  // ---- the release list -------------------------------------------------------------------

  lemma {:induction false} AddedTotal(releases: seq<Release>, provider: string, amount: int)
    requires amount >= 0
    ensures LineageDebit.Total(Added(releases, provider, amount)) == LineageDebit.Total(releases) + amount
  {
    AppendedTotal(releases, Release(provider, amount));
  }

  lemma {:induction false} AddedHas(releases: seq<Release>, provider: string, amount: int, p: string)
    ensures Has(Added(releases, provider, amount), p) <==> Has(releases, p) || (amount > 0 && p == provider)
  {
    AppendedHas(releases, Release(provider, amount), p);
  }

  lemma {:induction false} CoverStep(amount: int, before: int, balance: int)
    requires before >= 0 && balance >= 0
    ensures Max(0, Min(amount, before)) + Max(0, Min(balance, amount - before)) == Max(0, Min(amount, before + balance))
  {
  }

  lemma {:induction false} FullTotal(d: Debit, j: nat)
    requires j <= |d.line|
    ensures LineageDebit.Total(Full(d, j)) == Max(0, Min(d.amount, Before(Levels(d.line, d.base), j)))
  {
    if j > 0 {
      FullTotal(d, j - 1);
      var levels := Levels(d.line, d.base);
      BeforeGrows(levels, j - 1, j - 1);
      CoverStep(d.amount, Before(levels, j - 1), levels[j - 1].balance);
      AddedTotal(Full(d, j - 1), d.line[j - 1].provider, D(d, j - 1));
    }
  }

  lemma {:induction false} FullHas(d: Debit, j: nat, k: nat)
    requires Good(d) && j <= |d.line| && k < |d.line|
    ensures Has(Full(d, j), d.line[k].provider) <==> k < j && D(d, k) > 0
  {
    if j > 0 {
      FullHas(d, j - 1, k);
      if k < j - 1 { ProvidersDiffer(d.line, k, j - 1); }
      if k > j - 1 { ProvidersDiffer(d.line, j - 1, k); }
      AddedHas(Full(d, j - 1), d.line[j - 1].provider, D(d, j - 1), d.line[k].provider);
    }
  }

  lemma {:induction false} FullDistinct(d: Debit, j: nat)
    requires Good(d) && j <= |d.line|
    ensures DistinctReleases(Full(d, j))
  {
    if j > 0 {
      FullDistinct(d, j - 1);
      FullHas(d, j - 1, j - 1);
      AppendedDistinct(Full(d, j - 1), Release(d.line[j - 1].provider, D(d, j - 1)));
    }
  }

  lemma {:induction false} FullMapped(d: Debit, j: nat)
    requires Good(d) && j <= |d.line|
    ensures AllMapped(Full(d, j), d.line)
  {
    if j > 0 {
      FullMapped(d, j - 1);
      IndexIsMapped(d.line, j - 1);
      AppendedMapped(Full(d, j - 1), Release(d.line[j - 1].provider, D(d, j - 1)), d.line);
    }
  }

  /** The levels before position j. */
  function Mark(d: Debit, j: nat): int
    requires j <= |d.line|
  {
    Before(Levels(d.line, d.base), j)
  }

  lemma {:induction false} MarkGrows(d: Debit, i: nat, j: nat)
    requires i <= j <= |d.line|
    ensures 0 <= Mark(d, i) <= Mark(d, j)
  {
    BeforeGrows(Levels(d.line, d.base), i, j);
  }

  lemma {:induction false} ReleasedFull(d: Debit, j: nat)
    requires Good(d) && j <= |d.line|
    ensures Released(Full(d, j), d.line) == LineageDebit.Total(Full(d, j))
  {
    FullDistinct(d, j);
    FullMapped(d, j);
    ReleasedIsTotal(Full(d, j), d.line);
  }

  /** What is left to release once the first j mappings are done. */
  lemma {:induction false} Remaining(d: Debit, j: nat)
    requires Good(d) && j <= |d.line|
    ensures d.amount - Released(Full(d, j), d.line) == Max(0, d.amount - Mark(d, j))
  {
    ReleasedFull(d, j);
    FullTotal(d, j);
    MarkGrows(d, j, j);
  }

  lemma {:induction false} FindsIt(line: seq<Mapping>, k: nat)
    requires DistinctShadows(line) && k < |line|
    ensures Find(line, line[k].shadowId) == Some(line[k])
  {
    var id := line[k].shadowId;
    forall i | 0 <= i < k ensures line[i].shadowId != id { ShadowsDiffer(line, i, k); }
    FindsFirst(line, k);
  }

  lemma {:induction false} FindsFirst(line: seq<Mapping>, k: nat)
    requires k < |line| && forall i | 0 <= i < k :: line[i].shadowId != line[k].shadowId
    ensures Find(line, line[k].shadowId) == Some(line[k])
  {
    if k > 0 {
      FindsFirst(line[1..], k - 1);
    }
  }

  /** Nothing is drawn past a point where the amount is already covered. */
  lemma {:induction false} FullStops(d: Debit, i: nat, j: nat)
    requires i <= j <= |d.line| && d.amount <= Mark(d, i)
    ensures Full(d, j) == Full(d, i)
  {
    if i < j {
      FullStops(d, i, j - 1);
      MarkGrows(d, i, j - 1);
    }
  }

  /** As long as the amount reaches, everything is drained. */
  lemma {:induction false} DrainedSoFar(levels: seq<Source>, amount: int, j: nat, k: nat)
    requires NonNegative(levels) && k < j <= |levels| && amount >= Before(levels, j)
    ensures Drawn(levels, amount, k) == levels[k].balance
  {
    PrefixTotal(levels, k, j);
  }

  // ---- where an interrupted run can stand -------------------------------------------------

  /** Receives never touch a source shadow: the destination does not track lineage, or it
      belongs to another identity. */
  predicate Apart(d: Debit) {
    d.dest.Tracked? ==>
      forall k, p | 0 <= k < |d.line| && p in d.dest.shadows :: d.dest.shadows[p] != d.line[k].shadowId
  }

  /** The destination belongs to the spending identity, so receives refill the very shadows the
      releases drained. */
  predicate Shared(d: Debit) {
    d.dest.Tracked? &&
    forall k | 0 <= k < |d.line| ::
      d.line[k].provider in d.dest.shadows && d.dest.shadows[d.line[k].provider] == d.line[k].shadowId
  }

  predicate StandsAt(b: Book, d: Debit, j: nat, k: nat)
    requires j <= |d.line| && k < |d.line|
  {
    var a, base := Available(b.available, d.line[k].shadowId), Available(d.base, d.line[k].shadowId);
    if k < j then base - D(d, k) <= a <= base && (Apart(d) ==> a == base - D(d, k)) else a == base
  }

  predicate At(b: Book, d: Debit, j: nat) {
    j <= |d.line| && b.releases == Full(d, j) && forall k | 0 <= k < |d.line| :: StandsAt(b, d, j, k)
  }

  /** What an attempt draws from position j on is what the uninterrupted run draws there, and
      before j it draws nothing new. */
  predicate Resumable(levels: seq<Source>, remaining: int, d: Debit, j: nat)
    requires |levels| == |d.line| && j <= |d.line|
  {
    && (forall k | j <= k < |d.line| :: Drawn(levels, remaining, k) == D(d, k))
    && (forall k | 0 <= k < j :: Drawn(levels, remaining, k) > 0 ==> D(d, k) > 0)
  }

  lemma {:induction false} ReleaseMovesOn(b: Book, d: Debit, j: nat)
    requires Good(d) && (Apart(d) || Shared(d))
    requires At(b, d, j) && j < |d.line| && D(d, j) > 0
    ensures At(PostRelease(b, d.line[j], D(d, j)), d, j + 1)
    ensures At(PostReceive(PostRelease(b, d.line[j], D(d, j)), d.line[j], D(d, j), d.dest), d, j + 1)
  {
    var released := PostRelease(b, d.line[j], D(d, j));
    var received := PostReceive(released, d.line[j], D(d, j), d.dest);
    var next := j + 1;
    forall k | 0 <= k < |d.line|
      ensures StandsAt(released, d, next, k) && StandsAt(received, d, next, k)
    {
      assert StandsAt(b, d, j, k);
      if k < j { ShadowsDiffer(d.line, k, j); }
      if k > j { ShadowsDiffer(d.line, j, k); }
    }
  }

  lemma {:induction false} NothingDrawnMovesOn(b: Book, d: Debit, j: nat)
    requires At(b, d, j) && j < |d.line| && D(d, j) <= 0
    ensures At(b, d, j + 1)
  {
    assert D(d, j) == 0;
    var next := j + 1;
    forall k | 0 <= k < |d.line| ensures StandsAt(b, d, next, k) {
      assert StandsAt(b, d, j, k);
    }
  }

  predicate Matches(levels: seq<Source>, line: seq<Mapping>) {
    |levels| == |line| && forall k | 0 <= k < |levels| :: levels[k].balanceId == line[k].shadowId
  }

  lemma {:induction false} SkipOne(b: Book, d: Debit, j: nat, levels: seq<Source>, remaining: int, i: nat, stop: nat)
    requires Good(d) && i < j <= |d.line| && b.releases == Full(d, j) && Matches(levels, d.line)
    requires Drawn(levels, remaining, i) > 0 ==> D(d, i) > 0
    ensures Processed(b, DrawsFrom(levels, remaining, i), d.line, d.dest, stop)
         == Processed(b, DrawsFrom(levels, remaining, i + 1), d.line, d.dest, stop)
  {
    DrawsFromStep(levels, remaining, i);
    if Drawn(levels, remaining, i) > 0 {
      FindsIt(d.line, i);
      FullHas(d, j, i);
      ProcessedSkips(b, Alloc(levels[i].balanceId, Drawn(levels, remaining, i)), DrawsFrom(levels, remaining, i + 1),
                     d.line[i], d.line, d.dest, stop);
    }
  }

  /** What earlier attempts have released is passed over. */
  lemma {:induction false} SkipReleased(b: Book, d: Debit, j: nat, levels: seq<Source>, remaining: int, i: nat,
                                        stop: nat)
    requires Good(d) && i <= j <= |d.line| && b.releases == Full(d, j) && Matches(levels, d.line)
    requires forall k | 0 <= k < j :: Drawn(levels, remaining, k) > 0 ==> D(d, k) > 0
    ensures Processed(b, DrawsFrom(levels, remaining, i), d.line, d.dest, stop)
         == Processed(b, DrawsFrom(levels, remaining, j), d.line, d.dest, stop)
    decreases j - i
  {
    if i < j {
      SkipOne(b, d, j, levels, remaining, i, stop);
      SkipReleased(b, d, j, levels, remaining, i + 1, stop);
    }
  }

  lemma {:induction false} DiesAfterRelease(b: Book, d: Debit, j: nat, rest: seq<Alloc>)
    requires Good(d) && j < |d.line| && b.releases == Full(d, j) && D(d, j) > 0
    ensures Processed(b, [Alloc(d.line[j].shadowId, D(d, j))] + rest, d.line, d.dest, 1)
         == Processed(PostRelease(b, d.line[j], D(d, j)), rest, d.line, d.dest, 0)
  {
    FindsIt(d.line, j);
    FullHas(d, j, j);
    ProcessedPosts(b, Alloc(d.line[j].shadowId, D(d, j)), rest, d.line[j], d.line, d.dest, 1);
  }

  lemma {:induction false} PostsBoth(b: Book, d: Debit, j: nat, rest: seq<Alloc>, stop: nat)
    requires Good(d) && j < |d.line| && b.releases == Full(d, j) && D(d, j) > 0 && stop > 1
    ensures Processed(b, [Alloc(d.line[j].shadowId, D(d, j))] + rest, d.line, d.dest, stop)
         == Processed(PostReceive(PostRelease(b, d.line[j], D(d, j)), d.line[j], D(d, j), d.dest), rest, d.line, d.dest,
           stop - 2)
  {
    FindsIt(d.line, j);
    FullHas(d, j, j);
    ProcessedPosts(b, Alloc(d.line[j].shadowId, D(d, j)), rest, d.line[j], d.line, d.dest, stop);
  }

  /** One position further: the postings made there and how many are left before it dies. */
  lemma {:induction false} OneFurther(b: Book, d: Debit, j: nat, levels: seq<Source>, remaining: int, stop: nat)
    returns (b': Book, stop': nat)
    requires Good(d) && (Apart(d) || Shared(d)) && At(b, d, j) && Matches(levels, d.line)
    requires stop > 0 && j < |d.line| && Drawn(levels, remaining, j) == D(d, j)
    ensures At(b', d, j + 1) && stop' + 2 >= stop
    ensures Processed(b, DrawsFrom(levels, remaining, j), d.line, d.dest, stop)
         == Processed(b', DrawsFrom(levels, remaining, j + 1), d.line, d.dest, stop')
  {
    var rest := DrawsFrom(levels, remaining, j + 1);
    DrawsFromStep(levels, remaining, j);
    if D(d, j) <= 0 {
      NothingDrawnMovesOn(b, d, j);
      b', stop' := b, stop;
    } else if stop == 1 {
      ReleaseMovesOn(b, d, j);
      DiesAfterRelease(b, d, j, rest);
      b', stop' := PostRelease(b, d.line[j], D(d, j)), 0;
    } else {
      ReleaseMovesOn(b, d, j);
      PostsBoth(b, d, j, rest, stop);
      b', stop' := PostReceive(PostRelease(b, d.line[j], D(d, j)), d.line[j], D(d, j), d.dest), stop - 2;
    }
  }

  /** From position j an attempt goes on exactly as the uninterrupted run would, until it dies
      or is through. */
  lemma {:induction false} GoOn(b: Book, d: Debit, j: nat, levels: seq<Source>, remaining: int, stop: nat)
    returns (j': nat)
    requires Good(d) && (Apart(d) || Shared(d)) && At(b, d, j) && Matches(levels, d.line)
    requires forall k | j <= k < |d.line| :: Drawn(levels, remaining, k) == D(d, k)
    ensures At(Processed(b, DrawsFrom(levels, remaining, j), d.line, d.dest, stop), d, j')
    ensures stop >= 2 * (|d.line| - j) ==> j' == |d.line|
    decreases |d.line| - j
  {
    if stop == 0 || j == |d.line| {
      j' := j;
    } else {
      var b', stop' := OneFurther(b, d, j, levels, remaining, stop);
      j' := GoOn(b', d, j + 1, levels, remaining, stop');
    }
  }

  // ---- when every interrupted run converges -----------------------------------------------

  function LastLevel(levels: seq<Source>): int {
    if levels == [] then 0
    else if levels[|levels| - 1].balance > 0 then levels[|levels| - 1].balance
    else LastLevel(levels[..|levels| - 1])
  }

  /** Enough to empty every source even if all but the last one fill up again. */
  predicate Ample(d: Debit) {
    var levels := Levels(d.line, d.base);
    d.amount >= 2 * Allocation.Total(levels) - LastLevel(levels)
  }

  /** The first of the first k levels that holds something. */
  function FirstLevel(levels: seq<Source>, k: nat): int
    requires k <= |levels|
  {
    if k == 0 then 0 else if FirstLevel(levels, k - 1) > 0 then FirstLevel(levels, k - 1) else levels[k - 1].balance
  }

  /** The first source that holds anything covers the amount, or is the only one. */
  predicate Single(d: Debit) {
    var levels := Levels(d.line, d.base);
    Min(d.amount, Allocation.Total(levels)) <= FirstLevel(levels, |levels|)
  }

  lemma {:induction false} SingleUpTo(d: Debit, j: nat)
    requires Good(d) && j <= |d.line|
    ensures
      var first, mark := FirstLevel(Levels(d.line, d.base), j), Mark(d, j);
      && 0 <= first <= mark && (first == 0 ==> mark == 0) && (first == 0 <==> Full(d, j) == [])
      && (|Full(d, j)| <= 1 <==> Min(d.amount, mark) <= first)
  {
    if j > 0 {
      SingleUpTo(d, j - 1);
      assert Levels(d.line, d.base)[j - 1].balance >= 0;
    }
  }

  /** That is when the uninterrupted run draws on at most one source. */
  lemma {:induction false} SingleIff(d: Debit)
    requires Good(d)
    ensures Single(d) <==> |Full(d, |d.line|)| <= 1
  {
    SingleUpTo(d, |d.line|);
  }

  lemma {:induction false} LastBound(levels: seq<Source>, k: nat)
    requires NonNegative(levels) && k < |levels| && levels[k].balance > 0
    ensures Before(levels, k) + LastLevel(levels) <= Allocation.Total(levels)
  {
    var n := |levels| - 1;
    BeforeAgrees(levels[..n], levels, n);
    if k < n {
      if levels[n].balance > 0 {
        BeforeGrows(levels, k, n);
      } else {
        LastBound(levels[..n], k);
        BeforeAgrees(levels[..n], levels, k);
      }
    }
  }

  /** Levels that are nowhere higher add up to no more. */
  lemma {:induction false} LowerTotal(a: seq<Source>, b: seq<Source>, k: nat)
    requires |a| == |b| && k <= |a| && forall i | 0 <= i < k :: a[i].balance <= b[i].balance
    ensures Before(a, k) <= Before(b, k)
  {
    if k > 0 {
      LowerTotal(a, b, k - 1);
    }
  }

  lemma {:induction false} ZeroThenSame(a: seq<Source>, b: seq<Source>, j: nat, k: nat)
    requires |a| == |b| && j <= k <= |a|
    requires forall i | 0 <= i < j :: a[i].balance == 0
    requires forall i | j <= i < k :: a[i].balance == b[i].balance
    ensures Before(a, k) == Before(b, k) - Before(b, j)
    decreases k
  {
    if k > j {
      ZeroThenSame(a, b, j, k - 1);
    } else {
      AllZero(a, j);
    }
  }

  lemma {:induction false} AllZero(a: seq<Source>, j: nat)
    requires j <= |a| && forall i | 0 <= i < j :: a[i].balance == 0
    ensures Before(a, j) == 0
  {
    if j > 0 {
      AllZero(a, j - 1);
    }
  }

  /** The shadow levels an attempt finds at j. */
  lemma {:induction false} LevelsAt(b: Book, d: Debit, j: nat, k: nat)
    requires At(b, d, j) && k < |d.line|
    ensures
      var now, base := Levels(d.line, b.available)[k].balance, Levels(d.line, d.base)[k].balance;
      && 0 <= now <= base && (k >= j ==> now == base) && (k < j && Apart(d) ==> now == base - D(d, k))
  {
    assert StandsAt(b, d, j, k);
  }

  lemma {:induction false} ResumesApart(b: Book, d: Debit, j: nat, remaining: int)
    requires Apart(d) && At(b, d, j) && remaining == d.amount - Mark(d, j) > 0
    ensures Resumable(Levels(d.line, b.available), remaining, d, j)
  {
    var now, base := Levels(d.line, b.available), Levels(d.line, d.base);
    forall i | 0 <= i < |d.line|
      ensures i < j ==> now[i].balance == 0
      ensures i >= j ==> now[i].balance == base[i].balance
    {
      LevelsAt(b, d, j, i);
      if i < j { DrainedSoFar(base, d.amount, j, i); }
    }
    forall k | j <= k < |d.line|
      ensures Drawn(now, remaining, k) == D(d, k)
    {
      ZeroThenSame(now, base, j, k);
    }
  }

  /** With an ample amount a source still to come gets drained, whatever has filled up again. */
  lemma {:induction false} AmpleDrains(b: Book, d: Debit, j: nat, k: nat)
    requires Ample(d) && At(b, d, j) && j <= k < |d.line| && Levels(d.line, d.base)[k].balance > 0
    ensures Drawn(Levels(d.line, b.available), d.amount - Mark(d, j), k) == Levels(d.line, d.base)[k].balance
  {
    var now, base := Levels(d.line, b.available), Levels(d.line, d.base);
    LevelsAt(b, d, j, k);
    LastBound(base, k);
    MarkGrows(d, j, k);
    PrefixTotal(base, k, |base|);
    forall i | 0 <= i < k ensures now[i].balance <= base[i].balance { LevelsAt(b, d, j, i); }
    LowerTotal(now, base, k);
  }

  lemma {:induction false} AmpleAt(b: Book, d: Debit, j: nat, remaining: int, k: nat)
    requires Ample(d) && At(b, d, j) && remaining == d.amount - Mark(d, j) && k < |d.line|
    ensures k >= j ==> Drawn(Levels(d.line, b.available), remaining, k) == D(d, k)
    ensures Drawn(Levels(d.line, b.available), remaining, k) > 0 ==> D(d, k) > 0
  {
    AmpleCovers(d);
    DrainedSoFar(Levels(d.line, d.base), d.amount, |d.line|, k);
    LevelsAt(b, d, j, k);
    if k >= j && Levels(d.line, d.base)[k].balance > 0 { AmpleDrains(b, d, j, k); }
  }

  lemma {:induction false} ResumesAmple(b: Book, d: Debit, j: nat, remaining: int)
    requires Ample(d) && At(b, d, j) && remaining == d.amount - Mark(d, j)
    ensures Resumable(Levels(d.line, b.available), remaining, d, j)
  {
    forall k | 0 <= k < |d.line|
      ensures k >= j ==> Drawn(Levels(d.line, b.available), remaining, k) == D(d, k)
      ensures Drawn(Levels(d.line, b.available), remaining, k) > 0 ==> D(d, k) > 0
    {
      AmpleAt(b, d, j, remaining, k);
    }
  }

  lemma {:induction false} AmpleCovers(d: Debit)
    requires Ample(d)
    ensures d.amount >= Allocation.Total(Levels(d.line, d.base))
  {
    LastWithinTotal(Levels(d.line, d.base));
  }

  lemma {:induction false} LastWithinTotal(levels: seq<Source>)
    requires NonNegative(levels)
    ensures 0 <= LastLevel(levels) <= Allocation.Total(levels)
  {
    if levels != [] {
      var n := |levels| - 1;
      LastWithinTotal(levels[..n]);
      BeforeAgrees(levels[..n], levels, n);
    }
  }

  lemma {:induction false} FullPrefix(d: Debit, i: nat, j: nat)
    requires i <= j <= |d.line|
    ensures Full(d, i) <= Full(d, j)
  {
    if i < j {
      FullPrefix(d, i, j - 1);
    }
  }

  lemma {:induction false} EmptyMeansUndrawn(d: Debit, j: nat, k: nat)
    requires Good(d) && k < j <= |d.line| && Full(d, j) == []
    ensures D(d, k) == 0
  {
    FullHas(d, j, k);
  }

  /** Once the list of releases is complete and some amount is left, the later sources are
      empty. */
  lemma {:induction false} CompleteMeansEmpty(d: Debit, j: nat, k: nat)
    requires Good(d) && j <= k < |d.line| && Full(d, j) == Full(d, |d.line|) && d.amount > Mark(d, j)
    ensures Levels(d.line, d.base)[k].balance == 0 && Mark(d, k) == Mark(d, j)
    decreases k
  {
    FullHas(d, j, k);
    FullHas(d, |d.line|, k);
    assert D(d, k) == 0;
    if k > j {
      CompleteMeansEmpty(d, j, k - 1);
    }
  }

  lemma {:induction false} ResumesUntouched(b: Book, d: Debit, j: nat, remaining: int, k: nat)
    requires Good(d) && At(b, d, j) && Full(d, j) == [] && remaining == d.amount - Mark(d, j) > 0 && k < |d.line|
    ensures Drawn(Levels(d.line, b.available), remaining, k) == D(d, k)
  {
    var now, base := Levels(d.line, b.available), Levels(d.line, d.base);
    forall i | 0 <= i < |d.line|
      ensures now[i].balance == base[i].balance && (i < j ==> base[i].balance == 0)
    {
      LevelsAt(b, d, j, i);
      if i < j {
        EmptyMeansUndrawn(d, j, i);
        DrainedSoFar(base, d.amount, j, i);
      }
    }
    ZeroThenSame(now, base, 0, k);
    AllZero(base, j);
  }

  lemma {:induction false} ResumesSingle(b: Book, d: Debit, j: nat, remaining: int)
    requires Good(d) && |Full(d, |d.line|)| <= 1 && At(b, d, j) && remaining == d.amount - Mark(d, j) > 0
    ensures Resumable(Levels(d.line, b.available), remaining, d, j)
  {
    FullPrefix(d, j, |d.line|);
    forall k | 0 <= k < |d.line|
      ensures k < j && Drawn(Levels(d.line, b.available), remaining, k) > 0 ==> D(d, k) > 0
      ensures k >= j ==> Drawn(Levels(d.line, b.available), remaining, k) == D(d, k)
    {
      LevelsAt(b, d, j, k);
      if k < j {
        DrainedSoFar(Levels(d.line, d.base), d.amount, j, k);
      } else if Full(d, j) == [] {
        ResumesUntouched(b, d, j, remaining, k);
      } else {
        CompleteMeansEmpty(d, j, k);
      }
    }
  }

  /** What the spender can see beforehand. */
  predicate Converging(d: Debit) {
    Apart(d) || Single(d) || Ample(d)
  }

  lemma {:induction false} Resumes(b: Book, d: Debit, j: nat, remaining: int)
    requires Good(d) && (Converging(d) || j == 0) && At(b, d, j) && remaining == d.amount - Mark(d, j) > 0
    ensures Resumable(Levels(d.line, b.available), remaining, d, j)
  {
    if Apart(d) {
      ResumesApart(b, d, j, remaining);
    } else if Single(d) {
      SingleIff(d);
      ResumesSingle(b, d, j, remaining);
    } else if Ample(d) {
      ResumesAmple(b, d, j, remaining);
    } else {
      var now, base := Levels(d.line, b.available), Levels(d.line, d.base);
      forall k | 0 <= k < |d.line| ensures now[k].balance == base[k].balance { LevelsAt(b, d, 0, k); }
      forall k | 0 <= k < |d.line| ensures Drawn(now, remaining, k) == D(d, k) { ZeroThenSame(now, base, 0, k); }
    }
  }

  lemma {:induction false} RetryGoesOn(b: Book, d: Debit, j: nat, levels: seq<Source>, remaining: int, stop: nat)
    returns (j': nat)
    requires Good(d) && (Apart(d) || Shared(d)) && At(b, d, j)
    requires Matches(levels, d.line) && Resumable(levels, remaining, d, j)
    ensures At(Processed(b, DrawsFrom(levels, remaining, 0), d.line, d.dest, stop), d, j')
    ensures stop >= ToTheEnd(d) ==> j' == |d.line|
  {
    SkipReleased(b, d, j, levels, remaining, 0, stop);
    j' := GoOn(b, d, j, levels, remaining, stop);
  }

  lemma {:induction false} RetryIs(b: Book, d: Debit, j: nat, stop: nat)
    requires Good(d) && j <= |d.line| && b.releases == Full(d, j)
    ensures Retry(b, d, stop) == Working(b, d, Max(0, d.amount - Mark(d, j)), stop)
  {
    Remaining(d, j);
    assert d.amount - Released(b.releases, d.line) == Max(0, d.amount - Mark(d, j));
  }

  lemma {:induction false} RetryWorks(b: Book, d: Debit, j: nat, levels: seq<Source>, remaining: int, stop: nat)
    requires Good(d) && j <= |d.line| && b.releases == Full(d, j)
    requires levels == Levels(d.line, b.available) && remaining == d.amount - Mark(d, j) > 0
    ensures Retry(b, d, stop) == Processed(b, DrawsFrom(levels, remaining, 0), d.line, d.dest, stop)
  {
    RetryIs(b, d, j, stop);
    assert Max(0, d.amount - Mark(d, j)) == remaining;
  }

  lemma {:induction false} RetryResumes(b: Book, d: Debit, j: nat, stop: nat) returns (j': nat)
    requires Good(d) && (Apart(d) || Shared(d)) && (Converging(d) || j == 0) && At(b, d, j) && d.amount > Mark(d, j)
    ensures At(Retry(b, d, stop), d, j')
    ensures stop >= ToTheEnd(d) ==> j' == |d.line|
  {
    var levels, remaining := Levels(d.line, b.available), d.amount - Mark(d, j);
    Resumes(b, d, j, remaining);
    RetryWorks(b, d, j, levels, remaining, stop);
    j' := RetryGoesOn(b, d, j, levels, remaining, stop);
  }

  lemma {:induction false} RetryMovesOn(b: Book, d: Debit, j: nat, stop: nat) returns (j': nat)
    requires Good(d) && (Apart(d) || Shared(d)) && (Converging(d) || j == 0) && At(b, d, j)
    ensures At(Retry(b, d, stop), d, j')
    ensures stop >= ToTheEnd(d) ==> Full(d, j') == Full(d, |d.line|)
  {
    if d.amount <= Mark(d, j) {
      RetryIs(b, d, j, stop);
      FullStops(d, j, |d.line|);
      j' := j;
    } else {
      j' := RetryResumes(b, d, j, stop);
    }
  }

  lemma {:induction false} StartsAt(d: Debit)
    ensures At(Start(d), d, 0)
  {
  }

  lemma {:induction false} RetriesStand(d: Debit, stops: seq<nat>) returns (j: nat)
    requires Good(d) && (Apart(d) || Shared(d)) && Converging(d)
    ensures At(Retries(d, stops), d, j)
  {
    if stops == [] {
      StartsAt(d);
      j := 0;
    } else {
      var i := RetriesStand(d, stops[..|stops| - 1]);
      j := RetryMovesOn(Retries(d, stops[..|stops| - 1]), d, i, stops[|stops| - 1]);
    }
  }

  /** However often attempts die and wherever, the one that finally gets through leaves the
      releases of a run that was never interrupted. */
  ghost predicate Converges(d: Debit) {
    forall stops: seq<nat> ::
      Retry(Retries(d, stops), d, ToTheEnd(d)).releases == Retry(Start(d), d, ToTheEnd(d)).releases
  }

  lemma {:induction false} UninterruptedIsFull(d: Debit)
    requires Good(d) && (Apart(d) || Shared(d))
    ensures Retry(Start(d), d, ToTheEnd(d)).releases == Full(d, |d.line|)
  {
    StartsAt(d);
    var j := RetryMovesOn(Start(d), d, 0, ToTheEnd(d));
  }

  // ---- the schedule that does not converge --------------------------------------------------

  /** Everything released so far has been received back on the same shadows. */
  predicate Refilled(b: Book, d: Debit, j: nat) {
    && j <= |d.line| && b.releases == Full(d, j)
    && forall k | 0 <= k < |d.line| ::
      Available(b.available, d.line[k].shadowId) == Available(d.base, d.line[k].shadowId)
  }

  lemma {:induction false} RefillMovesOn(b: Book, d: Debit, j: nat)
    requires Good(d) && Shared(d) && Refilled(b, d, j) && j < |d.line| && D(d, j) > 0
    ensures Refilled(PostReceive(PostRelease(b, d.line[j], D(d, j)), d.line[j], D(d, j), d.dest), d, j + 1)
  {
    forall k | 0 <= k < |d.line|
      ensures k != j ==> d.line[k].shadowId != d.line[j].shadowId
    {
      if k < j { ShadowsDiffer(d.line, k, j); }
      if k > j { ShadowsDiffer(d.line, j, k); }
    }
  }

  lemma {:induction false} RefillStep(b: Book, d: Debit, levels: seq<Source>, j: nat, stop: nat)
    returns (b': Book, stop': nat)
    requires Good(d) && Shared(d) && Refilled(b, d, j) && levels == Levels(d.line, d.base) && j < |d.line| && stop > 1
    ensures Refilled(b', d, j + 1) && stop' == stop - 2 * (|Full(d, j + 1)| - |Full(d, j)|)
    ensures Processed(b, DrawsFrom(levels, d.amount, j), d.line, d.dest, stop)
         == Processed(b', DrawsFrom(levels, d.amount, j + 1), d.line, d.dest, stop')
  {
    DrawsFromStep(levels, d.amount, j);
    if D(d, j) > 0 {
      RefillMovesOn(b, d, j);
      PostsBoth(b, d, j, DrawsFrom(levels, d.amount, j + 1), stop);
      b', stop' := PostReceive(PostRelease(b, d.line[j], D(d, j)), d.line[j], D(d, j), d.dest), stop - 2;
    } else {
      b', stop' := b, stop;
    }
  }

  lemma {:induction false} LengthGrows(d: Debit, j: nat, q: nat)
    requires j <= q <= |d.line|
    ensures |Full(d, j)| <= |Full(d, q)|
  {
    FullPrefix(d, j, q);
  }

  lemma {:induction false} SameLengthSameList(d: Debit, j: nat, q: nat)
    requires j <= q <= |d.line| && |Full(d, j)| == |Full(d, q)|
    ensures Full(d, j) == Full(d, q)
  {
    FullPrefix(d, j, q);
  }

  lemma {:induction false} StopsHere(b: Book, d: Debit, levels: seq<Source>, j: nat, q: nat, stop: nat)
    requires Refilled(b, d, j) && j <= q <= |d.line| && |Full(d, j)| == |Full(d, q)| && |levels| == |d.line|
    requires stop == 0
    ensures Refilled(b, d, q) && b == Processed(b, DrawsFrom(levels, d.amount, j), d.line, d.dest, stop)
  {
    SameLengthSameList(d, j, q);
  }

  /** An attempt that dies right after its receive, just short of the last release. */
  lemma {:induction false} DiesBefore(b: Book, d: Debit, levels: seq<Source>, j: nat, q: nat, stop: nat)
    returns (after: Book)
    requires Good(d) && Shared(d) && Refilled(b, d, j) && levels == Levels(d.line, d.base) && j <= q < |d.line|
    requires stop == 2 * (|Full(d, q)| - |Full(d, j)|)
    ensures after == Processed(b, DrawsFrom(levels, d.amount, j), d.line, d.dest, stop)
    ensures Refilled(after, d, q)
    decreases q - j
  {
    if stop == 0 {
      StopsHere(b, d, levels, j, q, stop);
      after := b;
    } else {
      LengthGrows(d, j + 1, q);
      var b', stop' := RefillStep(b, d, levels, j, stop);
      after := DiesBefore(b', d, levels, j + 1, q, stop');
    }
  }

  lemma {:induction false} EmptyTail(levels: seq<Source>, amount: int, j: nat)
    requires j <= |levels| && forall k | j <= k < |levels| :: Drawn(levels, amount, k) <= 0
    ensures DrawsFrom(levels, amount, j) == []
    decreases |levels| - j
  {
    if j < |levels| {
      EmptyTail(levels, amount, j + 1);
    }
  }

  lemma {:induction false} SameLevels(b: Book, d: Debit, j: nat)
    requires Refilled(b, d, j)
    ensures Levels(d.line, b.available) == Levels(d.line, d.base)
  {
  }

  /** The last source the uninterrupted run draws on. */
  lemma {:induction false} LastDrawn(d: Debit, j: nat) returns (q: nat)
    requires j <= |d.line| && Full(d, j) != []
    ensures q < j && D(d, q) > 0 && forall k | q < k < j :: D(d, k) <= 0
    ensures Full(d, j) == Full(d, q) + [Release(d.line[q].provider, D(d, q))]
    decreases j
  {
    if D(d, j - 1) > 0 {
      q := j - 1;
    } else {
      q := LastDrawn(d, j - 1);
    }
  }

  /** Short of ample, drawing with the earlier releases refilled gives the last source a
      different amount. */
  lemma {:induction false} ShortChanged(d: Debit, q: nat)
    requires q < |d.line| && D(d, q) > 0 && Mark(d, q) > 0 && !Ample(d)
    requires forall k | q < k < |d.line| :: D(d, k) <= 0
    ensures Drawn(Levels(d.line, d.base), d.amount - Mark(d, q), q) != D(d, q)
  {
    var levels := Levels(d.line, d.base);
    if d.amount >= 2 * Mark(d, q) + levels[q].balance {
      NothingBeyond(d, q, |d.line|);
      LastIs(levels, q);
      assert false;
    }
  }

  lemma {:induction false} NothingBeyond(d: Debit, q: nat, n: nat)
    requires q < n <= |d.line| && d.amount > Mark(d, q + 1)
    requires forall k | q < k < |d.line| :: D(d, k) <= 0
    ensures Mark(d, n) == Mark(d, q + 1) && forall k | q < k < n :: Levels(d.line, d.base)[k].balance == 0
  {
    if n > q + 1 {
      NothingBeyond(d, q, n - 1);
      assert D(d, n - 1) <= 0;
    }
  }

  lemma {:induction false} LastIs(levels: seq<Source>, q: nat)
    requires NonNegative(levels) && q < |levels| && levels[q].balance > 0
    requires forall k | q < k < |levels| :: levels[k].balance == 0
    ensures LastLevel(levels) == levels[q].balance
  {
    if q < |levels| - 1 {
      LastIs(levels[..|levels| - 1], q);
    }
  }

  lemma {:induction false} DrawnBefore(d: Debit, q: nat)
    requires q <= |d.line| && Full(d, q) != []
    ensures Mark(d, q) > 0
  {
    var p := LastDrawn(d, q);
    var levels := Levels(d.line, d.base);
    PrefixTotal(levels, p, q);
    MarkGrows(d, p, p);
  }

  function OneDraw(levels: seq<Source>, amount: int, q: nat): seq<Alloc>
    requires q < |levels|
  {
    if Drawn(levels, amount, q) > 0 then [Alloc(levels[q].balanceId, Drawn(levels, amount, q))] else []
  }

  /** Drawing with the earlier releases refilled: only the last source is still to come. */
  lemma {:induction false} OnlyLastLeft(d: Debit, q: nat, levels: seq<Source>, rest: int)
    requires q < |d.line| && D(d, q) > 0 && Mark(d, q) > 0
    requires levels == Levels(d.line, d.base) && rest == d.amount - Mark(d, q)
    requires forall k | q < k < |d.line| :: D(d, k) <= 0
    ensures DrawsFrom(levels, rest, q) == OneDraw(levels, rest, q)
  {
    forall k | q < k < |levels| ensures Drawn(levels, d.amount, k) <= 0 {
      assert D(d, k) <= 0;
    }
    LastAlone(levels, rest, d.amount, q);
  }

  /** Where a bigger amount draws on nothing past q, a smaller one does neither. */
  lemma {:induction false} LastAlone(levels: seq<Source>, less: int, amount: int, q: nat)
    requires q < |levels| && less <= amount
    requires forall k | q < k < |levels| :: Drawn(levels, amount, k) <= 0
    ensures DrawsFrom(levels, less, q) == OneDraw(levels, less, q)
  {
    forall k | q + 1 <= k < |levels| ensures Drawn(levels, less, k) <= 0 {
      assert Drawn(levels, amount, k) <= 0;
    }
    EmptyTail(levels, less, q + 1);
  }

  /** Before it there is nothing that was not drawn the first time. */
  lemma {:induction false} NothingNewBefore(d: Debit, q: nat)
    requires q < |d.line| && D(d, q) > 0
    ensures d.amount - Mark(d, q) > 0
    ensures forall k | 0 <= k < q :: Drawn(Levels(d.line, d.base), d.amount - Mark(d, q), k) > 0 ==> D(d, k) > 0
  {
    var levels := Levels(d.line, d.base);
    forall k | 0 <= k < q ensures Drawn(levels, d.amount - Mark(d, q), k) > 0 ==> D(d, k) > 0 {
      DrainedSoFar(levels, d.amount, q, k);
    }
  }

  lemma {:induction false} PostsOne(b: Book, d: Debit, q: nat, e: int)
    requires Good(d) && Shared(d) && q < |d.line| && b.releases == Full(d, q) && e > 0
    ensures Processed(b, [Alloc(d.line[q].shadowId, e)], d.line, d.dest, ToTheEnd(d)).releases
         == Full(d, q) + [Release(d.line[q].provider, e)]
  {
    var a := Alloc(d.line[q].shadowId, e);
    FindsIt(d.line, q);
    FullHas(d, q, q);
    ProcessedPosts(b, a, [], d.line[q], d.line, d.dest, ToTheEnd(d));
    assert [a] + [] == [a];
  }

  lemma {:induction false} SecondSkips(b: Book, d: Debit, q: nat, levels: seq<Source>, rest: int)
    requires Good(d) && q < |d.line| && Refilled(b, d, q) && D(d, q) > 0
    requires levels == Levels(d.line, d.base) && rest == d.amount - Mark(d, q)
    ensures Retry(b, d, ToTheEnd(d)) == Processed(b, DrawsFrom(levels, rest, q), d.line, d.dest, ToTheEnd(d))
  {
    NothingNewBefore(d, q);
    SameLevels(b, d, q);
    RetryWorks(b, d, q, levels, rest, ToTheEnd(d));
    SkipReleased(b, d, q, levels, rest, 0, ToTheEnd(d));
  }

  lemma {:induction false} PostsDrawn(b: Book, d: Debit, q: nat, levels: seq<Source>, rest: int)
    requires Good(d) && Shared(d) && q < |d.line| && b.releases == Full(d, q) && Matches(levels, d.line)
    ensures
      Processed(b, OneDraw(levels, rest, q), d.line, d.dest, ToTheEnd(d)).releases
        == Added(Full(d, q), d.line[q].provider, Drawn(levels, rest, q))
  {
    var e := Drawn(levels, rest, q);
    if e > 0 { PostsOne(b, d, q, e); }
  }

  /** The attempt after the fatal one passes over what was released and gives the last source
      too little or nothing. */
  lemma {:induction false} SecondGives(b: Book, d: Debit, q: nat, levels: seq<Source>, rest: int)
    requires Good(d) && Shared(d) && q < |d.line| && Mark(d, q) > 0 && Refilled(b, d, q) && D(d, q) > 0
    requires levels == Levels(d.line, d.base) && rest == d.amount - Mark(d, q)
    requires forall k | q < k < |d.line| :: D(d, k) <= 0
    ensures Retry(b, d, ToTheEnd(d)).releases == Added(Full(d, q), d.line[q].provider, Drawn(levels, rest, q))
  {
    SecondSkips(b, d, q, levels, rest);
    OnlyLastLeft(d, q, levels, rest);
    PostsDrawn(b, d, q, levels, rest);
  }

  lemma {:induction false} SecondFallsShort(b: Book, d: Debit, q: nat)
    requires Good(d) && Shared(d) && !Ample(d) && q < |d.line| && Full(d, q) != [] && Refilled(b, d, q) && D(d, q) > 0
    requires forall k | q < k < |d.line| :: D(d, k) <= 0
    ensures Retry(b, d, ToTheEnd(d)).releases != Full(d, q) + [Release(d.line[q].provider, D(d, q))]
  {
    DrawnBefore(d, q);
    SecondGives(b, d, q, Levels(d.line, d.base), d.amount - Mark(d, q));
    ShortChanged(d, q);
    var e := Drawn(Levels(d.line, d.base), d.amount - Mark(d, q), q);
    var n := |Full(d, q)|;
    assert (Full(d, q) + [Release(d.line[q].provider, e)])[n].amount == e;
    assert (Full(d, q) + [Release(d.line[q].provider, D(d, q))])[n].amount == D(d, q);
  }

  lemma {:induction false} FirstDies(d: Debit, q: nat)
    requires Good(d) && Shared(d) && q < |d.line|
    ensures Refilled(Retry(Start(d), d, 2 * |Full(d, q)|), d, q)
  {
    RetryIs(Start(d), d, 0, 2 * |Full(d, q)|);
    assert Mark(d, 0) == 0;
    var after := DiesBefore(Start(d), d, Levels(d.line, d.base), 0, q, 2 * |Full(d, q)|);
  }

  lemma {:induction false} Diverges(d: Debit)
    requires Good(d) && Shared(d) && !Single(d) && !Ample(d)
    ensures !Converges(d)
  {
    UninterruptedIsFull(d);
    SingleIff(d);
    var q := LastDrawn(d, |d.line|);
    assert Full(d, q) != [];
    FirstDies(d, q);
    var stops := [2 * |Full(d, q)|];
    assert stops[..0] == [] && Retries(d, stops) == Retry(Start(d), d, 2 * |Full(d, q)|);
    SecondFallsShort(Retries(d, stops), d, q);
  }

  /** Retrying converges, whatever the crashes, exactly when receives stay off the source
      shadows, or one source is enough, or the amount is ample. */
  lemma {:induction false} ConvergesIff(d: Debit)
    requires Good(d) && (Apart(d) || Shared(d))
    ensures Converges(d) <==> Converging(d)
  {
    UninterruptedIsFull(d);
    if Converging(d) {
      forall stops: seq<nat>
        ensures Retry(Retries(d, stops), d, ToTheEnd(d)).releases == Full(d, |d.line|)
      {
        var j := RetriesStand(d, stops);
        var j' := RetryMovesOn(Retries(d, stops), d, j, ToTheEnd(d));
      }
    } else {
      Diverges(d);
    }
  }

  // ---- the attempts of the source are these retries -----------------------------------------

  /** The mappings as they are read, oldest first, with distinct creation times. */
  predicate Dated(mappings: seq<Mapping>) {
    forall i, j | 0 <= i < j < |mappings| :: mappings[i].createdAt < mappings[j].createdAt
  }

  lemma {:induction false} SourcesDated(mappings: seq<Mapping>, available: map<Id, int>)
    requires Dated(mappings)
    ensures var sources := SourcesOf(mappings, available);
      Ascending(sources) && DistinctTimes(sources) &&
      (mappings == [] ==> sources == []) &&
      (mappings != [] ==> forall i | 0 <= i < |sources| :: sources[i].createdAt <= mappings[|mappings| - 1].createdAt)
  {
    if mappings != [] {
      var n := |mappings| - 1;
      SourcesDated(mappings[..n], available);
      if n > 0 { assert mappings[n - 1].createdAt < mappings[n].createdAt; }
    }
  }

  function Flipped(mappings: seq<Mapping>): (r: seq<Mapping>)
    ensures |r| == |mappings|
  {
    if mappings == [] then [] else [mappings[|mappings| - 1]] + Flipped(mappings[..|mappings| - 1])
  }

  /** The mappings in draining order. */
  function Line(mappings: seq<Mapping>, strategy: Strategy): seq<Mapping> {
    if strategy == Lifo then Flipped(mappings) else mappings
  }

  lemma {:induction false} SourcesSplit(a: seq<Mapping>, b: seq<Mapping>, available: map<Id, int>)
    ensures SourcesOf(a + b, available) == SourcesOf(a, available) + SourcesOf(b, available)
  {
    if b == [] {
      assert a + b == a;
    } else {
      assert (a + b)[..|a + b| - 1] == a + b[..|b| - 1];
      SourcesSplit(a, b[..|b| - 1], available);
    }
  }

  lemma {:induction false} SourcesFlipped(mappings: seq<Mapping>, available: map<Id, int>)
    ensures SourcesOf(Flipped(mappings), available) == Reversed(SourcesOf(mappings, available))
  {
    if mappings != [] {
      var n := |mappings| - 1;
      SourcesFlipped(mappings[..n], available);
      SourcesSplit([mappings[n]], Flipped(mappings[..n]), available);
      assert [mappings[n]][..0] == [];
    }
  }

  /** With distinct creation times the sort has only one possible outcome. */
  lemma {:induction false} OrderIsLine(mappings: seq<Mapping>, available: map<Id, int>, strategy: Strategy,
                                       ordered: seq<Source>)
    requires Dated(mappings) && strategy != Proportional
    requires SortedAs(SourcesOf(mappings, available), strategy, ordered)
    ensures ordered == SourcesOf(Line(mappings, strategy), available)
  {
    var sources := SourcesOf(mappings, available);
    SourcesDated(mappings, available);
    if strategy == Fifo {
      AscendingIsUnique(ordered, sources);
    } else {
      MirrorOrder(sources, sources, ordered);
      SourcesFlipped(mappings, available);
    }
  }

  lemma {:induction false} DrawsPrefix(a: seq<Source>, b: seq<Source>, amount: int, k: nat)
    requires k <= |a| && k <= |b| && forall i | 0 <= i < k :: a[i] == b[i]
    ensures Draws(a, amount, k) == Draws(b, amount, k)
  {
    if k > 0 {
      DrawsPrefix(a, b, amount, k - 1);
      BeforeAgrees(a, b, k - 1);
    }
  }

  lemma {:induction false} DrawsAppended(sources: seq<Source>, last: Source, amount: int)
    ensures Allocation.Total(sources + [last]) == Allocation.Total(sources) + last.balance
    ensures Draws(sources + [last], amount, |sources| + 1) ==
      Draws(sources, amount, |sources|) +
      var give := Max(0, Min(last.balance, amount - Allocation.Total(sources)));
      if give > 0 then [Alloc(last.balanceId, give)] else []
  {
    BeforeAgrees(sources + [last], sources, |sources|);
    DrawsPrefix(sources + [last], sources, amount, |sources|);
  }

  /** Leaving out the empty sources changes nothing. */
  lemma {:induction false} EmptySourcesDropOut(line: seq<Mapping>, available: map<Id, int>, amount: int)
    ensures
      var sources, levels := SourcesOf(line, available), Levels(line, available);
      Draws(sources, amount, |sources|) == Draws(levels, amount, |levels|)
        && Allocation.Total(sources) == Allocation.Total(levels)
  {
    if line != [] {
      var n := |line| - 1;
      EmptySourcesDropOut(line[..n], available, amount);
      var fewer, shorter, last :=
        SourcesOf(line[..n], available), Levels(line[..n], available), Level(line[n], available);
      assert Levels(line, available) == shorter + [last];
      DrawsAppended(shorter, last, amount);
      DrawsAppended(fewer, last, amount);
      if last.balance > 0 {
        assert SourcesOf(line, available) == fewer + [last];
      } else {
        assert SourcesOf(line, available) == fewer + [] == fewer;
        assert Draws(shorter, amount, n) + [] == Draws(shorter, amount, n);
      }
    }
  }

  lemma {:induction false} ReleasedSplit(releases: seq<Release>, a: seq<Mapping>, b: seq<Mapping>)
    ensures Released(releases, a + b) == Released(releases, a) + Released(releases, b)
  {
    if b == [] {
      assert a + b == a;
    } else {
      assert (a + b)[..|a + b| - 1] == a + b[..|b| - 1];
      ReleasedSplit(releases, a, b[..|b| - 1]);
    }
  }

  lemma {:induction false} ReleasedFlipped(releases: seq<Release>, mappings: seq<Mapping>)
    ensures Released(releases, Flipped(mappings)) == Released(releases, mappings)
  {
    if mappings != [] {
      var n := |mappings| - 1;
      ReleasedFlipped(releases, mappings[..n]);
      ReleasedSplit(releases, [mappings[n]], Flipped(mappings[..n]));
      assert [mappings[n]][..0] == [];
    }
  }

  lemma {:induction false} FindAppended(a: seq<Mapping>, m: Mapping, id: Id)
    ensures Find(a + [m], id) == if Find(a, id).Some? then Find(a, id) else if m.shadowId == id then Some(m) else None
  {
    if a != [] {
      assert (a + [m])[1..] == a[1..] + [m];
      FindAppended(a[1..], m, id);
    }
  }

  lemma {:induction false} FindFlipped(mappings: seq<Mapping>, id: Id)
    requires DistinctShadows(mappings)
    ensures Find(Flipped(mappings), id) == Find(mappings, id)
  {
    if mappings != [] {
      var n := |mappings| - 1;
      FindFlipped(mappings[..n], id);
      assert mappings == mappings[..n] + [mappings[n]];
      FindAppended(mappings[..n], mappings[n], id);
      assert Flipped(mappings)[1..] == Flipped(mappings[..n]);
    }
  }

  lemma {:induction false} ProcessedFlipped(b: Book, allocs: seq<Alloc>, mappings: seq<Mapping>, dest: Destination,
                                            stop: nat)
    requires DistinctShadows(mappings)
    ensures Processed(b, allocs, Flipped(mappings), dest, stop) == Processed(b, allocs, mappings, dest, stop)
    decreases |allocs|
  {
    if allocs != [] && stop > 0 {
      FindFlipped(mappings, allocs[0].balanceId);
      var found := Find(mappings, allocs[0].balanceId);
      if allocs[0].amount == 0 || found.None? || Has(b.releases, found.value.provider) {
        ProcessedFlipped(b, allocs[1..], mappings, dest, stop);
      } else if stop > 1 {
        var released := PostRelease(b, found.value, allocs[0].amount);
        ProcessedFlipped(PostReceive(released, found.value, allocs[0].amount, dest), allocs[1..], mappings, dest,
          stop - 2);
      }
    }
  }

  lemma {:induction false} AllocsInLine(line: seq<Mapping>, available: map<Id, int>, remaining: int, strategy: Strategy)
    requires strategy != Proportional && remaining > 0 && Positive(SourcesOf(line, available))
    ensures Allocs(SourcesOf(line, available), remaining, strategy) == DrawsFrom(Levels(line, available), remaining, 0)
  {
    EmptySourcesDropOut(line, available, remaining);
    DrawsSplit(Levels(line, available), remaining, 0);
    var allocs := DrawsFrom(Levels(line, available), remaining, 0);
    assert Draws(Levels(line, available), remaining, 0) + allocs == allocs;
  }

  lemma {:induction false} LineSameWork(b: Book, allocs: seq<Alloc>, mappings: seq<Mapping>, strategy: Strategy,
                                        dest: Destination, stop: nat)
    requires DistinctShadows(mappings)
    ensures Released(b.releases, Line(mappings, strategy)) == Released(b.releases, mappings)
    ensures Processed(b, allocs, Line(mappings, strategy), dest, stop) == Processed(b, allocs, mappings, dest, stop)
  {
    ReleasedFlipped(b.releases, mappings);
    ProcessedFlipped(b, allocs, mappings, dest, stop);
  }

  lemma {:induction false} NoMappingsNoWork(b: Book, d: Debit, stop: nat)
    requires d.line == []
    ensures Retry(b, d, stop) == b
  {
  }

  lemma {:induction false} AttemptWorks(b: Book, amount: int, strategy: Strategy, mappings: seq<Mapping>,
                                        ordered: seq<Source>,
                                        dest: Destination, stop: nat, allocs: seq<Alloc>)
    requires Positive(ordered) && mappings != [] && amount > Released(b.releases, mappings)
    requires Allocs(ordered, amount - Released(b.releases, mappings), strategy) == allocs
    ensures Attempt(b, amount, strategy, mappings, ordered, dest, stop) == Processed(b, allocs, mappings, dest, stop)
  {
  }

  lemma {:induction false} AttemptRests(b: Book, amount: int, strategy: Strategy, mappings: seq<Mapping>,
                                        ordered: seq<Source>,
                                        dest: Destination, stop: nat)
    requires Positive(ordered) && (mappings == [] || amount <= Released(b.releases, mappings))
    ensures Attempt(b, amount, strategy, mappings, ordered, dest, stop) == b
  {
  }

  lemma {:induction false} AttemptInLine(b: Book, amount: int, strategy: Strategy, mappings: seq<Mapping>,
                                         ordered: seq<Source>,
                                         d: Debit, stop: nat)
    requires strategy != Proportional && DistinctShadows(mappings) && Positive(ordered)
    requires d.line == Line(mappings, strategy) && d.amount == amount && ordered == SourcesOf(d.line, b.available)
    ensures Attempt(b, amount, strategy, mappings, ordered, d.dest, stop) == Retry(b, d, stop)
  {
    var remaining := amount - Released(b.releases, mappings);
    var allocs := DrawsFrom(Levels(d.line, b.available), remaining, 0);
    LineSameWork(b, allocs, mappings, strategy, d.dest, stop);
    if mappings == [] {
      NoMappingsNoWork(b, d, stop);
      AttemptRests(b, amount, strategy, mappings, ordered, d.dest, stop);
    } else if remaining <= 0 {
      AttemptRests(b, amount, strategy, mappings, ordered, d.dest, stop);
    } else {
      AllocsInLine(d.line, b.available, remaining, strategy);
      AttemptWorks(b, amount, strategy, mappings, ordered, d.dest, stop, allocs);
    }
  }

  /** A FIFO or LIFO attempt, whatever its sort returned, is a retry in draining order. */
  lemma {:induction false} AttemptIsRetry(b: Book, amount: int, strategy: Strategy, mappings: seq<Mapping>,
                                          ordered: seq<Source>,
                                          dest: Destination, base: map<Id, int>, stop: nat)
    requires strategy != Proportional && Dated(mappings) && DistinctShadows(mappings) && Positive(ordered)
    requires SortedAs(SourcesOf(mappings, b.available), strategy, ordered)
    ensures Attempt(b, amount, strategy, mappings, ordered, dest, stop)
         == Retry(b, Debit(Line(mappings, strategy), base, amount, dest), stop)
  {
    OrderIsLine(mappings, b.available, strategy, ordered);
    AttemptInLine(b, amount, strategy, mappings, ordered, Debit(Line(mappings, strategy), base, amount, dest), stop);
  }
}
