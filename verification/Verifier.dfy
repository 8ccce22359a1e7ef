/** Replaying the chain from genesis (chain_worker.go:171-218, database/chain.go:150-181). */
module Verifier {
  import opened Wrappers
  import opened HashChain
  import opened Sealing

  /** A sealed row as the verifier reads it back; rows come in order of position. */
  datatype Chained = Chained(seqNo: int, prev: string, hash: string, row: ChainRow)

  datatype Reason = NonContiguous | PrevMismatch | HashMismatch | HeadMismatch
  datatype Verdict = Verified(lastSeq: int, head: string) | Broken(seqNo: int, reason: Reason)

  /** Positions are unique and handed back in order. */
  predicate Ordered(rows: seq<Chained>) {
    forall i, j | 0 <= i < j < |rows| :: rows[i].seqNo < rows[j].seqNo
  }

  /** The running head before row k, as the replay carries it. */
  function RunningHead(rows: seq<Chained>, genesis: string, k: nat): string
    requires k <= |rows|
  {
    if k == 0 then genesis else rows[k - 1].hash
  }

  predicate LinkHolds(h: Hash, genesis: string, rows: seq<Chained>, k: nat)
    requires k < |rows|
  {
    && rows[k].seqNo == k + 1
    && rows[k].prev == RunningHead(rows, genesis, k)
    && rows[k].hash == ComputeHash(h, RunningHead(rows, genesis, k), rows[k].row)
  }

  predicate AllHold(h: Hash, genesis: string, rows: seq<Chained>) {
    forall k | 0 <= k < |rows| :: LinkHolds(h, genesis, rows, k)
  }

  /** What a replay accepts: every link, and at the recorded length the recorded head. */
  predicate Accepts(h: Hash, genesis: string, rows: seq<Chained>, recordedLen: int, recordedHead: string) {
    AllHold(h, genesis, rows) && (|rows| == recordedLen ==> RunningHead(rows, genesis, |rows|) == recordedHead)
  }

  // ---- tamper evidence --------------------------------------------------------------------

  /** The hash as the argument needs it: different strings hash differently, and a digest is
      written in hexadecimal, so it contains no separator. */
  ghost predicate Sound(h: Hash) {
    && (forall a: string, b: string :: h(a) == h(b) ==> a == b)
    && (forall a: string :: Bars(h(a)) == 0)
  }

  lemma {:induction false} HeadHasNoBars(h: Hash, genesis: string, rows: seq<Chained>, k: nat)
    requires Sound(h) && Bars(genesis) == 0 && AllHold(h, genesis, rows) && k <= |rows|
    ensures Bars(RunningHead(rows, genesis, k)) == 0
  {
    if k > 0 { assert LinkHolds(h, genesis, rows, k - 1); }
  }

  lemma {:induction false} CanonicalCut(prev: string, r: ChainRow)
    ensures Canonical(prev, r) == prev + "|" + Join(Fields(r))
  {
    assert ([prev] + Fields(r))[1..] == Fields(r);
  }

  /** With a sound hash, two tables that verify and carry the same head at the same length
      agree, position by position, in their heads and in everything the hash covers. */
  lemma {:induction false} SameHeadSameChain(h: Hash, genesis: string, a: seq<Chained>, b: seq<Chained>, k: nat, i: nat)
    requires Sound(h) && Bars(genesis) == 0 && AllHold(h, genesis, a) && AllHold(h, genesis, b)
    requires i < k && k <= |a| && k <= |b| && RunningHead(a, genesis, k) == RunningHead(b, genesis, k)
    ensures RunningHead(a, genesis, i) == RunningHead(b, genesis, i)
    ensures Canonical(genesis, a[i].row) == Canonical(genesis, b[i].row)
  {
    assert LinkHolds(h, genesis, a, k - 1) && LinkHolds(h, genesis, b, k - 1);
    var x, y := RunningHead(a, genesis, k - 1), RunningHead(b, genesis, k - 1);
    HeadHasNoBars(h, genesis, a, k - 1);
    HeadHasNoBars(h, genesis, b, k - 1);
    CanonicalCut(x, a[k - 1].row);
    CanonicalCut(y, b[k - 1].row);
    SameCut(x, Join(Fields(a[k - 1].row)), y, Join(Fields(b[k - 1].row)));
    if i == k - 1 {
      PrefixCanonical(genesis, a[i].row, b[i].row);
    } else {
      SameHeadSameChain(h, genesis, a, b, k - 1, i);
    }
  }

  /** Tamper evidence: against one genesis, one recorded length and one recorded head, every
      accepted table of that length holds the same hashed fields at every position, for every
      row that the canonical string pins down. */
  lemma {:induction false} TamperEvident(h: Hash, genesis: string, a: seq<Chained>, b: seq<Chained>,
                                         recordedHead: string, i: nat)
    requires Sound(h) && Bars(genesis) == 0
    requires |a| == |b| && Accepts(h, genesis, a, |a|, recordedHead) && Accepts(h, genesis, b, |b|, recordedHead)
    requires i < |a|
    ensures Canonical(genesis, a[i].row) == Canonical(genesis, b[i].row)
    ensures Plain(a[i].row) ==> a[i] == b[i]
  {
    SameHeadSameChain(h, genesis, a, b, |a|, i);
    if Plain(a[i].row) {
      PlainIsUnique(genesis, a[i].row, b[i].row);
      assert LinkHolds(h, genesis, a, i) && LinkHolds(h, genesis, b, i);
    }
  }

  predicate AllTyped(rows: seq<Chained>) {
    forall i | 0 <= i < |rows| :: Typed(rows[i].row)
  }

  /** No other table of this length is accepted with this head. */
  ghost predicate OnlyTable(h: Hash, genesis: string, rows: seq<Chained>, recordedHead: string) {
    forall other: seq<Chained> | |other| == |rows| && AllTyped(other)
      && Accepts(h, genesis, other, |rows|, recordedHead) ::
      other == rows
  }

  /** Exchanging one row for a twin goes unnoticed. */
  lemma {:induction false} TwinIsAccepted(h: Hash, genesis: string, rows: seq<Chained>, recordedHead: string, i: nat)
    returns (other: seq<Chained>)
    requires AllTyped(rows) && Accepts(h, genesis, rows, |rows|, recordedHead) && i < |rows| && !Plain(rows[i].row)
    ensures |other| == |rows| && other != rows && AllTyped(other) && Accepts(h, genesis, other, |rows|, recordedHead)
  {
    var twin := Twin(rows[i].row);
    other := rows[i := rows[i].(row := twin)];
    assert other[i].row == twin && rows[i].row != twin;
    forall k | 0 <= k < |other|
      ensures LinkHolds(h, genesis, other, k)
    {
      assert LinkHolds(h, genesis, rows, k);
      assert RunningHead(other, genesis, k) == RunningHead(rows, genesis, k);
      PrefixCanonical(RunningHead(rows, genesis, k), twin, rows[i].row);
    }
  }

  /** An accepted table is the only one with its genesis, length and head exactly when none of
      its fields contains a separator. */
  lemma {:induction false} TamperEvidentIff(h: Hash, genesis: string, rows: seq<Chained>, recordedHead: string)
    requires Sound(h) && Bars(genesis) == 0
    requires AllTyped(rows) && Accepts(h, genesis, rows, |rows|, recordedHead)
    ensures OnlyTable(h, genesis, rows, recordedHead) <==> forall i | 0 <= i < |rows| :: Plain(rows[i].row)
  {
    if forall i | 0 <= i < |rows| :: Plain(rows[i].row) {
      forall other: seq<Chained> | |other| == |rows| && AllTyped(other)
        && Accepts(h, genesis, other, |rows|, recordedHead)
        ensures other == rows
      {
        forall i | 0 <= i < |rows| ensures other[i] == rows[i] {
          TamperEvident(h, genesis, rows, other, recordedHead, i);
        }
      }
    } else {
      var i :| 0 <= i < |rows| && !Plain(rows[i].row);
      var other := TwinIsAccepted(h, genesis, rows, recordedHead, i);
    }
  }

  /** The guarantee needs the recorded length: the head is only compared when the lengths are
      equal, so a shorter table is accepted as soon as its own links hold. */
  lemma {:induction false} ShorterIsNotCompared(h: Hash, genesis: string, rows: seq<Chained>, n: nat,
                                                recordedHead: string)
    requires AllHold(h, genesis, rows) && n < |rows|
    ensures Accepts(h, genesis, rows[..n], |rows|, recordedHead)
  {
    forall k | 0 <= k < n
      ensures LinkHolds(h, genesis, rows[..n], k)
    {
      assert LinkHolds(h, genesis, rows, k);
    }
  }

  // ---- sealed chains verify ---------------------------------------------------------------

  function ChainedAt(h: Hash, genesis: string, sealed: seq<ChainRow>, k: nat): Chained
    requires k < |sealed|
  {
    Chained(k + 1, HeadAt(h, genesis, sealed, k), HeadAt(h, genesis, sealed, k + 1), sealed[k])
  }

  /** The first n rows of a chain as they are read back. */
  function ReadFirst(h: Hash, genesis: string, sealed: seq<ChainRow>, n: nat): (rows: seq<Chained>)
    requires n <= |sealed|
    ensures |rows| == n
    ensures forall k | 0 <= k < n :: rows[k] == ChainedAt(h, genesis, sealed, k)
  {
    if n == 0 then [] else ReadFirst(h, genesis, sealed, n - 1) + [ChainedAt(h, genesis, sealed, n - 1)]
  }

  function ReadBack(h: Hash, genesis: string, sealed: seq<ChainRow>): seq<Chained> {
    ReadFirst(h, genesis, sealed, |sealed|)
  }

  /** The table's sealed rows in order of position. */
  predicate ReadsAs(c: Chain, rows: seq<Chained>) {
    && Ordered(rows)
    && (forall i | 0 <= i < |c.rows| && c.rows[i].seal.Some? ::
          ToChained(c.rows[i]) in rows)
    && (forall k | 0 <= k < |rows| :: ReadFrom(c, rows[k]))
  }

  function ToChained(e: Entry): Chained
    requires e.seal.Some?
  {
    Chained(e.seal.value.seqNo, e.seal.value.prev, e.seal.value.hash, e.row)
  }

  predicate ReadFrom(c: Chain, r: Chained) {
    exists i | 0 <= i < |c.rows| :: c.rows[i].seal.Some? && ToChained(c.rows[i]) == r
  }

  lemma {:induction false} SealedIsRead(h: Hash, c: Chain, sealed: seq<ChainRow>, i: nat)
    requires Represents(h, c, sealed) && i < |c.rows| && c.rows[i].seal.Some?
    ensures
      var k := c.rows[i].seal.value.seqNo - 1;
      0 <= k < |sealed| && ReadBack(h, c.genesis, sealed)[k] == ToChained(c.rows[i])
  {
    assert Placed(h, c, sealed, i);
  }

  lemma {:induction false} ReadIsSealed(h: Hash, c: Chain, sealed: seq<ChainRow>, k: nat)
    requires Represents(h, c, sealed) && k < |sealed|
    ensures ReadFrom(c, ReadBack(h, c.genesis, sealed)[k])
  {
    assert Occupied(c, k + 1);
    var i :| 0 <= i < |c.rows| && c.rows[i].seal.Some? && c.rows[i].seal.value.seqNo == k + 1;
    SealedIsRead(h, c, sealed, i);
  }

  /** A table that represents a chain reads back as that chain. */
  lemma {:induction false} RepresentedReadsBack(h: Hash, c: Chain, sealed: seq<ChainRow>)
    requires Represents(h, c, sealed)
    ensures ReadsAs(c, ReadBack(h, c.genesis, sealed))
  {
    var rows := ReadBack(h, c.genesis, sealed);
    forall i | 0 <= i < |c.rows| && c.rows[i].seal.Some?
      ensures ToChained(c.rows[i]) in rows
    {
      SealedIsRead(h, c, sealed, i);
      assert rows[c.rows[i].seal.value.seqNo - 1] in rows;
    }
    forall k | 0 <= k < |rows| ensures ReadFrom(c, rows[k]) { ReadIsSealed(h, c, sealed, k); }
  }

  /** Every reachable chain is accepted, also against the bookmark of any earlier state. */
  lemma {:induction false} ReachableIsAccepted(h: Hash, genesis: string, recorded: seq<ChainRow>, sealed: seq<ChainRow>)
    requires recorded <= sealed
    ensures Accepts(h, genesis, ReadBack(h, genesis, sealed), |recorded|, HeadAfter(h, genesis, recorded))
  {
    var rows := ReadBack(h, genesis, sealed);
    forall k | 0 <= k < |rows| ensures LinkHolds(h, genesis, rows, k) { }
    if |rows| == |recorded| { assert recorded == sealed; }
  }

  lemma {:induction false} GenesisStays(h: Hash, c: Chain, events: seq<Event>)
    ensures Run(h, c, events).genesis == c.genesis
    decreases |events|
  {
    if events != [] { GenesisStays(h, Step(h, c, events[0]), events[1..]); }
  }

  /** From an empty table on: whatever is inserted and sealed, the table reads back as rows that
      are accepted, against the bookmark of any moment before. */
  lemma {:induction false} VerifiesFromEmpty(h: Hash, genesis: string, before: seq<Event>, after: seq<Event>)
    returns (rows: seq<Chained>)
    ensures
      var start := Run(h, Fresh(genesis), before);
      ReadsAs(Run(h, start, after), rows) && Accepts(h, genesis, rows, start.lastSeq, start.head)
  {
    var start := Run(h, Fresh(genesis), before);
    FreshRepresents(h, genesis);
    var recorded := RunKeepsChain(h, Fresh(genesis), [], before);
    var sealed := RunKeepsChain(h, start, recorded, after);
    GenesisStays(h, Fresh(genesis), before);
    GenesisStays(h, start, after);
    rows := ReadBack(h, genesis, sealed);
    RepresentedReadsBack(h, Run(h, start, after), sealed);
    ReachableIsAccepted(h, genesis, recorded, sealed);
  }

  // ---- the replay, page by page --------------------------------------------------------------

  /** One page: the rows past a position, in order, as far as the limit goes. */
  function Past(rows: seq<Chained>, seqNo: int): seq<Chained> {
    if rows == [] || rows[0].seqNo > seqNo then rows else Past(rows[1..], seqNo)
  }

  function Page(rows: seq<Chained>, seqNo: int, limit: nat): seq<Chained> {
    var past := Past(rows, seqNo);
    if |past| <= limit then past else past[..limit]
  }

  const PageSize := 1000

  /** While the first n rows have been found at their places, what is past them is the rest. */
  lemma {:induction false} PastFound(rows: seq<Chained>, n: nat)
    requires Ordered(rows) && n <= |rows| && forall k | 0 <= k < n :: rows[k].seqNo == k + 1
    requires rows != [] ==> rows[0].seqNo > 0
    ensures Past(rows, n) == rows[n..]
  {
    if 0 < n < |rows| { assert rows[n - 1].seqNo < rows[n].seqNo; }
    PastDrops(rows, n, n);
  }

  lemma {:induction false} PastDrops(rows: seq<Chained>, seqNo: int, n: nat)
    requires n <= |rows| && (forall k | 0 <= k < n :: rows[k].seqNo <= seqNo) && (n < |rows| ==> rows[n].seqNo > seqNo)
    ensures Past(rows, seqNo) == rows[n..]
  {
    if n > 0 {
      PastDrops(rows[1..], seqNo, n - 1);
    }
  }

  /** Later reads see everything earlier reads saw, and possibly more. */
  predicate Growing(pages: seq<seq<Chained>>) {
    pages != [] && forall i, j | 0 <= i <= j < |pages| :: pages[i] <= pages[j]
  }

  predicate Readable(rows: seq<Chained>) {
    Ordered(rows) && (rows != [] ==> rows[0].seqNo > 0)
  }

  predicate HoldUpTo(h: Hash, genesis: string, rows: seq<Chained>, n: nat) {
    n <= |rows| && forall k | 0 <= k < n :: LinkHolds(h, genesis, rows, k)
  }

  /** The page after n verified rows. */
  lemma {:induction false} NextPage(h: Hash, genesis: string, rows: seq<Chained>, n: nat)
    requires Readable(rows) && HoldUpTo(h, genesis, rows, n)
    ensures Page(rows, n, PageSize) == rows[n..if |rows| - n <= PageSize then |rows| else n + PageSize]
  {
    forall k | 0 <= k < n ensures rows[k].seqNo == k + 1 { assert LinkHolds(h, genesis, rows, k); }
    PastFound(rows, n);
  }

  /** Checks one page against the running head; stops at the first link that does not hold. */
  method VerifyPage(h: Hash, genesis: string, page: seq<Chained>, start: nat, startHead: string,
                    ghost all: seq<Chained>)
    returns (broken: Option<Verdict>, lastSeq: int, head: string)
    requires start + |page| <= |all| && page == all[start..start + |page|]
    requires HoldUpTo(h, genesis, all, start) && startHead == RunningHead(all, genesis, start)
    ensures broken.None? ==>
      lastSeq == start + |page| && HoldUpTo(h, genesis, all, lastSeq) && head == RunningHead(all, genesis, lastSeq)
    ensures broken.Some? ==>
      && broken.value.Broken? && broken.value.reason != HeadMismatch
      && 0 <= lastSeq < |all| && HoldUpTo(h, genesis, all, lastSeq) && !LinkHolds(h, genesis, all, lastSeq)
      && broken.value.seqNo == all[lastSeq].seqNo
  {
    head, lastSeq := startHead, start;
    var expected := start + 1;
    for j := 0 to |page|
      invariant lastSeq == start + j && expected == lastSeq + 1
      invariant HoldUpTo(h, genesis, all, lastSeq) && head == RunningHead(all, genesis, lastSeq)
    {
      var ct := page[j];
      assert ct == all[lastSeq];
      if ct.seqNo != expected { return Some(Broken(ct.seqNo, NonContiguous)), lastSeq, head; }
      if ct.prev != head { return Some(Broken(ct.seqNo, PrevMismatch)), lastSeq, head; }
      if ComputeHash(h, head, ct.row) != ct.hash { return Some(Broken(ct.seqNo, HashMismatch)), lastSeq, head; }
      assert LinkHolds(h, genesis, all, lastSeq);
      head, lastSeq, expected := ct.hash, ct.seqNo, expected + 1;
    }
    broken := None;
  }

  /** The rows the paged query can hand out: it starts past position 0, so a row at a position
      of 0 or less is never looked at. */
  function Visible(rows: seq<Chained>): seq<Chained> {
    Past(rows, 0)
  }

  lemma {:induction false} VisibleReadable(rows: seq<Chained>)
    requires Ordered(rows)
    ensures Readable(Visible(rows))
  {
    if rows != [] && rows[0].seqNo <= 0 { VisibleReadable(rows[1..]); }
  }

  lemma {:induction false} VisiblePage(rows: seq<Chained>, seqNo: nat)
    ensures Past(rows, seqNo) == Past(Visible(rows), seqNo)
  {
    if rows != [] && rows[0].seqNo <= 0 { VisiblePage(rows[1..], seqNo); }
  }

  lemma {:induction false} VisibleGrows(rows: seq<Chained>, more: seq<Chained>)
    requires rows <= more
    ensures Visible(rows) <= Visible(more)
  {
    if rows != [] && rows[0].seqNo <= 0 {
      assert more[1..][..|rows| - 1] == rows[1..];
      VisibleGrows(rows[1..], more[1..]);
    }
  }

  /** What a verdict says about the rows it was reached on: success means that they are
      accepted, with their length and head, and a reported break is the first link that does
      not hold. */
  predicate Judges(h: Hash, genesis: string, rows: seq<Chained>, recordedLen: int, recordedHead: string, v: Verdict) {
    && (v.Verified? <==> Accepts(h, genesis, rows, recordedLen, recordedHead))
    && (v.Verified? ==> v.lastSeq == |rows| && v.head == RunningHead(rows, genesis, |rows|))
    && (v.Broken? && v.reason == HeadMismatch ==> AllHold(h, genesis, rows) && v.seqNo == |rows|)
    && (v.Broken? && v.reason != HeadMismatch ==>
          exists k | 0 <= k < |rows| ::
            HoldUpTo(h, genesis, rows, k) && !LinkHolds(h, genesis, rows, k) && v.seqNo == rows[k].seqNo)
  }

  /** The verifier. Page i is read from `pages[i]`, the last of them standing for every read
      after it: sealing may go on between the reads. The verdict is that of one read of
      everything the query can see. */
  method VerifyChain(h: Hash, genesis: string, recordedLen: int, recordedHead: string, pages: seq<seq<Chained>>)
    returns (v: Verdict)
    requires Growing(pages) && forall i | 0 <= i < |pages| :: Ordered(pages[i])
    ensures exists at | 0 <= at < |pages| :: Judges(h, genesis, Visible(pages[at]), recordedLen, recordedHead, v)
  {
    var head, lastSeq, i := genesis, 0, 0;
    while true
      invariant 0 <= i < |pages| && lastSeq >= 0
      invariant HoldUpTo(h, genesis, Visible(pages[i]), lastSeq)
      invariant head == RunningHead(Visible(pages[i]), genesis, lastSeq)
      decreases |pages| - i, |Visible(pages[i])| - lastSeq
    {
      ghost var seen := Visible(pages[i]);
      VisibleReadable(pages[i]);
      VisiblePage(pages[i], lastSeq);
      NextPage(h, genesis, seen, lastSeq);
      var page := Page(pages[i], lastSeq, PageSize);
      if |page| == 0 { break; }
      var broken;
      broken, lastSeq, head := VerifyPage(h, genesis, page, lastSeq, head, seen);
      if broken.Some? {
        assert Judges(h, genesis, seen, recordedLen, recordedHead, broken.value);
        return broken.value;
      }
      if i + 1 < |pages| {
        VisibleGrows(pages[i], pages[i + 1]);
        LinksCarryOver(h, genesis, seen, Visible(pages[i + 1]), lastSeq);
        i := i + 1;
      }
    }
    if lastSeq == recordedLen && head != recordedHead {
      v := Broken(lastSeq, HeadMismatch);
    } else {
      v := Verified(lastSeq, head);
    }
    assert Judges(h, genesis, Visible(pages[i]), recordedLen, recordedHead, v);
  }

  lemma {:induction false} LinksCarryOver(h: Hash, genesis: string, rows: seq<Chained>, more: seq<Chained>, n: nat)
    requires rows <= more && n <= |rows| && forall k | 0 <= k < n :: LinkHolds(h, genesis, rows, k)
    ensures RunningHead(more, genesis, n) == RunningHead(rows, genesis, n)
    ensures forall k | 0 <= k < n :: LinkHolds(h, genesis, more, k)
  {
    forall k | 0 <= k < n ensures LinkHolds(h, genesis, more, k) { assert LinkHolds(h, genesis, rows, k); }
  }

  lemma {:induction false} ReadBackGrows(h: Hash, genesis: string, sealed: seq<ChainRow>, longer: seq<ChainRow>)
    requires sealed <= longer
    ensures ReadBack(h, genesis, sealed) <= ReadBack(h, genesis, longer)
  {
    forall k | 0 <= k < |sealed|
      ensures ReadBack(h, genesis, sealed)[k] == ReadBack(h, genesis, longer)[k]
    {
      HeadStays(h, genesis, sealed, longer, k);
      HeadStays(h, genesis, sealed, longer, k + 1);
    }
  }

  /** Pages read while sealing goes on meet what the verifier asks of them, and every verdict
      it can come to on them is success: it only ever sees longer and longer pieces of one
      chain, whose bookmark it took at the start. */
  lemma {:induction false} VerifiesWhileSealing(h: Hash, genesis: string, recorded: seq<ChainRow>,
                                                chains: seq<seq<ChainRow>>, pages: seq<seq<Chained>>)
    requires chains != [] && recorded <= chains[0] && forall i, j | 0 <= i <= j < |chains| :: chains[i] <= chains[j]
    requires |pages| == |chains| && forall i | 0 <= i < |chains| :: pages[i] == ReadBack(h, genesis, chains[i])
    ensures Growing(pages) && forall i | 0 <= i < |pages| :: Ordered(pages[i])
    ensures forall at | 0 <= at < |pages| ::
      Visible(pages[at]) == pages[at] && Accepts(h, genesis, pages[at], |recorded|, HeadAfter(h, genesis, recorded))
  {
    forall i, j | 0 <= i <= j < |pages| ensures pages[i] <= pages[j] {
      ReadBackGrows(h, genesis, chains[i], chains[j]);
    }
    forall at | 0 <= at < |pages|
      ensures Visible(pages[at]) == pages[at]
        && Accepts(h, genesis, pages[at], |recorded|, HeadAfter(h, genesis, recorded))
    {
      assert chains[0] <= chains[at];
      ReachableIsAccepted(h, genesis, recorded, chains[at]);
    }
  }
}
