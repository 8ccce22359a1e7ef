/** Sealing batches of transactions into the chain and replaying the chain page by page
    (database/chain.go:40-181, chain_worker.go:131-218). */
module Sealing {
  import opened Wrappers
  import opened HashChain

  /** The chain columns of a sealed transaction. */
  datatype Link = Link(seqNo: int, prev: string, hash: string)

  /** A transaction row; rows are kept in id order. */
  datatype Entry = Entry(row: ChainRow, createdAt: int, seal: Option<Link>)

  /** The transaction table and the chain_state bookmark. */
  datatype Chain = Chain(rows: seq<Entry>, lastSeq: int, head: string, genesis: string)

  /** A link about to be written to the row at `index`. */
  datatype Writing = Writing(index: nat, link: Link)

  predicate Pending(e: Entry, cutoff: int) {
    e.seal.None? && e.createdAt < cutoff
  }

  function HeadOf(links: seq<Writing>, head: string): string {
    if links == [] then head else links[|links| - 1].link.hash
  }

  /** The links one batch makes of the first n rows: the pending ones, in id order, as far as
      the limit goes. */
  function Links(h: Hash, c: Chain, cutoff: int, limit: int, n: nat): seq<Writing>
    requires n <= |c.rows|
  {
    if n == 0 then []
    else
      var links := Links(h, c, cutoff, limit, n - 1);
      if Pending(c.rows[n - 1], cutoff) && |links| < limit then
        var prev := HeadOf(links, c.head);
        links + [Writing(n - 1, Link(c.lastSeq + |links| + 1, prev, ComputeHash(h, prev, c.rows[n - 1].row)))]
      else links
  }

  function Written(rows: seq<Entry>, links: seq<Writing>): (out: seq<Entry>)
    ensures |out| == |rows|
  {
    if links == [] then rows
    else
      var out, last := Written(rows, links[..|links| - 1]), links[|links| - 1];
      if last.index < |out| then out[last.index := out[last.index].(seal := Some(last.link))] else out
  }

  /** One batch. */
  function Sealed(h: Hash, c: Chain, cutoff: int, limit: int): Chain {
    var links := Links(h, c, cutoff, limit, |c.rows|);
    c.(rows := Written(c.rows, links), lastSeq := c.lastSeq + |links|, head := HeadOf(links, c.head))
  }

  // ---- what a chain is --------------------------------------------------------------------

  /** The head after sealing the first k of `sealed` in order. */
  function HeadAt(h: Hash, genesis: string, sealed: seq<ChainRow>, k: nat): string
    requires k <= |sealed|
  {
    if k == 0 then genesis else ComputeHash(h, HeadAt(h, genesis, sealed, k - 1), sealed[k - 1])
  }

  function HeadAfter(h: Hash, genesis: string, sealed: seq<ChainRow>): string {
    HeadAt(h, genesis, sealed, |sealed|)
  }

  function LinkAt(h: Hash, genesis: string, sealed: seq<ChainRow>, k: nat): Link
    requires k < |sealed|
  {
    Link(k + 1, HeadAt(h, genesis, sealed, k), HeadAt(h, genesis, sealed, k + 1))
  }

  predicate Placed(h: Hash, c: Chain, sealed: seq<ChainRow>, i: nat)
    requires i < |c.rows|
  {
    c.rows[i].seal.Some? ==>
      var s := c.rows[i].seal.value.seqNo;
      1 <= s <= |sealed| && sealed[s - 1] == c.rows[i].row
        && c.rows[i].seal.value == LinkAt(h, c.genesis, sealed, s - 1)
  }

  predicate Occupied(c: Chain, s: int) {
    exists i | 0 <= i < |c.rows| :: c.rows[i].seal.Some? && c.rows[i].seal.value.seqNo == s
  }

  predicate OnePerPosition(c: Chain) {
    forall i, j | 0 <= i < j < |c.rows| && c.rows[i].seal.Some? && c.rows[j].seal.Some? ::
      c.rows[i].seal.value.seqNo != c.rows[j].seal.value.seqNo
  }

  /** The sealed rows are in bijection with the positions 1..last_seq, each linked to its
      predecessor, and the bookmark records the length and the head. */
  predicate Represents(h: Hash, c: Chain, sealed: seq<ChainRow>) {
    && c.lastSeq == |sealed| && c.head == HeadAfter(h, c.genesis, sealed)
    && (forall i | 0 <= i < |c.rows| :: Placed(h, c, sealed, i))
    && OnePerPosition(c)
    && (forall s | 1 <= s <= |sealed| :: Occupied(c, s))
  }

  predicate InOrder(c: Chain, links: seq<Writing>, n: nat) {
    && n <= |c.rows|
    && (forall k | 0 <= k < |links| :: links[k].index < n && c.rows[links[k].index].seal.None?)
    && (forall k, l | 0 <= k < l < |links| :: links[k].index < links[l].index)
  }

  lemma {:induction false} LinksInOrder(h: Hash, c: Chain, cutoff: int, limit: int, n: nat)
    requires n <= |c.rows|
    ensures InOrder(c, Links(h, c, cutoff, limit, n), n)
  {
    if n > 0 {
      LinksInOrder(h, c, cutoff, limit, n - 1);
    }
  }

  /** A longer chain has the same heads as far as the shorter one goes. */
  lemma {:induction false} HeadStays(h: Hash, genesis: string, sealed: seq<ChainRow>, longer: seq<ChainRow>, k: nat)
    requires sealed <= longer && k <= |sealed|
    ensures HeadAt(h, genesis, longer, k) == HeadAt(h, genesis, sealed, k)
  {
    if k > 0 {
      HeadStays(h, genesis, sealed, longer, k - 1);
    }
  }

  /** The k-th link of a batch is the link of the chain `all` at its position. */
  predicate LinkedAt(h: Hash, c: Chain, all: seq<ChainRow>, links: seq<Writing>, k: nat)
    requires k < |links|
  {
    var p := c.lastSeq + k;
    && 0 <= p < |all| && links[k].index < |c.rows|
    && all[p] == c.rows[links[k].index].row && links[k].link == LinkAt(h, c.genesis, all, p)
  }

  /** A batch's links extend the chain to `all`. */
  predicate Continues(h: Hash, c: Chain, all: seq<ChainRow>, links: seq<Writing>) {
    && |all| == c.lastSeq + |links| && HeadOf(links, c.head) == HeadAfter(h, c.genesis, all)
    && forall k | 0 <= k < |links| :: LinkedAt(h, c, all, links, k)
  }

  lemma {:induction false} LinksContinue(h: Hash, c: Chain, sealed: seq<ChainRow>, cutoff: int, limit: int, n: nat)
    returns (all: seq<ChainRow>)
    requires n <= |c.rows| && c.lastSeq == |sealed| && c.head == HeadAfter(h, c.genesis, sealed)
    ensures sealed <= all && Continues(h, c, all, Links(h, c, cutoff, limit, n))
  {
    if n == 0 {
      all := sealed;
    } else {
      all := LinksContinue(h, c, sealed, cutoff, limit, n - 1);
      var before, links := Links(h, c, cutoff, limit, n - 1), Links(h, c, cutoff, limit, n);
      if links != before {
        LinksInOrder(h, c, cutoff, limit, n);
        OneMoreLink(h, c, all, before, links);
        all := all + [c.rows[n - 1].row];
      }
    }
  }

  lemma {:induction false} OneMoreLink(h: Hash, c: Chain, all: seq<ChainRow>, before: seq<Writing>, links: seq<Writing>)
    requires Continues(h, c, all, before) && |links| == |before| + 1 && links[..|before|] == before
    requires links[|before|].index < |c.rows|
    requires
      var row := c.rows[links[|before|].index].row;
      links[|before|].link == Link(|all| + 1, HeadOf(before, c.head), ComputeHash(h, HeadOf(before, c.head), row))
    ensures Continues(h, c, all + [c.rows[links[|before|].index].row], links)
  {
    var n, row := |before|, c.rows[links[|before|].index].row;
    var longer := all + [row];
    HeadStays(h, c.genesis, all, longer, |all|);
    assert LinkedAt(h, c, longer, links, n);
    forall k | 0 <= k < n
      ensures LinkedAt(h, c, longer, links, k)
    {
      assert LinkedAt(h, c, all, before, k);
      HeadStays(h, c.genesis, all, longer, c.lastSeq + k);
      HeadStays(h, c.genesis, all, longer, c.lastSeq + k + 1);
    }
  }

  lemma {:induction false} WrittenAt(rows: seq<Entry>, links: seq<Writing>, i: nat)
    requires i < |rows|
    requires forall k, l | 0 <= k < l < |links| :: links[k].index < links[l].index
    ensures Written(rows, links)[i].row == rows[i].row && Written(rows, links)[i].createdAt == rows[i].createdAt
    ensures (forall k | 0 <= k < |links| :: links[k].index != i) ==> Written(rows, links)[i] == rows[i]
    ensures forall k | 0 <= k < |links| :: links[k].index == i ==> Written(rows, links)[i].seal == Some(links[k].link)
  {
    if links != [] {
      WrittenAt(rows, links[..|links| - 1], i);
    }
  }

  // ---- sealing keeps the chain --------------------------------------------------------------

  predicate Extends(h: Hash, c: Chain, sealed: seq<ChainRow>, links: seq<Writing>, after: Chain, all: seq<ChainRow>) {
    && Represents(h, c, sealed) && sealed <= all && Continues(h, c, all, links) && InOrder(c, links, |c.rows|)
    && after.rows == Written(c.rows, links) && after.genesis == c.genesis
  }

  /** What a batch does to row i: nothing, or the link that names it. */
  lemma {:induction false} RowAfter(h: Hash, c: Chain, sealed: seq<ChainRow>, links: seq<Writing>, after: Chain,
                                    all: seq<ChainRow>, i: nat)
    returns (k: int)
    requires Extends(h, c, sealed, links, after, all) && i < |c.rows|
    ensures after.rows[i].row == c.rows[i].row
    ensures k < 0 ==> after.rows[i] == c.rows[i]
    ensures k >= 0 ==>
      k < |links| && links[k].index == i && c.rows[i].seal.None? && after.rows[i].seal == Some(links[k].link)
  {
    WrittenAt(c.rows, links, i);
    if j :| 0 <= j < |links| && links[j].index == i {
      k := j;
    } else {
      k := -1;
    }
  }

  lemma {:induction false} SealKeepsPlaced(h: Hash, c: Chain, sealed: seq<ChainRow>, links: seq<Writing>, after: Chain,
                                           all: seq<ChainRow>, i: nat)
    requires Extends(h, c, sealed, links, after, all) && i < |c.rows|
    ensures Placed(h, after, all, i)
  {
    var k := RowAfter(h, c, sealed, links, after, all, i);
    if k >= 0 {
      assert LinkedAt(h, c, all, links, k);
    } else {
      assert Placed(h, c, sealed, i);
      if c.rows[i].seal.Some? {
        var s := c.rows[i].seal.value.seqNo;
        HeadStays(h, c.genesis, sealed, all, s - 1);
        HeadStays(h, c.genesis, sealed, all, s);
      }
    }
  }

  lemma {:induction false} SealKeepsApart(h: Hash, c: Chain, sealed: seq<ChainRow>, links: seq<Writing>, after: Chain,
                                          all: seq<ChainRow>, i: nat, j: nat)
    requires Extends(h, c, sealed, links, after, all) && i < j < |c.rows|
    requires after.rows[i].seal.Some? && after.rows[j].seal.Some?
    ensures after.rows[i].seal.value.seqNo != after.rows[j].seal.value.seqNo
  {
    var k := RowAfter(h, c, sealed, links, after, all, i);
    var l := RowAfter(h, c, sealed, links, after, all, j);
    if k >= 0 { assert LinkedAt(h, c, all, links, k); } else { assert Placed(h, c, sealed, i); }
    if l >= 0 { assert LinkedAt(h, c, all, links, l); } else { assert Placed(h, c, sealed, j); }
  }

  lemma {:induction false} SealOccupies(h: Hash, c: Chain, sealed: seq<ChainRow>, links: seq<Writing>, after: Chain,
                                        all: seq<ChainRow>, s: int)
    requires Extends(h, c, sealed, links, after, all) && 1 <= s <= |all|
    ensures Occupied(after, s)
  {
    if s <= |sealed| {
      assert Occupied(c, s);
      var i :| 0 <= i < |c.rows| && c.rows[i].seal.Some? && c.rows[i].seal.value.seqNo == s;
      var k := RowAfter(h, c, sealed, links, after, all, i);
    } else {
      var k := s - |sealed| - 1;
      assert LinkedAt(h, c, all, links, k);
      WrittenAt(c.rows, links, links[k].index);
      assert after.rows[links[k].index].seal == Some(links[k].link);
    }
  }

  /** A batch extends the chain by the rows it takes. */
  lemma {:induction false} SealExtends(h: Hash, c: Chain, sealed: seq<ChainRow>, cutoff: int, limit: int)
    returns (all: seq<ChainRow>)
    requires Represents(h, c, sealed)
    ensures sealed <= all && Represents(h, Sealed(h, c, cutoff, limit), all)
  {
    var links := Links(h, c, cutoff, limit, |c.rows|);
    var after := Sealed(h, c, cutoff, limit);
    LinksInOrder(h, c, cutoff, limit, |c.rows|);
    all := LinksContinue(h, c, sealed, cutoff, limit, |c.rows|);
    forall i | 0 <= i < |after.rows| ensures Placed(h, after, all, i) {
      SealKeepsPlaced(h, c, sealed, links, after, all, i);
    }
    forall i, j | 0 <= i < j < |after.rows| && after.rows[i].seal.Some? && after.rows[j].seal.Some?
      ensures after.rows[i].seal.value.seqNo != after.rows[j].seal.value.seqNo
    {
      SealKeepsApart(h, c, sealed, links, after, all, i, j);
    }
    forall s | 1 <= s <= |all| ensures Occupied(after, s) { SealOccupies(h, c, sealed, links, after, all, s); }
  }

  /** A new transaction becomes visible at any place in id order: ids are handed out before
      transactions commit. */
  function Inserted(c: Chain, at: nat, row: ChainRow, createdAt: int): Chain
    requires at <= |c.rows|
  {
    c.(rows := c.rows[..at] + [Entry(row, createdAt, None)] + c.rows[at..])
  }

  lemma {:induction false} StaysOccupied(c: Chain, at: nat, row: ChainRow, createdAt: int, s: int)
    requires at <= |c.rows| && Occupied(c, s)
    ensures Occupied(Inserted(c, at, row, createdAt), s)
  {
    var i :| 0 <= i < |c.rows| && c.rows[i].seal.Some? && c.rows[i].seal.value.seqNo == s;
    var j := if i < at then i else i + 1;
    assert Inserted(c, at, row, createdAt).rows[j] == c.rows[i];
  }

  lemma {:induction false} InsertKeeps(h: Hash, c: Chain, sealed: seq<ChainRow>, at: nat, row: ChainRow, createdAt: int)
    requires Represents(h, c, sealed) && at <= |c.rows|
    ensures Represents(h, Inserted(c, at, row, createdAt), sealed)
  {
    var after := Inserted(c, at, row, createdAt);
    forall i | 0 <= i < |after.rows|
      ensures Placed(h, after, sealed, i)
    {
      if i < at { assert Placed(h, c, sealed, i); }
      if i > at { assert Placed(h, c, sealed, i - 1); }
    }
    forall s | 1 <= s <= |sealed| ensures Occupied(after, s) { StaysOccupied(c, at, row, createdAt, s); }
  }

  datatype Event = Insert(at: nat, row: ChainRow, createdAt: int) | Seal(cutoff: int, limit: int)

  function Step(h: Hash, c: Chain, e: Event): Chain {
    match e
    case Insert(at, row, createdAt) => if at <= |c.rows| then Inserted(c, at, row, createdAt) else c
    case Seal(cutoff, limit) => Sealed(h, c, cutoff, limit)
  }

  function Run(h: Hash, c: Chain, events: seq<Event>): Chain
    decreases |events|
  {
    if events == [] then c else Run(h, Step(h, c, events[0]), events[1..])
  }

  /** Over any interleaving of inserts and batches, with any cutoffs and batch sizes, the chain
      only grows and stays a chain. */
  lemma {:induction false} RunKeepsChain(h: Hash, c: Chain, sealed: seq<ChainRow>, events: seq<Event>)
    returns (longer: seq<ChainRow>)
    requires Represents(h, c, sealed)
    ensures sealed <= longer && Represents(h, Run(h, c, events), longer)
    decreases |events|
  {
    if events == [] {
      longer := sealed;
    } else {
      var next := sealed;
      match events[0] {
        case Insert(at, row, createdAt) =>
          if at <= |c.rows| { InsertKeeps(h, c, sealed, at, row, createdAt); }
        case Seal(cutoff, limit) => next := SealExtends(h, c, sealed, cutoff, limit);
      }
      longer := RunKeepsChain(h, Step(h, c, events[0]), next, events[1..]);
    }
  }

  function Fresh(genesis: string): Chain {
    Chain([], 0, genesis, genesis)
  }

  lemma {:induction false} FreshRepresents(h: Hash, genesis: string)
    ensures Represents(h, Fresh(genesis), [])
  {
  }

  // ---- batching does not matter ---------------------------------------------------------------

  lemma {:induction false} LinksBounded(h: Hash, c: Chain, cutoff: int, limit: int, n: nat, m: nat)
    requires n <= m <= |c.rows| && limit >= 0
    ensures |Links(h, c, cutoff, limit, n)| <= limit
    ensures Links(h, c, cutoff, limit, n) <= Links(h, c, cutoff, limit, m)
    decreases m
  {
    if n < m {
      LinksBounded(h, c, cutoff, limit, n, m - 1);
    } else if n > 0 {
      LinksBounded(h, c, cutoff, limit, n - 1, n - 1);
    }
  }

  /** A row that a batch has room for is sealed by it. */
  lemma {:induction false} ReachedRow(h: Hash, c: Chain, cutoff: int, a: int, i: nat)
    requires i < |c.rows| && a >= 0 && Pending(c.rows[i], cutoff) && |Links(h, c, cutoff, a, i)| < a
    ensures Sealed(h, c, cutoff, a).rows[i].seal.Some? && Sealed(h, c, cutoff, a).rows[i].row == c.rows[i].row
  {
    var links, k := Links(h, c, cutoff, a, |c.rows|), |Links(h, c, cutoff, a, i)|;
    LinksInOrder(h, c, cutoff, a, |c.rows|);
    LinksBounded(h, c, cutoff, a, i + 1, |c.rows|);
    assert links[k] == Links(h, c, cutoff, a, i + 1)[k];
    WrittenAt(c.rows, links, i);
  }

  /** A row that a batch skips or does not get to stays as it is. */
  lemma {:induction false} UnreachedRow(h: Hash, c: Chain, cutoff: int, a: int, i: nat)
    requires i < |c.rows| && a >= 0 && !(Pending(c.rows[i], cutoff) && |Links(h, c, cutoff, a, i)| < a)
    ensures Sealed(h, c, cutoff, a).rows[i] == c.rows[i]
  {
    var links, before := Links(h, c, cutoff, a, |c.rows|), Links(h, c, cutoff, a, i);
    LinksInOrder(h, c, cutoff, a, |c.rows|);
    LinksInOrder(h, c, cutoff, a, i);
    LinksBounded(h, c, cutoff, a, i, |c.rows|);
    forall k | 0 <= k < |links|
      ensures links[k].index != i
    {
      if k < |before| {
        assert links[k] == before[k];
      } else {
        assert Links(h, c, cutoff, a, i + 1) == before;
        LinkIndexPast(h, c, cutoff, a, i + 1, |c.rows|, k);
      }
    }
    WrittenAt(c.rows, links, i);
  }

  /** How many of the first n rows are unsealed and older than the cutoff. */
  function Waiting(rows: seq<Entry>, cutoff: int, n: nat): nat
    requires n <= |rows|
  {
    if n == 0 then 0
    else Waiting(rows, cutoff, n - 1) + if rows[n - 1].seal.None? && rows[n - 1].createdAt < cutoff then 1 else 0
  }

  lemma {:induction false} AsManyLinks(h: Hash, c: Chain, cutoff: int, limit: nat, n: nat)
    requires n <= |c.rows|
    ensures |Links(h, c, cutoff, limit, n)| ==
      if Waiting(c.rows, cutoff, n) < limit then Waiting(c.rows, cutoff, n) else limit
  {
    if n > 0 {
      AsManyLinks(h, c, cutoff, limit, n - 1);
    }
  }

  /** What one batch seals: of the unsealed rows older than the cutoff the first ones in id order, as
      many as the limit allows. A row at or after the cutoff stays unsealed, and a sealed one as it is. */
  lemma {:induction false} SealsTheOldest(h: Hash, c: Chain, cutoff: int, limit: nat, i: nat)
    requires i < |c.rows|
    ensures
      var before, after := c.rows[i], Sealed(h, c, cutoff, limit).rows[i];
      && after.row == before.row && after.createdAt == before.createdAt
      && if before.seal.Some? then after.seal == before.seal
         else after.seal.Some? <==> before.createdAt < cutoff && Waiting(c.rows, cutoff, i) < limit
  {
    AsManyLinks(h, c, cutoff, limit, i);
    if Pending(c.rows[i], cutoff) && |Links(h, c, cutoff, limit, i)| < limit {
      ReachedRow(h, c, cutoff, limit, i);
      LinksInOrder(h, c, cutoff, limit, |c.rows|);
      WrittenAt(c.rows, Links(h, c, cutoff, limit, |c.rows|), i);
    } else {
      UnreachedRow(h, c, cutoff, limit, i);
    }
  }

  /** Row i is pending after a batch exactly when it was before and the batch did not reach
      it. */
  lemma {:induction false} StillPending(h: Hash, c: Chain, cutoff: int, a: int, i: nat)
    requires i < |c.rows| && a >= 0
    ensures
      var after := Sealed(h, c, cutoff, a);
      && after.rows[i].row == c.rows[i].row
      && (Pending(after.rows[i], cutoff) <==> Pending(c.rows[i], cutoff) && |Links(h, c, cutoff, a, i)| == a)
  {
    LinksBounded(h, c, cutoff, a, i, i);
    if Pending(c.rows[i], cutoff) && |Links(h, c, cutoff, a, i)| < a {
      ReachedRow(h, c, cutoff, a, i);
    } else {
      UnreachedRow(h, c, cutoff, a, i);
    }
  }

  /** Links beyond those of the first n rows belong to later rows. */
  lemma {:induction false} LinkIndexPast(h: Hash, c: Chain, cutoff: int, limit: int, n: nat, m: nat, k: nat)
    requires n <= m <= |c.rows| && |Links(h, c, cutoff, limit, n)| <= k < |Links(h, c, cutoff, limit, m)|
    ensures Links(h, c, cutoff, limit, m)[k].index >= n
    decreases m
  {
    if n < m && k < |Links(h, c, cutoff, limit, m - 1)| {
      LinkIndexPast(h, c, cutoff, limit, n, m - 1, k);
    }
  }

  /** The links of two batches in a row, as far as the first n rows. */
  predicate Composes(h: Hash, c: Chain, cutoff: int, a: int, b: int, n: nat)
    requires n <= |c.rows|
  {
    var after := Sealed(h, c, cutoff, a);
    && Links(h, c, cutoff, a + b, n) == Links(h, c, cutoff, a, n) + Links(h, after, cutoff, b, n)
    && (|Links(h, c, cutoff, a, n)| < a ==> Links(h, after, cutoff, b, n) == [])
  }

  /** A pending row goes to the first batch while that has room. */
  lemma {:induction false} FirstBatchTakes(h: Hash, c: Chain, cutoff: int, a: int, b: int, n: nat)
    requires a >= 0 && b >= 0 && 0 < n <= |c.rows| && Composes(h, c, cutoff, a, b, n - 1)
    requires Pending(c.rows[n - 1], cutoff) && |Links(h, c, cutoff, a, n - 1)| < a
    ensures Composes(h, c, cutoff, a, b, n)
  {
    var after, first := Sealed(h, c, cutoff, a), Links(h, c, cutoff, a, n - 1);
    StillPending(h, c, cutoff, a, n - 1);
    assert Links(h, after, cutoff, b, n) == Links(h, after, cutoff, b, n - 1) == [];
    assert first + [] == first;
    assert Links(h, c, cutoff, a + b, n) == Links(h, c, cutoff, a, n);
  }

  lemma {:induction false} HeadOfBoth(a: seq<Writing>, b: seq<Writing>, head: string)
    ensures HeadOf(a + b, head) == HeadOf(b, HeadOf(a, head))
  {
    if b == [] { assert a + b == a; }
  }

  /** Once the first batch is full, a pending row goes to the second while that has room. */
  lemma {:induction false} SecondBatchTakes(h: Hash, c: Chain, cutoff: int, a: int, b: int, n: nat)
    requires a >= 0 && b >= 0 && 0 < n <= |c.rows| && Composes(h, c, cutoff, a, b, n - 1)
    requires Pending(c.rows[n - 1], cutoff) && |Links(h, c, cutoff, a, n - 1)| == a
    ensures Composes(h, c, cutoff, a, b, n)
  {
    var after := Sealed(h, c, cutoff, a);
    var first, second := Links(h, c, cutoff, a, n - 1), Links(h, after, cutoff, b, n - 1);
    StillPending(h, c, cutoff, a, n - 1);
    LinksFull(h, c, cutoff, a, n - 1);
    assert HeadOf(first + second, c.head) == HeadOf(second, after.head) by { HeadOfBoth(first, second, c.head); }
    assert Pending(after.rows[n - 1], cutoff);
    var prev := HeadOf(second, after.head);
    var last := Writing(n - 1, Link(c.lastSeq + a + |second| + 1, prev, ComputeHash(h, prev, c.rows[n - 1].row)));
    assert first + (second + [last]) == (first + second) + [last];
  }

  lemma {:induction false} NeitherTakes(h: Hash, c: Chain, cutoff: int, a: int, b: int, n: nat)
    requires a >= 0 && b >= 0 && 0 < n <= |c.rows| && Composes(h, c, cutoff, a, b, n - 1)
    requires !Pending(c.rows[n - 1], cutoff)
    ensures Composes(h, c, cutoff, a, b, n)
  {
    StillPending(h, c, cutoff, a, n - 1);
  }

  lemma {:induction false} LinksCompose(h: Hash, c: Chain, cutoff: int, a: int, b: int, n: nat)
    requires a >= 0 && b >= 0 && n <= |c.rows|
    ensures Composes(h, c, cutoff, a, b, n)
  {
    if n > 0 {
      LinksCompose(h, c, cutoff, a, b, n - 1);
      LinksBounded(h, c, cutoff, a, n - 1, n - 1);
      if !Pending(c.rows[n - 1], cutoff) {
        NeitherTakes(h, c, cutoff, a, b, n);
      } else if |Links(h, c, cutoff, a, n - 1)| < a {
        FirstBatchTakes(h, c, cutoff, a, b, n);
      } else {
        SecondBatchTakes(h, c, cutoff, a, b, n);
      }
    }
  }

  /** A batch that is full stays as it is. */
  lemma {:induction false} LinksFull(h: Hash, c: Chain, cutoff: int, a: int, n: nat)
    requires a >= 0 && n <= |c.rows| && |Links(h, c, cutoff, a, n)| == a
    ensures Links(h, c, cutoff, a, |c.rows|) == Links(h, c, cutoff, a, n)
  {
    LinksBounded(h, c, cutoff, a, n, |c.rows|);
    LinksBounded(h, c, cutoff, a, |c.rows|, |c.rows|);
  }

  lemma {:induction false} WrittenCompose(rows: seq<Entry>, a: seq<Writing>, b: seq<Writing>)
    ensures Written(rows, a + b) == Written(Written(rows, a), b)
  {
    if b == [] {
      assert a + b == a;
    } else {
      assert (a + b)[..|a + b| - 1] == a + b[..|b| - 1];
      WrittenCompose(rows, a, b[..|b| - 1]);
    }
  }

  /** Two batches with one cutoff are one batch of their joint size. */
  lemma {:induction false} BatchesCompose(h: Hash, c: Chain, cutoff: int, a: int, b: int)
    requires a >= 0 && b >= 0
    ensures Sealed(h, Sealed(h, c, cutoff, a), cutoff, b) == Sealed(h, c, cutoff, a + b)
  {
    var after := Sealed(h, c, cutoff, a);
    var first, second := Links(h, c, cutoff, a, |c.rows|), Links(h, after, cutoff, b, |c.rows|);
    LinksCompose(h, c, cutoff, a, b, |c.rows|);
    WrittenCompose(c.rows, first, second);
  }

  function Batches(h: Hash, c: Chain, cutoff: int, sizes: seq<nat>): Chain {
    if sizes == [] then c else Sealed(h, Batches(h, c, cutoff, sizes[..|sizes| - 1]), cutoff, sizes[|sizes| - 1])
  }

  function SumOf(sizes: seq<nat>): nat {
    if sizes == [] then 0 else SumOf(sizes[..|sizes| - 1]) + sizes[|sizes| - 1]
  }

  lemma {:induction false} EmptyBatch(h: Hash, c: Chain, cutoff: int, n: nat)
    requires n <= |c.rows|
    ensures Links(h, c, cutoff, 0, n) == []
  {
    if n > 0 {
      EmptyBatch(h, c, cutoff, n - 1);
    }
  }

  /** However a pending set is cut into batches, the chain comes out the same. */
  lemma {:induction false} BatchingIrrelevant(h: Hash, c: Chain, cutoff: int, sizes: seq<nat>)
    ensures Batches(h, c, cutoff, sizes) == Sealed(h, c, cutoff, SumOf(sizes))
  {
    if sizes == [] {
      EmptyBatch(h, c, cutoff, |c.rows|);
    } else {
      BatchingIrrelevant(h, c, cutoff, sizes[..|sizes| - 1]);
      BatchesCompose(h, c, cutoff, SumOf(sizes[..|sizes| - 1]), sizes[|sizes| - 1]);
    }
  }

  /** A batch that did not fill up has caught up: a bigger one would have taken no more. */
  lemma {:induction false} CaughtUp(h: Hash, c: Chain, cutoff: int, a: int, b: int)
    requires 0 <= a <= b && |Links(h, c, cutoff, a, |c.rows|)| < a
    ensures Sealed(h, c, cutoff, b) == Sealed(h, c, cutoff, a)
  {
    LinksCompose(h, c, cutoff, a, b - a, |c.rows|);
    assert Links(h, c, cutoff, a, |c.rows|) + [] == Links(h, c, cutoff, a, |c.rows|);
  }

  // ---- the chainer --------------------------------------------------------------------------

  const MaxBatchesPerTick := 50

  class Datasource {
    var rows: seq<Entry>
    var lastSeq: int
    var head: string
    const genesis: string
    const hash: Hash

    constructor (c: Chain, hash: Hash)
      ensures View() == c && this.hash == hash
    {
      rows, lastSeq, head, genesis, this.hash := c.rows, c.lastSeq, c.head, c.genesis, hash;
    }

    function View(): Chain
      reads this
    {
      Chain(rows, lastSeq, head, genesis)
    }

    method ScanPending(cutoff: int, batchSize: nat) returns (batch: seq<Writing>, newSeq: int, newHead: string)
      ensures batch == Links(hash, View(), cutoff, batchSize, |rows|)
      ensures newSeq == lastSeq + |batch| && newHead == HeadOf(batch, head)
      ensures forall k | 0 <= k < |batch| :: batch[k].index < |rows|
    {
      LinksInOrder(hash, View(), cutoff, batchSize, |rows|);
      newHead, newSeq, batch := head, lastSeq, [];
      for i := 0 to |rows|
        invariant batch == Links(hash, View(), cutoff, batchSize, i)
        invariant newSeq == lastSeq + |batch| && newHead == HeadOf(batch, head)
      {
        if Pending(rows[i], cutoff) && |batch| < batchSize {
          var prev := newHead;
          newHead := ComputeHash(hash, prev, rows[i].row);
          newSeq := newSeq + 1;
          batch := batch + [Writing(i, Link(newSeq, prev, newHead))];
        }
      }
    }

    method WriteLinks(batch: seq<Writing>)
      requires forall k | 0 <= k < |batch| :: batch[k].index < |rows|
      modifies this`rows
      ensures rows == Written(old(rows), batch)
    {
      for k := 0 to |batch|
        invariant rows == Written(old(rows), batch[..k])
      {
        assert batch[..k + 1][..k] == batch[..k];
        var w := batch[k];
        rows := rows[w.index := rows[w.index].(seal := Some(w.link))];
      }
      assert batch[..|batch|] == batch;
    }

    /** One database transaction: scan and link, then write the links and the bookmark. */
    method ChainPendingTransactions(cutoff: int, batchSize: nat) returns (n: nat)
      modifies this
      ensures View() == Sealed(hash, old(View()), cutoff, batchSize)
      ensures n == |Links(hash, old(View()), cutoff, batchSize, |old(rows)|)|
    {
      var batch, newSeq, newHead := ScanPending(cutoff, batchSize);
      ghost var c := View();
      n := |batch|;
      if n == 0 {
        assert Sealed(hash, c, cutoff, batchSize) == c;
      } else {
        WriteLinks(batch);
        lastSeq, head := newSeq, newHead;
        assert View() == c.(rows := Written(c.rows, batch), lastSeq := newSeq, head := newHead);
      }
    }

    /** A tick is one batch of up to fifty times the batch size. */
    method ProcessTick(cutoff: int, batchSize: nat)
      requires batchSize > 0
      modifies this
      ensures View() == Sealed(hash, old(View()), cutoff, MaxBatchesPerTick * batchSize)
    {
      ghost var c := View();
      EmptyBatch(hash, c, cutoff, |c.rows|);
      for i := 0 to MaxBatchesPerTick
        invariant View() == Sealed(hash, c, cutoff, i * batchSize)
      {
        TickGoesOn(hash, c, cutoff, batchSize, i);
        var n := ChainPendingTransactions(cutoff, batchSize);
        if n < batchSize {
          TickCatchesUp(hash, c, cutoff, batchSize, i);
          return;
        }
      }
    }
  }

  lemma {:induction false} TickGoesOn(h: Hash, c: Chain, cutoff: int, batchSize: nat, i: nat)
    ensures Sealed(h, Sealed(h, c, cutoff, i * batchSize), cutoff, batchSize) ==
      Sealed(h, c, cutoff, (i + 1) * batchSize)
  {
    BatchesCompose(h, c, cutoff, i * batchSize, batchSize);
    assert (i + 1) * batchSize == i * batchSize + batchSize;
  }

  lemma {:induction false} CaughtUpEarly(h: Hash, c: Chain, cutoff: int, done: int, a: int, total: int)
    requires 0 <= done && 0 <= a && done + a <= total
    requires |Links(h, Sealed(h, c, cutoff, done), cutoff, a, |c.rows|)| < a
    ensures Sealed(h, Sealed(h, c, cutoff, done), cutoff, a) == Sealed(h, c, cutoff, total)
  {
    CaughtUp(h, Sealed(h, c, cutoff, done), cutoff, a, total - done);
    BatchesCompose(h, c, cutoff, done, total - done);
  }

  lemma {:induction false} TickCatchesUp(h: Hash, c: Chain, cutoff: int, batchSize: nat, i: nat)
    requires i < MaxBatchesPerTick
    requires |Links(h, Sealed(h, c, cutoff, i * batchSize), cutoff, batchSize, |c.rows|)| < batchSize
    ensures Sealed(h, Sealed(h, c, cutoff, i * batchSize), cutoff, batchSize) ==
      Sealed(h, c, cutoff, MaxBatchesPerTick * batchSize)
  {
    assert i * batchSize +
      batchSize <= MaxBatchesPerTick * batchSize by { OneBatchFits(i, MaxBatchesPerTick, batchSize); }
    CaughtUpEarly(h, c, cutoff, i * batchSize, batchSize, MaxBatchesPerTick * batchSize);
  }

  lemma {:induction false} OneBatchFits(i: nat, n: nat, size: nat)
    requires i < n
    ensures i * size + size <= n * size
  {
    assert n * size == (n - 1) * size + size;
    if i + 1 < n { OneBatchFits(i, n - 1, size); }
  }
}
