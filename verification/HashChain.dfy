/** Sealing transactions into the hash chain and replaying it
    (database/chain.go, chain_worker.go, model/chain.go). */
module HashChain {
  import opened Wrappers

  /** The immutable fields of a transaction that the chain seals. */
  datatype ChainRow = ChainRow(
    transactionId: string, source: string, destination: string, amount: string, preciseAmount: string,
    currency: string, status: string, reference: string, createdAt: string)

  const GenesisHash := "0000000000000000000000000000000000000000000000000000000000000000"

  function Fields(r: ChainRow): (fs: seq<string>)
    ensures |fs| == 9
  {
    [r.transactionId, r.source, r.destination, r.amount, r.preciseAmount, r.currency, r.status, r.reference,
    r.createdAt]
  }

  function Join(parts: seq<string>): string {
    if parts == [] then ""
    else if |parts| == 1 then parts[0]
    else parts[0] + "|" + Join(parts[1..])
  }

  function Canonical(prev: string, r: ChainRow): string {
    Join([prev] + Fields(r))
  }

  lemma {:induction false} JoinFrom(parts: seq<string>, i: nat)
    requires i < |parts|
    ensures Join(parts[i..]) == if i == |parts| - 1 then parts[i] else parts[i] + "|" + Join(parts[i + 1..])
  {
    assert parts[i..][1..] == parts[i + 1..];
  }

  /** The order in which the fields go into the hashed string, after the hash before. */
  lemma {:induction false} CanonicalOrder(prev: string, r: ChainRow)
    ensures
      var end := r.currency + "|" + (r.status + "|" + (r.reference + "|" + r.createdAt));
      var middle := r.destination + "|" + (r.amount + "|" + (r.preciseAmount + "|" + end));
      Canonical(prev, r) == prev + "|" + (r.transactionId + "|" + (r.source + "|" + middle))
  {
    var parts := [prev] + Fields(r);
    assert parts[0..] == parts;
    forall i | 0 <= i < |parts|
      ensures Join(parts[i..]) == if i == |parts| - 1 then parts[i] else parts[i] + "|" + Join(parts[i + 1..])
    {
      JoinFrom(parts, i);
    }
    assert Join(parts[8..]) == r.reference + "|" + r.createdAt;
    assert Join(parts[6..]) == r.currency + "|" + (r.status + "|" + Join(parts[8..]));
    assert Join(parts[3..]) == r.destination + "|" + (r.amount + "|" + (r.preciseAmount + "|" + Join(parts[6..])));
  }

  type Hash = string -> string

  function ComputeHash(h: Hash, prev: string, r: ChainRow): string {
    h(Canonical(prev, r))
  }

  // ---- what a hash pins down --------------------------------------------------------------

  function Bars(s: string): nat {
    if s == "" then 0 else Bars(s[1..]) + if s[0] == '|' then 1 else 0
  }

  function BarsIn(parts: seq<string>): nat {
    if parts == [] then 0 else Bars(parts[0]) + BarsIn(parts[1..])
  }

  /** No sealed field contains the separator. */
  predicate Plain(r: ChainRow) {
    BarsIn(Fields(r)) == 0
  }

  lemma {:induction false} BarsSplit(a: string, b: string)
    ensures Bars(a + b) == Bars(a) + Bars(b)
  {
    if a == "" {
      assert a + b == b;
    } else {
      assert (a + b)[1..] == a[1..] + b;
      BarsSplit(a[1..], b);
    }
  }

  lemma {:induction false} BarsJoined(parts: seq<string>)
    requires parts != []
    ensures Bars(Join(parts)) == BarsIn(parts) + |parts| - 1
  {
    if |parts| > 1 {
      BarsJoined(parts[1..]);
      BarsSplit(parts[0] + "|", Join(parts[1..]));
      BarsSplit(parts[0], "|");
      assert parts[0] + "|" + Join(parts[1..]) == (parts[0] + "|") + Join(parts[1..]);
    } else {
      assert parts[1..] == [];
    }
  }

  lemma {:induction false} StartsWithout(a: string, x: string)
    requires a != "" && Bars(a) == 0
    ensures (a + "|" + x)[0] != '|'
  {
  }

  /** Before its first separator a string can be cut in only one way. */
  lemma {:induction false} SameCut(a: string, x: string, b: string, y: string)
    requires Bars(a) == 0 && Bars(b) == 0 && a + "|" + x == b + "|" + y
    ensures a == b && x == y
  {
    var left, right := a + "|" + x, b + "|" + y;
    if a == "" && b == "" {
      assert x == left[1..] && y == right[1..];
    } else if a == "" {
      StartsWithout(b, y);
      assert false;
    } else if b == "" {
      StartsWithout(a, x);
      assert false;
    } else {
      assert left[0] == a[0] && right[0] == b[0];
      assert left[1..] == a[1..] + "|" + x && right[1..] == b[1..] + "|" + y;
      SameCut(a[1..], x, b[1..], y);
    }
  }

  lemma {:induction false} JoinInjective(a: seq<string>, b: seq<string>)
    requires |a| == |b| > 0 && BarsIn(a) == 0 && BarsIn(b) == 0 && Join(a) == Join(b)
    ensures a == b
  {
    if |a| > 1 {
      SameCut(a[0], Join(a[1..]), b[0], Join(b[1..]));
      JoinInjective(a[1..], b[1..]);
      assert a == [a[0]] + a[1..] && b == [b[0]] + b[1..];
    }
  }

  lemma {:induction false} PrefixCanonical(prev: string, a: ChainRow, b: ChainRow)
    ensures Canonical(prev, a) == Canonical(prev, b) <==> Join(Fields(a)) == Join(Fields(b))
  {
    assert ([prev] + Fields(a))[1..] == Fields(a) && ([prev] + Fields(b))[1..] == Fields(b);
    assert Canonical(prev, a) == prev + "|" + Join(Fields(a)) && Canonical(prev, b) == prev + "|" + Join(Fields(b));
    var n := |prev| + 1;
    assert (prev + "|" + Join(Fields(a)))[n..] == Join(Fields(a))
      && (prev + "|" + Join(Fields(b)))[n..] == Join(Fields(b));
  }

  /** A row without separators is the only one with its canonical string. */
  lemma {:induction false} PlainIsUnique(prev: string, r: ChainRow, other: ChainRow)
    requires Plain(r) && Canonical(prev, r) == Canonical(prev, other)
    ensures r == other
  {
    PrefixCanonical(prev, r, other);
    BarsJoined(Fields(r));
    BarsJoined(Fields(other));
    JoinInjective(Fields(r), Fields(other));
    var a, b := Fields(r), Fields(other);
    assert a[0] == b[0] && a[1] == b[1] && a[2] == b[2] && a[3] == b[3] && a[4] == b[4];
    assert a[5] == b[5] && a[6] == b[6] && a[7] == b[7] && a[8] == b[8];
  }

  lemma {:induction false} HasBar(s: string) returns (i: nat)
    requires Bars(s) > 0
    ensures i < |s| && s[i] == '|'
  {
    if s[0] == '|' {
      i := 0;
    } else {
      i := HasBar(s[1..]);
      i := i + 1;
    }
  }

  function FromFields(fs: seq<string>): ChainRow
    requires |fs| == 9
  {
    ChainRow(fs[0], fs[1], fs[2], fs[3], fs[4], fs[5], fs[6], fs[7], fs[8])
  }

  /** Only what two neighbours look like joined matters to the whole. */
  lemma {:induction false} JoinMerges(fs: seq<string>, k: nat)
    requires k + 1 < |fs|
    ensures Join(fs) == Join(fs[..k] + [fs[k] + "|" + fs[k + 1]] + fs[k + 2..])
  {
    var merged := fs[..k] + [fs[k] + "|" + fs[k + 1]] + fs[k + 2..];
    if k == 0 {
      assert fs[1..][1..] == fs[2..] && merged[1..] == fs[2..];
      if |fs| > 2 {
        assert fs[0] + "|" + (fs[1] + "|" + Join(fs[2..])) == (fs[0] + "|" + fs[1]) + "|" + Join(fs[2..]);
      }
    } else {
      JoinMerges(fs[1..], k - 1);
      assert merged[1..] == fs[1..][..k - 1] + [fs[1..][k - 1] + "|" + fs[1..][k]] + fs[1..][k + 1..];
    }
  }

  lemma {:induction false} NeighboursJoin(a: seq<string>, b: seq<string>, k: nat)
    requires |a| == |b| && k + 1 < |a| && a[..k] == b[..k] && a[k + 2..] == b[k + 2..]
    requires a[k] + "|" + a[k + 1] == b[k] + "|" + b[k + 1]
    ensures Join(a) == Join(b)
  {
    JoinMerges(a, k);
    JoinMerges(b, k);
  }

  lemma {:induction false} BarredField(fs: seq<string>) returns (k: nat)
    requires BarsIn(fs) > 0
    ensures k < |fs| && Bars(fs[k]) > 0
  {
    if Bars(fs[0]) > 0 {
      k := 0;
    } else {
      k := BarredField(fs[1..]);
      k := k + 1;
    }
  }

  /** A separator inside a field lets its tail, or its head, change places with the field next
      to it; every other field stays as it is. */
  lemma {:induction false} SeparatorMoves(fs: seq<string>, k: nat, right: bool) returns (other: seq<string>)
    requires k < |fs| && Bars(fs[k]) > 0 && (if right then k + 1 < |fs| else 0 < k)
    ensures |other| == |fs| && other != fs && Join(other) == Join(fs)
    ensures forall j | 0 <= j < |fs| :: j != k && j != (if right then k + 1 else k - 1) ==> other[j] == fs[j]
  {
    var i := HasBar(fs[k]);
    var x, y := fs[k][..i], fs[k][i + 1..];
    assert fs[k] == x + "|" + y;
    if right {
      other := fs[k := x][k + 1 := y + "|" + fs[k + 1]];
      assert (x + "|" + y) + "|" + fs[k + 1] == x + "|" + (y + "|" + fs[k + 1]);
      assert |other[k]| < |fs[k]|;
      NeighboursJoin(fs, other, k);
    } else {
      other := fs[k - 1 := fs[k - 1] + "|" + x][k := y];
      assert fs[k - 1] + "|" + (x + "|" + y) == (fs[k - 1] + "|" + x) + "|" + y;
      assert |other[k]| < |fs[k]|;
      NeighboursJoin(fs, other, k - 1);
    }
  }

  /** Two columns are numbers and one is a time: as text they hold no separator. */
  predicate Typed(r: ChainRow) {
    Bars(r.amount) == 0 && Bars(r.preciseAmount) == 0 && Bars(r.createdAt) == 0
  }

  /** A row with a separator in one of its text columns has a twin that hashes alike: its text
      columns differ, its amounts and its time do not. */
  lemma {:induction false} Twin(r: ChainRow) returns (other: ChainRow)
    requires Typed(r) && !Plain(r)
    ensures other != r && Join(Fields(other)) == Join(Fields(r))
    ensures other.amount == r.amount && other.preciseAmount == r.preciseAmount && other.createdAt == r.createdAt
  {
    var k := BarredField(Fields(r));
    var fs := SeparatorMoves(Fields(r), k, k in {0, 1, 5, 6});
    other := FromFields(fs);
    assert Fields(other) == fs;
  }

  /** The canonical string determines the row among all rows the columns can hold. */
  ghost predicate Pinned(prev: string, r: ChainRow) {
    forall other: ChainRow :: Typed(other) && Canonical(prev, other) == Canonical(prev, r) ==> other == r
  }

  /** Joining with a separator pins a row down exactly when no field contains it. */
  lemma {:induction false} PinnedIffPlain(prev: string, r: ChainRow)
    requires Typed(r)
    ensures Pinned(prev, r) <==> Plain(r)
  {
    if Plain(r) {
      forall other: ChainRow | Typed(other) && Canonical(prev, other) == Canonical(prev, r)
        ensures other == r
      {
        PlainIsUnique(prev, r, other);
      }
    } else {
      var other := Twin(r);
      PrefixCanonical(prev, other, r);
      assert Typed(other) && Canonical(prev, other) == Canonical(prev, r);
    }
  }
}
