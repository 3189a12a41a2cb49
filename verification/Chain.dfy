/**
 * An account's transaction chain, the paged view of it that the API offers,
 * and the de-duplicating sort applied to every batch of transactions.
 */
module Chain {
  import opened Prelude
  import Tables

  /** `event` is what the parser makes of the messages; None is traffic that is not a game event. */
  datatype Tx = Tx(lt: nat, hash: string, prevLt: nat, prevHash: string, event: Option<Tables.Event>)

  const PAGE: nat := 100
  const UINT64: nat := 0x1_0000_0000_0000_0000

  /** The first `n` transactions: times positive, increasing and of 64 bits, each linked to the one before. */
  ghost predicate ValidUpTo(c: seq<Tx>, n: nat)
    requires n <= |c|
  {
    n == 0 || (
      && ValidUpTo(c, n - 1)
      && 0 < c[n - 1].lt < UINT64
      && (if n == 1 then c[0].prevLt == 0
          else c[n - 2].lt < c[n - 1].lt && c[n - 1].prevLt == c[n - 2].lt && c[n - 1].prevHash == c[n - 2].hash))
  }

  ghost predicate ValidChain(c: seq<Tx>) {
    ValidUpTo(c, |c|)
  }

  lemma {:induction false} FactsUpTo(c: seq<Tx>, n: nat)
    requires n <= |c| && ValidUpTo(c, n)
    ensures forall i :: 0 <= i < n ==> 0 < c[i].lt < UINT64
    ensures forall i, j :: 0 <= i < j < n ==> c[i].lt < c[j].lt
  {
    if n > 0 {
      FactsUpTo(c, n - 1);
    }
  }

  lemma ChainFacts(c: seq<Tx>)
    requires ValidChain(c)
    ensures forall i :: 0 <= i < |c| ==> 0 < c[i].lt < UINT64
    ensures forall i, j :: 0 <= i < j < |c| ==> c[i].lt < c[j].lt
  {
    FactsUpTo(c, |c|);
  }

  lemma Later(c: seq<Tx>, i: nat, j: nat)
    requires ValidChain(c) && i < j < |c|
    ensures c[i].lt < c[j].lt
  {
    ChainFacts(c);
  }

  lemma {:induction false} LinksUpTo(c: seq<Tx>, n: nat, i: nat)
    requires i < n <= |c| && ValidUpTo(c, n)
    ensures if i == 0 then c[i].prevLt == 0
            else c[i].prevLt == c[i - 1].lt && c[i].prevHash == c[i - 1].hash && 0 < c[i - 1].lt
  {
    if i < n - 1 {
      LinksUpTo(c, n - 1, i);
    }
  }

  lemma ChainLinks(c: seq<Tx>, i: nat)
    requires ValidChain(c) && i < |c|
    ensures if i == 0 then c[i].prevLt == 0
            else c[i].prevLt == c[i - 1].lt && c[i].prevHash == c[i - 1].hash && 0 < c[i - 1].lt
  {
    LinksUpTo(c, |c|, i);
  }

  lemma {:induction false} PrefixUpTo(c: seq<Tx>, more: seq<Tx>, n: nat, m: nat)
    requires m <= |c| && m <= n <= |c + more| && ValidUpTo(c + more, n)
    ensures ValidUpTo(c, m)
    decreases n
  {
    if m < n {
      PrefixUpTo(c, more, n - 1, m);
    } else if m > 0 {
      PrefixUpTo(c, more, n - 1, m - 1);
    }
  }

  lemma PrefixValid(c: seq<Tx>, more: seq<Tx>)
    requires ValidChain(c + more)
    ensures ValidChain(c)
  {
    PrefixUpTo(c, more, |c + more|, |c|);
  }

  /** How many of the first `n` transactions there are once those after `lt` are cut off the end. */
  function CutOff(c: seq<Tx>, lt: nat, n: nat): (m: nat)
    requires n <= |c|
    ensures m <= n && (m > 0 ==> c[m - 1].lt <= lt) && (m < n ==> c[m].lt > lt)
  {
    if n == 0 || c[n - 1].lt <= lt then n else CutOff(c, lt, n - 1)
  }

  /** The index of the first transaction after logical time `lt`. */
  function Above(c: seq<Tx>, lt: nat): (n: nat)
    ensures n <= |c| && (n > 0 ==> c[n - 1].lt <= lt) && (n < |c| ==> c[n].lt > lt)
  {
    CutOff(c, lt, |c|)
  }

  lemma AboveSplits(c: seq<Tx>, lt: nat)
    requires ValidChain(c)
    ensures forall i :: 0 <= i < |c| ==> (c[i].lt > lt <==> i >= Above(c, lt))
  {
    ChainFacts(c);
  }

  lemma AboveAtIndex(c: seq<Tx>, lt: nat, i: nat)
    requires ValidChain(c) && i < |c|
    ensures c[i].lt > lt <==> i >= Above(c, lt)
  {
    AboveSplits(c, lt);
  }

  /** A position is the cut exactly when the transactions on its two sides say so. */
  lemma AboveIs(c: seq<Tx>, lt: nat, n: nat)
    requires ValidChain(c) && n <= |c|
    requires n > 0 ==> c[n - 1].lt <= lt
    requires n < |c| ==> c[n].lt > lt
    ensures Above(c, lt) == n
  {
    ChainFacts(c);
  }

  lemma AboveAt(c: seq<Tx>, n: nat)
    requires ValidChain(c) && n < |c|
    ensures Above(c, c[n].lt) == n + 1
  {
    ChainFacts(c);
    AboveIs(c, c[n].lt, n + 1);
  }

  /** The newest transactions among the first `n`: at most one page of them. */
  function Page(c: seq<Tx>, n: nat): seq<Tx>
    requires n <= |c|
  {
    c[Max(0, n - PAGE)..n]
  }

  /** Growth of the chain does not change what lies at or before a known logical time. */
  lemma PagesAreStable(c: seq<Tx>, more: seq<Tx>, n: nat)
    requires ValidChain(c + more) && n < |c|
    ensures ValidChain(c) && Above(c + more, c[n].lt) == Above(c, c[n].lt)
    ensures Page(c + more, Above(c + more, c[n].lt)) == Page(c, Above(c, c[n].lt))
  {
    var d := c + more;
    PrefixValid(c, more);
    AboveAt(c, n);
    AboveAt(d, n);
  }

  // ---------------------------------------------------------------- order on transactions

  /** Byte order on hashes. */
  predicate HashLess(a: string, b: string) {
    b != "" && (a == "" || a[0] < b[0] || (a[0] == b[0] && HashLess(a[1..], b[1..])))
  }

  lemma {:induction false} HashOrder(a: string, b: string)
    ensures !(HashLess(a, b) && HashLess(b, a))
    ensures HashLess(a, b) || HashLess(b, a) || a == b
    decreases |a|
  {
    if a != "" && b != "" {
      HashOrder(a[1..], b[1..]);
      if a[0] == b[0] && a[1..] == b[1..] {
        assert a == [a[0]] + a[1..] && b == [b[0]] + b[1..];
      }
    }
  }

  lemma {:induction false} HashTransitive(a: string, b: string, c: string)
    requires HashLess(a, b) && HashLess(b, c)
    ensures HashLess(a, c)
    decreases |a|
  {
    if a != "" && a[0] == b[0] == c[0] {
      HashTransitive(a[1..], b[1..], c[1..]);
    }
  }

  /** It is the order of the bytes: at the first difference the smaller one, or the shorter of the two. */
  lemma {:induction false} HashLessIsByteOrder(a: string, b: string)
    ensures HashLess(a, b) <==> exists k: nat :: FirstDifference(a, b, k)
    decreases |a|
  {
    if a == "" || b == "" || a[0] != b[0] {
      if HashLess(a, b) {
        assert FirstDifference(a, b, 0);
      }
    } else {
      HashLessIsByteOrder(a[1..], b[1..]);
      assert a == [a[0]] + a[1..] && b == [b[0]] + b[1..];
      if k: nat :| FirstDifference(a[1..], b[1..], k) {
        assert a[..k + 1] == [a[0]] + a[1..][..k] && b[..k + 1] == [b[0]] + b[1..][..k];
        assert FirstDifference(a, b, k + 1);
      }
      if k: nat :| FirstDifference(a, b, k) {
        assert k > 0;
        assert a[..k] == [a[0]] + a[1..][..k - 1] && b[..k] == [b[0]] + b[1..][..k - 1];
        assert a[1..][..k - 1] == a[..k][1..] && b[1..][..k - 1] == b[..k][1..];
        assert FirstDifference(a[1..], b[1..], k - 1);
      }
    }
  }

  predicate FirstDifference(a: string, b: string, k: nat) {
    k <= |a| && k < |b| && a[..k] == b[..k] && (k == |a| || a[k] < b[k])
  }

  predicate SameKey(a: Tx, b: Tx) {
    a.lt == b.lt && a.hash == b.hash
  }

  /** sortTransactionsByLt: by logical time in the given direction, ties by hash. */
  predicate Before(ascending: bool, a: Tx, b: Tx) {
    if a.lt == b.lt then HashLess(a.hash, b.hash) else (a.lt < b.lt) == ascending
  }

  lemma BeforeIsStrictOrder(asc: bool, a: Tx, b: Tx)
    ensures !(Before(asc, a, b) && Before(asc, b, a))
    ensures Before(asc, a, b) || Before(asc, b, a) || SameKey(a, b)
    ensures SameKey(a, b) ==> !Before(asc, a, b)
  {
    HashOrder(a.hash, b.hash);
  }

  lemma BeforeTransitive(asc: bool, a: Tx, b: Tx, c: Tx)
    requires Before(asc, a, b) && Before(asc, b, c)
    ensures Before(asc, a, c)
  {
    if a.lt == b.lt == c.lt {
      HashTransitive(a.hash, b.hash, c.hash);
    }
  }

  ghost predicate Ordered(asc: bool, s: seq<Tx>) {
    forall i, j :: 0 <= i < j < |s| ==> Before(asc, s[i], s[j])
  }

  /** An ordered batch runs forward or backward in time as asked, ties by hash. */
  lemma OrderedByTime(asc: bool, s: seq<Tx>, i: nat, j: nat)
    requires Ordered(asc, s) && i < j < |s|
    ensures if asc then s[i].lt <= s[j].lt else s[i].lt >= s[j].lt
    ensures s[i].lt == s[j].lt ==> HashLess(s[i].hash, s[j].hash)
  {
    assert Before(asc, s[i], s[j]);
  }

  ghost predicate SameElements(a: seq<Tx>, b: seq<Tx>) {
    forall x :: x in a <==> x in b
  }

  /** An ordered list is determined by its elements. */
  lemma {:induction false} OrderedUnique(asc: bool, a: seq<Tx>, b: seq<Tx>)
    requires Ordered(asc, a) && Ordered(asc, b) && SameElements(a, b)
    ensures a == b
    decreases |a|
  {
    assert b != [] ==> b[0] in b && b[0] in a;
    if a != [] {
      assert a[0] in b;
      var j :| 0 <= j < |b| && b[j] == a[0];
      assert b[0] in a;
      var k :| 0 <= k < |a| && a[k] == b[0];
      BeforeIsStrictOrder(asc, a[0], b[0]);
      assert a[0] == b[0];
      TailsAgree(asc, a, b);
      OrderedUnique(asc, a[1..], b[1..]);
    }
  }

  lemma TailsAgree(asc: bool, a: seq<Tx>, b: seq<Tx>)
    requires Ordered(asc, a) && Ordered(asc, b) && SameElements(a, b)
    requires a != [] && b != [] && a[0] == b[0]
    ensures SameElements(a[1..], b[1..])
  {
    BeforeIsStrictOrder(asc, a[0], a[0]);
    assert forall x :: x in a[1..] ==> x in b && x != a[0];
    assert forall x :: x in b[1..] ==> x in a && x != a[0];
    assert a == [a[0]] + a[1..] && b == [b[0]] + b[1..];
  }

  // ---------------------------------------------------------------- de-duplication

  /** `x` occurs in `txs` and nothing with its key occurs earlier. */
  ghost predicate FirstOfKey(txs: seq<Tx>, x: Tx) {
    exists i :: 0 <= i < |txs| && txs[i] == x && forall j :: 0 <= j < i ==> !SameKey(txs[j], x)
  }

  /** What a normalised batch is, whatever order the de-duplication map is walked in. */
  ghost predicate Normalized(asc: bool, txs: seq<Tx>, r: seq<Tx>) {
    && Ordered(asc, r)
    && forall x :: x in r <==> FirstOfKey(txs, x)
  }

  lemma NormalizedUnique(asc: bool, txs: seq<Tx>, a: seq<Tx>, b: seq<Tx>)
    requires Normalized(asc, txs, a) && Normalized(asc, txs, b)
    ensures a == b
  {
    OrderedUnique(asc, a, b);
  }

  /** Insert into an ordered list, as the in-place sort does with each element in turn. */
  method InsertOrdered(asc: bool, s: seq<Tx>, x: Tx) returns (r: seq<Tx>)
    requires Ordered(asc, s) && forall y :: y in s ==> !SameKey(x, y)
    ensures Ordered(asc, r) && forall y :: y in r <==> y in s || y == x
    ensures |r| == |s| + 1
  {
    var k := 0;
    while k < |s| && Before(asc, s[k], x)
      invariant 0 <= k <= |s|
      invariant forall i :: 0 <= i < k ==> Before(asc, s[i], x)
    {
      k := k + 1;
    }
    r := s[..k] + [x] + s[k..];
    forall i | k <= i < |s|
      ensures Before(asc, x, s[i])
    {
      assert s[k] in s;
      BeforeIsStrictOrder(asc, s[k], x);
      if i > k {
        BeforeTransitive(asc, x, s[k], s[i]);
      }
    }
    assert s == s[..k] + s[k..];
  }

  function KeyOf(tx: Tx): (nat, string) {
    (tx.lt, tx.hash)
  }

  type Index = map<(nat, string), Tx>

  /** The de-duplication map after a batch: each key with the first transaction that has it. */
  ghost predicate IndexOf(txs: seq<Tx>, unique: Index) {
    && (forall i :: 0 <= i < |txs| ==> KeyOf(txs[i]) in unique)
    && (forall k :: k in unique ==> KeyOf(unique[k]) == k && FirstOfKey(txs, unique[k]))
  }

  lemma IndexExtended(txs: seq<Tx>, tx: Tx, unique: Index)
    requires IndexOf(txs, unique)
    ensures IndexOf(txs + [tx], if KeyOf(tx) in unique then unique else unique[KeyOf(tx) := tx])
  {
    var all := txs + [tx];
    forall k | k in unique
      ensures FirstOfKey(all, unique[k])
    {
      var n :| 0 <= n < |txs| && txs[n] == unique[k] && forall j :: 0 <= j < n ==> !SameKey(txs[j], unique[k]);
      assert all[n] == unique[k] && forall j :: 0 <= j < n ==> all[j] == txs[j];
    }
    if KeyOf(tx) !in unique {
      assert forall j :: 0 <= j < |txs| ==> KeyOf(txs[j]) in unique;
      assert all[|txs|] == tx;
      assert FirstOfKey(all, tx);
    }
  }

  lemma IndexHoldsFirsts(txs: seq<Tx>, unique: Index, x: Tx)
    requires IndexOf(txs, unique) && FirstOfKey(txs, x)
    ensures KeyOf(x) in unique && unique[KeyOf(x)] == x
  {
    var i :| 0 <= i < |txs| && txs[i] == x && forall j :: 0 <= j < i ==> !SameKey(txs[j], x);
    var y := unique[KeyOf(txs[i])];
    var n :| 0 <= n < |txs| && txs[n] == y && forall j :: 0 <= j < n ==> !SameKey(txs[j], y);
    assert SameKey(txs[n], txs[i]) && SameKey(txs[i], y);
  }

  /** Walk the map in whatever order it offers its keys, then sort. */
  method WalkAndSort(unique: Index, ascending: bool) returns (normalized: seq<Tx>)
    requires forall k :: k in unique ==> KeyOf(unique[k]) == k
    ensures Ordered(ascending, normalized) && |normalized| == |unique|
    ensures forall x :: x in normalized <==> KeyOf(x) in unique && unique[KeyOf(x)] == x
  {
    var keys := unique.Keys;
    normalized := [];
    while keys != {}
      invariant keys <= unique.Keys
      invariant Ordered(ascending, normalized)
      invariant forall x :: x in normalized <==> KeyOf(x) in unique && KeyOf(x) !in keys && unique[KeyOf(x)] == x
      invariant |normalized| + |keys| == |unique|
      decreases |keys|
    {
      var k :| k in keys;
      normalized := InsertOrdered(ascending, normalized, unique[k]);
      keys := keys - {k};
    }
  }

  /** normalizeTransactionsByLt */
  method NormalizeTransactions(txs: seq<Tx>, ascending: bool) returns (normalized: seq<Tx>, duplicates: nat)
    ensures Normalized(ascending, txs, normalized)
    ensures duplicates == |txs| - |normalized|
  {
    var unique: Index := map[];
    duplicates := 0;
    for i := 0 to |txs|
      invariant IndexOf(txs[..i], unique)
      invariant duplicates + |unique| == i
    {
      IndexExtended(txs[..i], txs[i], unique);
      assert txs[..i + 1] == txs[..i] + [txs[i]];
      if KeyOf(txs[i]) in unique {
        duplicates := duplicates + 1;
      } else {
        unique := unique[KeyOf(txs[i]) := txs[i]];
      }
    }
    assert txs[..|txs|] == txs;
    normalized := WalkAndSort(unique, ascending);
    forall x | FirstOfKey(txs, x)
      ensures x in normalized
    {
      IndexHoldsFirsts(txs, unique, x);
    }
  }

  // ---------------------------------------------------------------- batches drawn from a chain

  /** A stretch of a chain is ordered. */
  lemma SegmentOrdered(c: seq<Tx>, i: nat, j: nat)
    requires ValidChain(c) && i <= j <= |c|
    ensures Ordered(true, c[i..j])
  {
    ChainFacts(c);
  }

  /** Normalising any batch that holds exactly the transactions of a stretch yields the stretch. */
  lemma NormalizedSegment(c: seq<Tx>, i: nat, j: nat, txs: seq<Tx>, r: seq<Tx>)
    requires ValidChain(c) && i <= j <= |c|
    requires SameElements(txs, c[i..j]) && Normalized(true, txs, r)
    ensures r == c[i..j]
  {
    forall x | x in c[i..j]
      ensures x in r
    {
      FirstInBatch(c, i, j, txs, x);
    }
    assert SameElements(r, c[i..j]);
    SegmentOrdered(c, i, j);
    OrderedUnique(true, r, c[i..j]);
  }

  lemma FirstInBatch(c: seq<Tx>, i: nat, j: nat, txs: seq<Tx>, x: Tx)
    requires ValidChain(c) && i <= j <= |c| && SameElements(txs, c[i..j]) && x in c[i..j]
    ensures FirstOfKey(txs, x)
  {
    ChainFacts(c);
    var n := FirstIndex(txs, x);
    forall k | 0 <= k < n
      ensures !SameKey(txs[k], x)
    {
      assert txs[k] in c[i..j];
    }
  }

  function FirstIndex(txs: seq<Tx>, x: Tx): (n: nat)
    requires x in txs
    ensures n < |txs| && txs[n] == x && forall k :: 0 <= k < n ==> txs[k] != x
  {
    if txs[0] == x then 0 else 1 + FirstIndex(txs[1..], x)
  }
}
