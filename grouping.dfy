/**
 * Group-by into an insertion-ordered `Map` and the comparator sort that follows it,
 * as the sales statistics do them: each contribution carries a key, a count
 * (a quantity, or one order) and a revenue; `Tally` adds contributions with the same
 * key into one bucket, new keys going to the end, and `Sort` orders buckets by an
 * integer rank, keeping equal ranks in their original order (`Array.prototype.sort`
 * is stable).
 */
module Grouping {
  import Seqs

  datatype Bucket<K> = Bucket(key: K, count: int, revenue: int)

  datatype Measure = ByCount | ByRevenue

  function Amount<K>(b: Bucket<K>, m: Measure): int {
    if m == ByCount then b.count else b.revenue
  }

  /** The total of one measure over a list of buckets. */
  function Sum<K>(bs: seq<Bucket<K>>, m: Measure): int
    decreases |bs|
  {
    if bs == [] then 0 else Sum(bs[..|bs| - 1], m) + Amount(bs[|bs| - 1], m)
  }

  lemma {:induction false} SumAppend<K>(a: seq<Bucket<K>>, b: seq<Bucket<K>>, m: Measure)
    ensures Sum(a + b, m) == Sum(a, m) + Sum(b, m)
    decreases |b|
  {
    if b == [] {
      assert a + b == a;
    } else {
      assert (a + b)[..|a + b| - 1] == a + b[..|b| - 1];
      SumAppend(a, b[..|b| - 1], m);
    }
  }

  lemma SumSingle<K>(b: Bucket<K>, m: Measure)
    ensures Sum([b], m) == Amount(b, m)
  {
    assert [b][..0] == [];
  }

  /** Replacing one bucket changes the total by the difference of the two amounts. */
  lemma SumUpdate<K>(bs: seq<Bucket<K>>, i: int, b: Bucket<K>, m: Measure)
    requires 0 <= i < |bs|
    ensures Sum(bs[i := b], m) == Sum(bs, m) - Amount(bs[i], m) + Amount(b, m)
  {
    assert bs == bs[..i] + [bs[i]] + bs[i + 1..];
    assert bs[i := b] == bs[..i] + [b] + bs[i + 1..];
    SumAppend(bs[..i] + [bs[i]], bs[i + 1..], m);
    SumAppend(bs[..i], [bs[i]], m);
    SumAppend(bs[..i] + [b], bs[i + 1..], m);
    SumAppend(bs[..i], [b], m);
    SumSingle(bs[i], m);
    SumSingle(b, m);
  }

  function Keys<K>(bs: seq<Bucket<K>>): (r: seq<K>)
    ensures |r| == |bs|
    ensures forall i :: 0 <= i < |bs| ==> r[i] == bs[i].key
  {
    seq(|bs|, i requires 0 <= i < |bs| => bs[i].key)
  }

  predicate DistinctKeys<K(==)>(bs: seq<Bucket<K>>) {
    forall i, j :: 0 <= i < j < |bs| ==> bs[i].key != bs[j].key
  }

  /** `map.get(key)`: the position of the bucket for `k`, or -1. */
  function KeyIndex<K(==)>(bs: seq<Bucket<K>>, k: K): (r: int)
    ensures -1 <= r < |bs|
    ensures r >= 0 ==> bs[r].key == k
    ensures r < 0 <==> k !in Keys(bs)
    decreases |bs|
  {
    if bs == [] then -1
    else if bs[|bs| - 1].key == k then |bs| - 1
    else
      var i := KeyIndex(bs[..|bs| - 1], k);
      assert Keys(bs) == Keys(bs[..|bs| - 1]) + [bs[|bs| - 1].key];
      i
  }

  /** One `map.set(key, existing + contribution)`: an existing key keeps its place, a new one goes last. */
  function Bump<K(==)>(bs: seq<Bucket<K>>, c: Bucket<K>): (r: seq<Bucket<K>>)
    ensures Keys(r) == if c.key in Keys(bs) then Keys(bs) else Keys(bs) + [c.key]
    ensures DistinctKeys(bs) ==> DistinctKeys(r)
  {
    var i := KeyIndex(bs, c.key);
    if i < 0 then
      assert Keys(bs + [c]) == Keys(bs) + [c.key];
      bs + [c]
    else
      var r := bs[i := Bucket(c.key, bs[i].count + c.count, bs[i].revenue + c.revenue)];
      assert Keys(r) == Keys(bs);
      r
  }

  /** The map after feeding all contributions through `Bump`, in order. */
  function Tally<K(==)>(cs: seq<Bucket<K>>): seq<Bucket<K>>
    decreases |cs|
  {
    if cs == [] then [] else Bump(Tally(cs[..|cs| - 1]), cs[|cs| - 1])
  }

  /** The `forEach` that fills a `Map`: one `get`/`set` per contribution, in order. */
  method TallyInOrder<K(==)>(cs: seq<Bucket<K>>) returns (buckets: seq<Bucket<K>>)
    ensures buckets == Tally(cs)
  {
    buckets := [];
    for i := 0 to |cs|
      invariant buckets == Tally(cs[..i])
    {
      assert cs[..i + 1][..i] == cs[..i];
      buckets := Bump(buckets, cs[i]);
    }
    assert cs[..|cs|] == cs;
  }

  /** The part of one measure that the contributions with key `k` bring. */
  function KeyAmount<K(==)>(cs: seq<Bucket<K>>, k: K, m: Measure): int
    decreases |cs|
  {
    if cs == [] then 0
    else KeyAmount(cs[..|cs| - 1], k, m) + (if cs[|cs| - 1].key == k then Amount(cs[|cs| - 1], m) else 0)
  }

  lemma BumpSum<K>(bs: seq<Bucket<K>>, c: Bucket<K>, m: Measure)
    ensures Sum(Bump(bs, c), m) == Sum(bs, m) + Amount(c, m)
  {
    var i := KeyIndex(bs, c.key);
    if i < 0 {
      SumAppend(bs, [c], m);
      SumSingle(c, m);
    } else {
      SumUpdate(bs, i, Bucket(c.key, bs[i].count + c.count, bs[i].revenue + c.revenue), m);
    }
  }

  /** Grouping neither creates nor loses any quantity or revenue. */
  lemma {:induction false} TallyConserves<K>(cs: seq<Bucket<K>>, m: Measure)
    ensures Sum(Tally(cs), m) == Sum(cs, m)
    decreases |cs|
  {
    if cs != [] {
      TallyConserves(cs[..|cs| - 1], m);
      BumpSum(Tally(cs[..|cs| - 1]), cs[|cs| - 1], m);
    }
  }

  /** The buckets have pairwise distinct keys, and a key has a bucket iff some contribution carries it. */
  lemma {:induction false} TallyKeys<K>(cs: seq<Bucket<K>>)
    ensures DistinctKeys(Tally(cs))
    ensures forall k :: k in Keys(Tally(cs)) <==> k in Keys(cs)
    decreases |cs|
  {
    if cs != [] {
      var init := cs[..|cs| - 1];
      TallyKeys(init);
      assert Keys(cs) == Keys(init) + [cs[|cs| - 1].key];
    }
  }

  /** Each bucket holds exactly what the contributions with its key bring. */
  lemma {:induction false} TallyPerKey<K>(cs: seq<Bucket<K>>, m: Measure)
    ensures forall j :: 0 <= j < |Tally(cs)| ==> Amount(Tally(cs)[j], m) == KeyAmount(cs, Tally(cs)[j].key, m)
    decreases |cs|
  {
    if cs != [] {
      var init := cs[..|cs| - 1];
      var c := cs[|cs| - 1];
      var t := Tally(init);
      TallyPerKey(init, m);
      TallyKeys(init);
      var i := KeyIndex(t, c.key);
      var r := Tally(cs);
      assert r == Bump(t, c);
      if i < 0 {
        assert c.key !in Keys(init);
        KeyAmountAbsent(init, c.key, m);
        forall j | 0 <= j < |r| ensures Amount(r[j], m) == KeyAmount(cs, r[j].key, m) {
          if j < |t| {
            assert r[j] == t[j];
            assert t[j].key in Keys(t);
          }
        }
      } else {
        forall j | 0 <= j < |r| ensures Amount(r[j], m) == KeyAmount(cs, r[j].key, m) {
          if j != i {
            assert r[j] == t[j];
            assert t[j].key != c.key;
          }
        }
      }
    }
  }

  lemma {:induction false} KeyAmountAbsent<K>(cs: seq<Bucket<K>>, k: K, m: Measure)
    requires k !in Keys(cs)
    ensures KeyAmount(cs, k, m) == 0
    decreases |cs|
  {
    if cs != [] {
      assert Keys(cs) == Keys(cs[..|cs| - 1]) + [cs[|cs| - 1].key];
      KeyAmountAbsent(cs[..|cs| - 1], k, m);
    }
  }

  predicate SortedBy<K>(bs: seq<Bucket<K>>, rank: Bucket<K> -> int) {
    forall i, j :: 0 <= i < j < |bs| ==> rank(bs[i]) <= rank(bs[j])
  }

  /** Inserts `x` after every bucket of rank at most its own. */
  function Insert<K>(x: Bucket<K>, t: seq<Bucket<K>>, rank: Bucket<K> -> int): (r: seq<Bucket<K>>)
    ensures |r| == |t| + 1
    ensures multiset(r) == multiset(t) + multiset{x}
    decreases |t|
  {
    if t == [] then [x]
    else if rank(x) < rank(t[0]) then
      assert t == [t[0]] + t[1..];
      [x] + t
    else
      assert t == [t[0]] + t[1..];
      [t[0]] + Insert(x, t[1..], rank)
  }

  lemma {:induction false} InsertSorted<K>(x: Bucket<K>, t: seq<Bucket<K>>, rank: Bucket<K> -> int)
    requires SortedBy(t, rank)
    ensures SortedBy(Insert(x, t, rank), rank)
    decreases |t|
  {
    if t == [] {
    } else if rank(x) < rank(t[0]) {
      assert Insert(x, t, rank) == [x] + t;
      ConsSorted(x, t, rank);
    } else {
      assert Insert(x, t, rank) == [t[0]] + Insert(x, t[1..], rank);
      InsertSorted(x, t[1..], rank);
      InsertLowerBound(x, t[1..], rank, rank(t[0]));
      ConsSorted(t[0], Insert(x, t[1..], rank), rank);
    }
  }

  /** A bucket of rank at most every rank of a sorted list can go in front of it. */
  lemma ConsSorted<K>(h: Bucket<K>, rest: seq<Bucket<K>>, rank: Bucket<K> -> int)
    requires SortedBy(rest, rank)
    requires forall i :: 0 <= i < |rest| ==> rank(h) <= rank(rest[i])
    ensures SortedBy([h] + rest, rank)
  {
    var r := [h] + rest;
    forall i, j | 0 <= i < j < |r| ensures rank(r[i]) <= rank(r[j]) {
      assert r[j] == rest[j - 1];
      if i > 0 {
        assert r[i] == rest[i - 1];
      }
    }
  }


  /** Inserting a bucket of rank at least `b` among buckets of rank at least `b` keeps that bound. */
  lemma InsertLowerBound<K>(x: Bucket<K>, t: seq<Bucket<K>>, rank: Bucket<K> -> int, b: int)
    requires rank(x) >= b
    requires forall i :: 0 <= i < |t| ==> rank(t[i]) >= b
    ensures forall i :: 0 <= i < |Insert(x, t, rank)| ==> rank(Insert(x, t, rank)[i]) >= b
  {
    var r := Insert(x, t, rank);
    forall i | 0 <= i < |r| ensures rank(r[i]) >= b {
      assert r[i] in multiset(r);
      if r[i] != x {
        assert r[i] in multiset(t);
        var k :| 0 <= k < |t| && t[k] == r[i];
      }
    }
  }


  /** A stable sort by ascending rank: the result is a permutation of the input, in rank order. */
  function Sort<K>(xs: seq<Bucket<K>>, rank: Bucket<K> -> int): (r: seq<Bucket<K>>)
    ensures |r| == |xs|
    ensures multiset(r) == multiset(xs)
    ensures SortedBy(r, rank)
    decreases |xs|
  {
    if xs == [] then []
    else
      assert xs == xs[..|xs| - 1] + [xs[|xs| - 1]];
      InsertSorted(xs[|xs| - 1], Sort(xs[..|xs| - 1], rank), rank);
      Insert(xs[|xs| - 1], Sort(xs[..|xs| - 1], rank), rank)
  }

  lemma {:induction false} InsertSum<K>(x: Bucket<K>, t: seq<Bucket<K>>, rank: Bucket<K> -> int, m: Measure)
    ensures Sum(Insert(x, t, rank), m) == Sum(t, m) + Amount(x, m)
    decreases |t|
  {
    SumSingle(x, m);
    if t == [] {
    } else if rank(x) < rank(t[0]) {
      assert t == [t[0]] + t[1..];
      SumAppend([x], t, m);
    } else {
      InsertSum(x, t[1..], rank, m);
      assert t == [t[0]] + t[1..];
      SumAppend([t[0]], t[1..], m);
      SumAppend([t[0]], Insert(x, t[1..], rank), m);
    }
  }

  // ---------------------------------------------------------------- stability

  /** The test "has rank `v`", as one function value for every use below. */
  function RankIs<K>(rank: Bucket<K> -> int, v: int): Bucket<K> -> bool {
    b => rank(b) == v
  }

  /** A list none of whose buckets has rank `v` keeps none of them. */
  lemma {:induction false} NoneOfRank<K>(t: seq<Bucket<K>>, rank: Bucket<K> -> int, v: int)
    requires forall i :: 0 <= i < |t| ==> rank(t[i]) != v
    ensures Seqs.Filter(t, RankIs(rank, v)) == []
    decreases |t|
  {
    if t != [] {
      NoneOfRank(t[1..], rank, v);
    }
  }

  /** Inserting `x` puts it after every bucket of its own rank already in a sorted list. */
  lemma {:induction false} InsertKeepsRankOrder<K>(x: Bucket<K>, t: seq<Bucket<K>>, rank: Bucket<K> -> int, v: int)
    requires SortedBy(t, rank)
    ensures Seqs.Filter(Insert(x, t, rank), RankIs(rank, v))
            == Seqs.Filter(t, RankIs(rank, v)) + (if rank(x) == v then [x] else [])
    decreases |t|
  {
    if t == [] || rank(x) < rank(t[0]) {
      InsertInFront(x, t, rank, v);
    } else {
      SortedTail(t, rank);
      InsertKeepsRankOrder(x, t[1..], rank, v);
      InsertBehind(x, t, rank, RankIs(rank, v), if rank(x) == v then [x] else []);
    }
  }

  /** The case of `InsertKeepsRankOrder` where `x` goes behind the first bucket. */
  lemma InsertBehind<K>(x: Bucket<K>, t: seq<Bucket<K>>, rank: Bucket<K> -> int, p: Bucket<K> -> bool,
                        added: seq<Bucket<K>>)
    requires t != [] && rank(x) >= rank(t[0])
    requires Seqs.Filter(Insert(x, t[1..], rank), p) == Seqs.Filter(t[1..], p) + added
    ensures Seqs.Filter(Insert(x, t, rank), p) == Seqs.Filter(t, p) + added
  {
    var r := Insert(x, t, rank);
    var front := if p(t[0]) then [t[0]] else [];
    var kept := Seqs.Filter(t[1..], p);
    assert Seqs.Filter(r, p) == front + (kept + added) by {
      assert r == [t[0]] + Insert(x, t[1..], rank);
      assert r[0] == t[0] && r[1..] == Insert(x, t[1..], rank);
      FilterFirst(r, p);
    }
    assert Seqs.Filter(t, p) == front + kept by {
      FilterFirst(t, p);
    }
    ConcatAssoc(front, kept, added);
  }

  lemma SortedTail<K>(t: seq<Bucket<K>>, rank: Bucket<K> -> int)
    requires t != [] && SortedBy(t, rank)
    ensures SortedBy(t[1..], rank)
  {
    forall i, j | 0 <= i < j < |t[1..]| ensures rank(t[1..][i]) <= rank(t[1..][j]) {
      assert t[1..][i] == t[i + 1] && t[1..][j] == t[j + 1];
    }
  }

  lemma ConcatAssoc<T>(a: seq<T>, b: seq<T>, c: seq<T>)
    ensures a + (b + c) == (a + b) + c
  {
  }

  lemma FilterFirst<K>(t: seq<Bucket<K>>, p: Bucket<K> -> bool)
    requires t != []
    ensures Seqs.Filter(t, p) == (if p(t[0]) then [t[0]] else []) + Seqs.Filter(t[1..], p)
  {
  }

  /** The case of `InsertKeepsRankOrder` where `x` goes in front. */
  lemma InsertInFront<K>(x: Bucket<K>, t: seq<Bucket<K>>, rank: Bucket<K> -> int, v: int)
    requires SortedBy(t, rank)
    requires t == [] || rank(x) < rank(t[0])
    ensures Seqs.Filter(Insert(x, t, rank), RankIs(rank, v))
            == Seqs.Filter(t, RankIs(rank, v)) + (if rank(x) == v then [x] else [])
  {
    var r := [x] + t;
    assert Insert(x, t, rank) == r && r[1..] == t;
    if rank(x) == v {
      NoneOfRank(t, rank, v);
    }
  }

  /**
   * The sort is stable: the buckets of any one rank come out in the order they went in
   * (all ties of the comparator keep their input order).
   */
  lemma {:induction false} SortIsStable<K>(xs: seq<Bucket<K>>, rank: Bucket<K> -> int, v: int)
    ensures Seqs.Filter(Sort(xs, rank), RankIs(rank, v)) == Seqs.Filter(xs, RankIs(rank, v))
    decreases |xs|
  {
    if xs != [] {
      var init, last := xs[..|xs| - 1], xs[|xs| - 1];
      var p := RankIs(rank, v);
      var tail := if rank(last) == v then [last] else [];
      var sortedInit := Sort(init, rank);
      assert Sort(xs, rank) == Insert(last, sortedInit, rank);
      SortIsStable(init, rank, v);
      InsertKeepsRankOrder(last, sortedInit, rank, v);
      FilterSnoc(xs, rank, v);
      calc {
        Seqs.Filter(Sort(xs, rank), p);
        Seqs.Filter(Insert(last, sortedInit, rank), p);
        Seqs.Filter(sortedInit, p) + tail;
        Seqs.Filter(init, p) + tail;
      }
    }
  }

  /** Filtering by rank a list and then its last bucket, one at a time. */
  lemma FilterSnoc<K>(xs: seq<Bucket<K>>, rank: Bucket<K> -> int, v: int)
    requires xs != []
    ensures var last := xs[|xs| - 1];
            Seqs.Filter(xs, RankIs(rank, v))
            == Seqs.Filter(xs[..|xs| - 1], RankIs(rank, v)) + (if rank(last) == v then [last] else [])
  {
    var init, last := xs[..|xs| - 1], xs[|xs| - 1];
    assert xs == init + [last];
    Seqs.FilterAppend(init, [last], RankIs(rank, v));
    assert [last][1..] == [];
  }

  /** Sorting keeps every total. */
  lemma {:induction false} SortSum<K>(xs: seq<Bucket<K>>, rank: Bucket<K> -> int, m: Measure)
    ensures Sum(Sort(xs, rank), m) == Sum(xs, m)
    decreases |xs|
  {
    if xs != [] {
      SortSum(xs[..|xs| - 1], rank, m);
      InsertSum(xs[|xs| - 1], Sort(xs[..|xs| - 1], rank), rank, m);
    }
  }

  /** After sorting, every bucket still holds the total of its key's contributions. */
  lemma SortedTallyPerKey<K>(cs: seq<Bucket<K>>, rank: Bucket<K> -> int, m: Measure)
    ensures var r := Sort(Tally(cs), rank);
            forall i :: 0 <= i < |r| ==> Amount(r[i], m) == KeyAmount(cs, r[i].key, m)
  {
    var t := Tally(cs);
    var r := Sort(t, rank);
    TallyPerKey(cs, m);
    forall i | 0 <= i < |r| ensures Amount(r[i], m) == KeyAmount(cs, r[i].key, m) {
      assert r[i] in multiset(t);
      var j :| 0 <= j < |t| && t[j] == r[i];
    }
  }

  /** Sorting keeps the set of keys and their distinctness. */
  lemma SortKeys<K>(xs: seq<Bucket<K>>, rank: Bucket<K> -> int)
    ensures forall k :: k in Keys(Sort(xs, rank)) <==> k in Keys(xs)
    ensures DistinctKeys(xs) ==> DistinctKeys(Sort(xs, rank))
  {
    var r := Sort(xs, rank);
    forall k ensures k in Keys(r) <==> k in Keys(xs) {
      if k in Keys(r) {
        var i :| 0 <= i < |r| && Keys(r)[i] == k;
        assert r[i] in multiset(xs);
        var j :| 0 <= j < |xs| && xs[j] == r[i];
        assert Keys(xs)[j] == k;
      }
      if k in Keys(xs) {
        var j :| 0 <= j < |xs| && Keys(xs)[j] == k;
        assert xs[j] in multiset(r);
        var i :| 0 <= i < |r| && r[i] == xs[j];
        assert Keys(r)[i] == k;
      }
    }
    if DistinctKeys(xs) {
      DistinctKeysPermutation(xs, r);
    }
  }

  /** Dropping one bucket from a list with distinct keys leaves distinct keys, none equal to the dropped one. */
  lemma DropOneDistinct<K>(xs: seq<Bucket<K>>, j: int)
    requires DistinctKeys(xs) && 0 <= j < |xs|
    ensures DistinctKeys(xs[..j] + xs[j + 1..])
    ensures forall b :: b in xs[..j] + xs[j + 1..] ==> b.key != xs[j].key
  {
    var rest := xs[..j] + xs[j + 1..];
    forall a, b | 0 <= a < b < |rest| ensures rest[a].key != rest[b].key {
      var a' := if a < j then a else a + 1;
      var b' := if b < j then b else b + 1;
      assert rest[a] == xs[a'] && rest[b] == xs[b'];
    }
    forall b | b in rest ensures b.key != xs[j].key {
      var p :| 0 <= p < |rest| && rest[p] == b;
      var p' := if p < j then p else p + 1;
      assert xs[p'] == b && p' != j;
    }
  }

  lemma DropOneMultiset<K>(xs: seq<Bucket<K>>, j: int, ys: seq<Bucket<K>>)
    requires 0 <= j < |xs| && ys != [] && ys[|ys| - 1] == xs[j]
    requires multiset(xs) == multiset(ys)
    ensures multiset(xs[..j] + xs[j + 1..]) == multiset(ys[..|ys| - 1])
  {
    assert xs == xs[..j] + [xs[j]] + xs[j + 1..];
    assert ys == ys[..|ys| - 1] + [xs[j]];
    calc {
      multiset(xs[..j] + xs[j + 1..]) + multiset{xs[j]};
      multiset(xs[..j]) + multiset{xs[j]} + multiset(xs[j + 1..]);
      multiset(xs[..j] + [xs[j]] + xs[j + 1..]);
      multiset(ys);
      multiset(ys[..|ys| - 1]) + multiset{xs[j]};
    }
    assert multiset(xs[..j] + xs[j + 1..]) == multiset(xs[..j] + xs[j + 1..]) + multiset{xs[j]} - multiset{xs[j]};
    assert multiset(ys[..|ys| - 1]) == multiset(ys[..|ys| - 1]) + multiset{xs[j]} - multiset{xs[j]};
  }

  /** A permutation of a list with distinct keys has distinct keys. */
  lemma {:induction false} DistinctKeysPermutation<K>(xs: seq<Bucket<K>>, ys: seq<Bucket<K>>)
    requires DistinctKeys(xs)
    requires multiset(xs) == multiset(ys)
    ensures DistinctKeys(ys)
    decreases |xs|
  {
    if ys != [] {
      var y := ys[|ys| - 1];
      var init := ys[..|ys| - 1];
      assert y in multiset(xs);
      var j :| 0 <= j < |xs| && xs[j] == y;
      var rest := xs[..j] + xs[j + 1..];
      DropOneMultiset(xs, j, ys);
      DropOneDistinct(xs, j);
      DistinctKeysPermutation(rest, init);
      forall i | 0 <= i < |init| ensures init[i].key != y.key {
        assert init[i] in multiset(rest);
      }
      forall a, b | 0 <= a < b < |ys| ensures ys[a].key != ys[b].key {
        if b == |ys| - 1 {
          assert ys[a] == init[a];
        } else {
          assert ys[a] == init[a] && ys[b] == init[b];
        }
      }
    }
  }
}
