/**
 * Counting with a `defaultdict(int)` and ordering the counts with
 * `sorted(counts.items(), key=lambda x: x[1], reverse=True)`.
 */
module Counting {
  import opened Seqs

  /** Each key of `order` with its number of occurrences in `keys`. */
  function Pairs<K(==,!new)>(order: seq<K>, keys: seq<K>): (items: seq<(K, nat)>)
    ensures |items| == |order|
    ensures forall i :: 0 <= i < |order| ==> items[i] == (order[i], Count(keys, order[i]))
  {
    seq(|order|, i requires 0 <= i < |order| => (order[i], Count(keys, order[i])))
  }

  /** The items of the counting dictionary: each distinct key with its count, in insertion order. */
  function Tally<K(==,!new)>(keys: seq<K>): seq<(K, nat)>
  {
    Pairs(Distinct(keys), keys)
  }

  /** The sum of the counts. */
  function SumCounts<K>(items: seq<(K, nat)>): nat
  {
    if |items| == 0 then 0 else SumCounts(items[..|items| - 1]) + items[|items| - 1].1
  }

  /**
   * The loop `for k in keys: counts[k] += 1` over a `defaultdict(int)`,
   * followed by `counts.items()`.
   */
  method CountOccurrences<K(==,!new)>(keys: seq<K>) returns (items: seq<(K, nat)>)
    ensures items == Tally(keys)
  {
    var order: seq<K> := [];
    var counts: map<K, nat> := map[];
    for i := 0 to |keys|
      invariant order == Distinct(keys[..i])
      invariant forall k :: k in counts <==> k in keys[..i]
      invariant forall k :: k in counts ==> counts[k] == Count(keys[..i], k)
    {
      var k := keys[i];
      assert keys[..i + 1] == keys[..i] + [k];
      assert keys[..i + 1][..i] == keys[..i];
      if k in counts {
        counts := counts[k := counts[k] + 1];
      } else {
        order := order + [k];
        counts := counts[k := 1];
      }
    }
    assert keys[..|keys|] == keys;
    items := [];
    for j := 0 to |order|
      invariant |items| == j
      invariant forall m :: 0 <= m < j ==> items[m] == (order[m], Count(keys, order[m]))
    {
      items := items + [(order[j], counts[order[j]])];
    }
  }

  lemma {:induction false} CountSnoc<K(!new)>(keys: seq<K>, x: K, k: K)
    ensures Count(keys + [x], k) == Count(keys, k) + (if x == k then 1 else 0)
  {
    assert (keys + [x])[..|keys|] == keys;
  }

  lemma {:induction false} SumPairsSnocKey<K(!new)>(order: seq<K>, keys: seq<K>, x: K)
    requires forall i, j :: 0 <= i < j < |order| ==> order[i] != order[j]
    ensures SumCounts(Pairs(order, keys + [x])) == SumCounts(Pairs(order, keys)) + (if x in order then 1 else 0)
  {
    if |order| > 0 {
      var init := order[..|order| - 1];
      var d := order[|order| - 1];
      assert Pairs(order, keys + [x])[..|init|] == Pairs(init, keys + [x]);
      assert Pairs(order, keys)[..|init|] == Pairs(init, keys);
      SumPairsSnocKey(init, keys, x);
      CountSnoc(keys, x, d);
      assert order == init + [d];
      assert d !in init;
    }
  }

  lemma SumPairsSnocOrder<K(!new)>(order: seq<K>, keys: seq<K>, x: K)
    ensures SumCounts(Pairs(order + [x], keys)) == SumCounts(Pairs(order, keys)) + Count(keys, x)
  {
    assert Pairs(order + [x], keys)[..|order|] == Pairs(order, keys);
  }

  /** The counts add up to the number of keys counted. */
  lemma {:induction false} TallySum<K(!new)>(keys: seq<K>)
    ensures SumCounts(Tally(keys)) == |keys|
  {
    if |keys| > 0 {
      var init := keys[..|keys| - 1];
      var x := keys[|keys| - 1];
      assert keys == init + [x];
      TallySum(init);
      var d := Distinct(init);
      SumPairsSnocKey(d, init, x);
      if x !in d {
        SumPairsSnocOrder(d, keys, x);
        CountSnoc(init, x, x);
      }
    }
  }

  /** Every counted key appears once, with its number of occurrences. */
  lemma TallyCounts<K(!new)>(keys: seq<K>)
    ensures forall k :: k in keys <==> exists i :: 0 <= i < |Tally(keys)| && Tally(keys)[i].0 == k
    ensures forall i :: 0 <= i < |Tally(keys)| ==> Tally(keys)[i].1 == Count(keys, Tally(keys)[i].0) > 0
  {
    var d := Distinct(keys);
    forall k | k in keys ensures exists i :: 0 <= i < |Tally(keys)| && Tally(keys)[i].0 == k {
      var i :| 0 <= i < |d| && d[i] == k;
      assert Tally(keys)[i].0 == k;
    }
  }

  // ---------------------------------------------------------------------
  // sorted(items, key=lambda x: x[1], reverse=True)
  // ---------------------------------------------------------------------

  predicate NonIncreasing<K>(items: seq<(K, nat)>)
  {
    forall i, j :: 0 <= i < j < |items| ==> items[i].1 >= items[j].1
  }

  /** Puts `x` after every item whose count is at least its own. */
  function InsertByCount<K>(x: (K, nat), sorted: seq<(K, nat)>): seq<(K, nat)>
  {
    if |sorted| == 0 then [x]
    else if sorted[0].1 >= x.1 then [sorted[0]] + InsertByCount(x, sorted[1..])
    else [x] + sorted
  }

  /** The stable sort by decreasing count: items with equal counts keep their order. */
  function SortByCountDesc<K>(items: seq<(K, nat)>): seq<(K, nat)>
  {
    if |items| == 0 then []
    else InsertByCount(items[|items| - 1], SortByCountDesc(items[..|items| - 1]))
  }

  lemma {:induction false} InsertByCountSorted<K>(x: (K, nat), sorted: seq<(K, nat)>)
    requires NonIncreasing(sorted)
    ensures NonIncreasing(InsertByCount(x, sorted))
    ensures multiset(InsertByCount(x, sorted)) == multiset(sorted) + multiset{x}
    ensures |InsertByCount(x, sorted)| == |sorted| + 1
    ensures forall y :: y in InsertByCount(x, sorted) ==> y == x || y in sorted
  {
    if |sorted| > 0 && sorted[0].1 >= x.1 {
      InsertByCountSorted(x, sorted[1..]);
      assert sorted == [sorted[0]] + sorted[1..];
      var rest := InsertByCount(x, sorted[1..]);
      forall j | 0 <= j < |rest| ensures sorted[0].1 >= rest[j].1 {
        assert rest[j] == x || rest[j] in sorted[1..];
      }
    }
  }

  /** The sorted items are the same items, by non-increasing count. */
  lemma {:induction false} SortByCountDescMeaning<K>(items: seq<(K, nat)>)
    ensures NonIncreasing(SortByCountDesc(items))
    ensures multiset(SortByCountDesc(items)) == multiset(items)
    ensures |SortByCountDesc(items)| == |items|
  {
    if |items| > 0 {
      var init := items[..|items| - 1];
      SortByCountDescMeaning(init);
      InsertByCountSorted(items[|items| - 1], SortByCountDesc(init));
      assert items == init + [items[|items| - 1]];
    }
  }

  /** Sorting keeps the total of the counts. */
  lemma SortByCountDescSum<K>(items: seq<(K, nat)>)
    ensures SumCounts(SortByCountDesc(items)) == SumCounts(items)
  {
    SortByCountDescMeaning(items);
    SumCountsMultiset(SortByCountDesc(items), items);
  }

  lemma {:induction false} SumCountsMultiset<K>(a: seq<(K, nat)>, b: seq<(K, nat)>)
    requires multiset(a) == multiset(b)
    ensures SumCounts(a) == SumCounts(b)
    decreases |a|
  {
    if |a| > 0 {
      var x := a[|a| - 1];
      var a' := a[..|a| - 1];
      assert a == a' + [x];
      assert x in multiset(b);
      var i :| 0 <= i < |b| && b[i] == x;
      var b' := b[..i] + b[i + 1..];
      assert b == b[..i] + [x] + b[i + 1..];
      calc {
        multiset(b');
        multiset(b[..i]) + multiset(b[i + 1..]);
        multiset(b) - multiset{x};
        multiset(a) - multiset{x};
        { assert multiset(a) == multiset(a') + multiset{x}; }
        multiset(a');
      }
      SumCountsMultiset(a', b');
      SumCountsRemove(b, i);
    } else {
      assert b == [] by { assert |multiset(b)| == 0; }
    }
  }

  lemma {:induction false} SumCountsRemove<K>(b: seq<(K, nat)>, i: nat)
    requires i < |b|
    ensures SumCounts(b) == SumCounts(b[..i] + b[i + 1..]) + b[i].1
    decreases |b|
  {
    if i == |b| - 1 {
      assert b[..i] + b[i + 1..] == b[..|b| - 1];
    } else {
      var b' := b[..|b| - 1];
      SumCountsRemove(b', i);
      assert b'[..i] + b'[i + 1..] == (b[..i] + b[i + 1..])[..|b| - 2];
    }
  }
}
