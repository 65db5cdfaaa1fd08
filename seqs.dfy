/** Generic list operations the modelled Python code performs with built-ins. */
module Seqs {
  /** `sum(lists, [])`: the lists one after the other. */
  function Concat<T>(ss: seq<seq<T>>): (r: seq<T>)
  {
    if |ss| == 0 then [] else Concat(ss[..|ss| - 1]) + ss[|ss| - 1]
  }

  /** The tail from `a` is the slice up to `b` followed by the tail from `b`. */
  lemma TailSplit<T>(s: seq<T>, a: nat, b: nat)
    requires a <= b <= |s|
    ensures s[a..] == s[a..b] + s[b..]
  {
  }

  lemma ConcatAppend<T>(ss: seq<seq<T>>, s: seq<T>)
    ensures Concat(ss + [s]) == Concat(ss) + s
  {
    assert (ss + [s])[..|ss|] == ss;
  }

  /** `xs.count(x)`. */
  function Count<T(==)>(xs: seq<T>, x: T): (n: nat)
    ensures n <= |xs|
    ensures n == 0 <==> x !in xs
  {
    if |xs| == 0 then 0
    else
      assert xs == xs[..|xs| - 1] + [xs[|xs| - 1]];
      Count(xs[..|xs| - 1], x) + (if xs[|xs| - 1] == x then 1 else 0)
  }

  /** `xs.index(x)`: where `x` first occurs. */
  function FirstIndex<T(==)>(xs: seq<T>, x: T): (i: nat)
    requires x in xs
    ensures i < |xs| && xs[i] == x && x !in xs[..i]
  {
    if xs[0] == x then 0
    else
      var i := FirstIndex(xs[1..], x);
      assert xs[..i + 1] == [xs[0]] + xs[1..][..i];
      i + 1
  }

  /** `xs.remove(x)` when `x in xs`: only the first occurrence goes. */
  function RemoveFirst<T(==)>(xs: seq<T>, x: T): (r: seq<T>)
    requires x in xs
  {
    var i := FirstIndex(xs, x);
    xs[..i] + xs[i + 1..]
  }

  /** `RemoveFirst` takes away one occurrence of `x` and keeps every other element's count. */
  lemma RemoveFirstCount<T>(xs: seq<T>, x: T, y: T)
    requires x in xs
    ensures |RemoveFirst(xs, x)| == |xs| - 1
    ensures Count(RemoveFirst(xs, x), y) == Count(xs, y) - (if y == x then 1 else 0)
  {
    var i := FirstIndex(xs, x);
    assert xs == xs[..i] + [x] + xs[i + 1..];
    CountConcat(xs[..i], xs[i + 1..], y);
    CountConcat(xs[..i] + [x], xs[i + 1..], y);
    CountConcat(xs[..i], [x], y);
    assert [x][..0] == [];
  }

  lemma {:induction false} CountConcat<T>(a: seq<T>, b: seq<T>, y: T)
    ensures Count(a + b, y) == Count(a, y) + Count(b, y)
    decreases |b|
  {
    if |b| == 0 {
      assert a + b == a;
    } else {
      var b' := b[..|b| - 1];
      assert (a + b)[..|a + b| - 1] == a + b';
      CountConcat(a, b', y);
    }
  }

  lemma {:induction false} ConcatPrepend<T>(s: seq<T>, ss: seq<seq<T>>)
    ensures Concat([s] + ss) == s + Concat(ss)
    decreases |ss|
  {
    if |ss| == 0 {
      assert [s] + ss == [s];
      assert [s][..0] == [];
    } else {
      var init := ss[..|ss| - 1];
      assert ([s] + ss)[..|ss|] == [s] + init;
      ConcatPrepend(s, init);
    }
  }

  /** Every element of the text comes from one of the pieces. */
  lemma {:induction false} ConcatMembers<T>(ss: seq<seq<T>>, x: T)
    requires x in Concat(ss)
    ensures exists i :: 0 <= i < |ss| && x in ss[i]
  {
    var init := ss[..|ss| - 1];
    if x in Concat(init) {
      ConcatMembers(init, x);
      var i :| 0 <= i < |init| && x in init[i];
      assert init[i] == ss[i];
    } else {
      assert x in ss[|ss| - 1];
    }
  }

  /** Concatenating two lists of pieces concatenates their texts. */
  lemma {:induction false} ConcatJoin<T>(a: seq<seq<T>>, b: seq<seq<T>>)
    ensures Concat(a + b) == Concat(a) + Concat(b)
    decreases |b|
  {
    if |b| == 0 {
      assert a + b == a;
    } else {
      var b' := b[..|b| - 1];
      assert a + b == (a + b') + [b[|b| - 1]];
      ConcatAppend(a + b', b[|b| - 1]);
      ConcatJoin(a, b');
      ConcatAppend(b', b[|b| - 1]);
      assert b' + [b[|b| - 1]] == b;
    }
  }

  /** Every piece holds `x` exactly once, so the text holds it once per piece. */
  lemma {:induction false} CountConcatOnce<T>(ss: seq<seq<T>>, x: T)
    requires forall i :: 0 <= i < |ss| ==> Count(ss[i], x) == 1
    ensures Count(Concat(ss), x) == |ss|
    decreases |ss|
  {
    if |ss| > 0 {
      var init := ss[..|ss| - 1];
      CountConcatOnce(init, x);
      CountConcat(Concat(init), ss[|ss| - 1], x);
    }
  }

  /**
   * `list(dict.fromkeys(xs))`: the distinct elements in order of first
   * occurrence, as the keys of a dictionary filled from `xs`.
   */
  function Distinct<T(==,!new)>(xs: seq<T>): (r: seq<T>)
    ensures forall x :: x in r <==> x in xs
    ensures forall i, j :: 0 <= i < j < |r| ==> r[i] != r[j]
  {
    if |xs| == 0 then []
    else
      var init := Distinct(xs[..|xs| - 1]);
      assert xs == xs[..|xs| - 1] + [xs[|xs| - 1]];
      if xs[|xs| - 1] in init then init else init + [xs[|xs| - 1]]
  }
}
