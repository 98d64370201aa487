/** Grouping a sequence by a key: the per-key sums that `filter` and
    `reduce` compute, and the fact that the groups add up to the whole. */
module Grouping {
  import Seqs

  ghost predicate Distinct<K>(ys: seq<K>) {
    forall i, j :: 0 <= i < j < |ys| ==> ys[i] != ys[j]
  }

  /** The filter that keeps the elements whose key is `y`. */
  function KeyIs<T, K(==)>(key: T -> K, y: K): T -> bool {
    (x: T) => key(x) == y
  }

  /** The number of elements whose key is `y`. */
  function GroupCount<T(!new), K(==)>(xs: seq<T>, key: T -> K, y: K): (n: nat)
    ensures n <= |xs|
    ensures n > 0 <==> exists x :: x in xs && key(x) == y
  {
    var kept := Seqs.Filter(xs, KeyIs(key, y));
    assert |kept| > 0 ==> kept[0] in kept;
    |kept|
  }

  /** The sum of `w` over the elements whose key is `y`. */
  function GroupSum<T(!new), K(==)>(xs: seq<T>, key: T -> K, w: T -> int, y: K): int {
    Seqs.Sum(Seqs.Filter(xs, KeyIs(key, y)), w)
  }

  /** The group sums of the keys `ys`, added up. */
  function SumGroups<T(!new), K(==)>(ys: seq<K>, xs: seq<T>, key: T -> K, w: T -> int): int {
    if ys == [] then 0 else GroupSum(xs, key, w, ys[0]) + SumGroups(ys[1..], xs, key, w)
  }

  lemma GroupSumCons<T(!new), K>(x: T, t: seq<T>, key: T -> K, w: T -> int, y: K)
    ensures GroupSum([x] + t, key, w, y) == (if key(x) == y then w(x) else 0) + GroupSum(t, key, w, y)
  {
    assert ([x] + t)[1..] == t;
    var kept := Seqs.Filter(t, KeyIs(key, y));
    assert ([x] + kept)[1..] == kept;
  }

  /** Scanning one more element adds its weight to its own group. */
  lemma GroupSumSnoc<T(!new), K>(xs: seq<T>, x: T, key: T -> K, w: T -> int, y: K)
    ensures GroupSum(xs + [x], key, w, y) == GroupSum(xs, key, w, y) + (if key(x) == y then w(x) else 0)
  {
    Seqs.FilterConcat(xs, [x], KeyIs(key, y));
    Seqs.SumConcat(Seqs.Filter(xs, KeyIs(key, y)), Seqs.Filter([x], KeyIs(key, y)), w);
  }

  /** A key no element has sums to 0. */
  lemma GroupSumAbsent<T(!new), K>(xs: seq<T>, key: T -> K, w: T -> int, y: K)
    requires forall x :: x in xs ==> key(x) != y
    ensures GroupSum(xs, key, w, y) == 0
  {
    assert Seqs.Filter(xs, KeyIs(key, y)) == [];
  }

  /** A pointwise smaller weight gives a smaller group sum. */
  lemma GroupSumMonotone<T(!new), K>(xs: seq<T>, key: T -> K, v: T -> int, w: T -> int, y: K)
    requires forall x :: v(x) <= w(x)
    ensures GroupSum(xs, key, v, y) <= GroupSum(xs, key, w, y)
  {
    Seqs.SumMonotone(Seqs.Filter(xs, KeyIs(key, y)), v, w);
  }

  lemma {:induction false} SumGroupsEmpty<T(!new), K>(ys: seq<K>, key: T -> K, w: T -> int)
    ensures SumGroups(ys, [], key, w) == 0
  {
    if ys != [] {
      SumGroupsEmpty(ys[1..], key, w);
    }
  }

  lemma {:induction false} SumGroupsCons<T(!new), K>(ys: seq<K>, x: T, t: seq<T>, key: T -> K, w: T -> int)
    requires Distinct(ys)
    ensures SumGroups(ys, [x] + t, key, w) == (if key(x) in ys then w(x) else 0) + SumGroups(ys, t, key, w)
  {
    if ys != [] {
      assert Distinct(ys[1..]) by {
        forall i, j | 0 <= i < j < |ys[1..]| ensures ys[1..][i] != ys[1..][j] {
          assert ys[1..][i] == ys[i + 1] && ys[1..][j] == ys[j + 1];
        }
      }
      SumGroupsCons(ys[1..], x, t, key, w);
      GroupSumCons(x, t, key, w, ys[0]);
      assert key(x) in ys <==> key(x) == ys[0] || key(x) in ys[1..];
      if key(x) == ys[0] {
        forall j | 0 <= j < |ys[1..]| ensures ys[1..][j] != key(x) {
          assert ys[1..][j] == ys[j + 1];
        }
      }
    }
  }

  /** Summed over a list of distinct keys that covers every element, the
      group sums add up to the sum over all elements. */
  lemma {:induction false} SumByKey<T(!new), K>(ys: seq<K>, xs: seq<T>, key: T -> K, w: T -> int)
    requires Distinct(ys)
    requires forall x :: x in xs ==> key(x) in ys
    ensures SumGroups(ys, xs, key, w) == Seqs.Sum(xs, w)
  {
    if xs == [] {
      SumGroupsEmpty(ys, key, w);
    } else {
      assert xs == [xs[0]] + xs[1..];
      SumGroupsCons(ys, xs[0], xs[1..], key, w);
      SumByKey(ys, xs[1..], key, w);
    }
  }

  function One<T>(x: T): int {
    1
  }

  lemma {:induction false} SumOfOnes<T>(xs: seq<T>)
    ensures Seqs.Sum(xs, One) == |xs|
  {
    if xs != [] {
      SumOfOnes(xs[1..]);
    }
  }

  /** A count is the group sum of ones. */
  lemma GroupCountIsSum<T(!new), K>(xs: seq<T>, key: T -> K, y: K)
    ensures GroupCount(xs, key, y) == GroupSum(xs, key, One, y)
  {
    SumOfOnes(Seqs.Filter(xs, KeyIs(key, y)));
  }

  /** The keys in order of first appearance: the insertion order of the keys
      of a dictionary filled while scanning `xs`. */
  function FirstAppearance<T(!new), K(==,!new)>(xs: seq<T>, key: T -> K): (ys: seq<K>)
    ensures Distinct(ys)
    ensures forall y :: y in ys <==> exists x :: x in xs && key(x) == y
  {
    if xs == [] then []
    else
      var init := xs[..|xs| - 1];
      var last := xs[|xs| - 1];
      var ys := FirstAppearance(init, key);
      assert forall x :: x in xs <==> x in init || x == last by {
        assert xs == init + [last];
      }
      if key(last) in ys then ys else ys + [key(last)]
  }

  /** One more element adds its key at the end unless the key was seen. */
  lemma FirstAppearanceSnoc<T(!new), K(!new)>(xs: seq<T>, x: T, key: T -> K)
    ensures FirstAppearance(xs + [x], key)
         == (var ys := FirstAppearance(xs, key); if key(x) in ys then ys else ys + [key(x)])
  {
    assert (xs + [x])[..|xs|] == xs;
  }

  /** Scanning more elements never reorders or drops the keys already seen. */
  lemma {:induction false} FirstAppearancePrefix<T(!new), K(!new)>(a: seq<T>, b: seq<T>, key: T -> K)
    ensures |FirstAppearance(a, key)| <= |FirstAppearance(a + b, key)|
    ensures FirstAppearance(a + b, key)[..|FirstAppearance(a, key)|] == FirstAppearance(a, key)
  {
    if b == [] {
      assert a + b == a;
    } else {
      var init := b[..|b| - 1];
      assert a + b == (a + init) + [b[|b| - 1]];
      FirstAppearancePrefix(a, init, key);
      FirstAppearanceSnoc(a + init, b[|b| - 1], key);
    }
  }

  /** Elements whose keys were all seen already change nothing. */
  lemma {:induction false} FirstAppearanceAbsorbs<T(!new), K(!new)>(a: seq<T>, b: seq<T>, key: T -> K)
    requires forall x :: x in b ==> key(x) in FirstAppearance(a, key)
    ensures FirstAppearance(a + b, key) == FirstAppearance(a, key)
  {
    if b == [] {
      assert a + b == a;
    } else {
      var init := b[..|b| - 1];
      assert a + b == (a + init) + [b[|b| - 1]];
      assert forall x :: x in init ==> x in b;
      FirstAppearanceAbsorbs(a, init, key);
      assert b[|b| - 1] in b;
      FirstAppearanceSnoc(a + init, b[|b| - 1], key);
    }
  }
}
