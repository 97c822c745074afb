/** Array operations the app uses on lists: `filter`, `some`, and a stable
    `Array.prototype.sort` driven by a "sorts at or before" relation. */
module Seqs {

  /** `xs.filter(p)`. */
  function Filter<T(!new)>(xs: seq<T>, p: T -> bool): (r: seq<T>)
    ensures |r| <= |xs|
    ensures forall x :: x in r <==> x in xs && p(x)
    decreases |xs|
  {
    if xs == [] then []
    else if p(xs[0]) then [xs[0]] + Filter(xs[1..], p)
    else Filter(xs[1..], p)
  }

  /** The test `x => x !== v`. */
  function Differs<T(==)>(v: T): T -> bool {
    x => x != v
  }

  /** An element the test rejects adds nothing at the end of the list. */
  lemma {:induction false} FilterAppendRejected<T(!new)>(xs: seq<T>, v: T, p: T -> bool)
    requires !p(v)
    ensures Filter(xs + [v], p) == Filter(xs, p)
    decreases |xs|
  {
    if xs == [] {
      assert Filter([v], p) == Filter([v][1..], p);
    } else {
      assert (xs + [v])[1..] == xs[1..] + [v];
      FilterAppendRejected(xs[1..], v, p);
    }
  }

  /** `a` is `b` with some elements left out and the rest kept in order. */
  predicate IsSubseq<T(==)>(a: seq<T>, b: seq<T>)
    decreases |b|
  {
    a == [] || (b != [] && if a[0] == b[0] then IsSubseq(a[1..], b[1..]) else IsSubseq(a, b[1..]))
  }

  lemma {:induction false} FilterIsSubseq<T(!new)>(xs: seq<T>, p: T -> bool)
    ensures IsSubseq(Filter(xs, p), xs)
    decreases |xs|
  {
    if xs != [] {
      FilterIsSubseq(xs[1..], p);
      var r := Filter(xs[1..], p);
      if p(xs[0]) {
        assert ([xs[0]] + r)[1..] == r;
      } else if r != [] {
        // r[0] satisfies p, so it is not xs[0]
        assert r[0] in r;
      }
    }
  }

  lemma {:induction false} FilterMultiset<T(!new)>(xs: seq<T>, p: T -> bool)
    ensures multiset(Filter(xs, p)) <= multiset(xs)
    decreases |xs|
  {
    if xs != [] {
      FilterMultiset(xs[1..], p);
      assert xs == [xs[0]] + xs[1..];
      assert multiset(xs) == multiset{xs[0]} + multiset(xs[1..]);
      if p(xs[0]) {
        assert multiset(Filter(xs, p)) == multiset{xs[0]} + multiset(Filter(xs[1..], p));
      }
    }
  }

  /** Each element is kept as often as it occurs when the test accepts it, and
      not at all otherwise. */
  lemma {:induction false} FilterMultiplicity<T(!new)>(xs: seq<T>, p: T -> bool)
    ensures forall x :: multiset(Filter(xs, p))[x] == if p(x) then multiset(xs)[x] else 0
    decreases |xs|
  {
    if xs != [] {
      FilterMultiplicity(xs[1..], p);
      assert xs == [xs[0]] + xs[1..];
      assert multiset(xs) == multiset{xs[0]} + multiset(xs[1..]);
      if p(xs[0]) {
        assert multiset(Filter(xs, p)) == multiset{xs[0]} + multiset(Filter(xs[1..], p));
      }
    }
  }

  lemma {:induction false} FilterKeepsAll<T(!new)>(xs: seq<T>, p: T -> bool)
    requires forall x :: x in xs ==> p(x)
    ensures Filter(xs, p) == xs
    decreases |xs|
  {
    if xs != [] {
      assert xs[0] in xs;
      assert forall x :: x in xs[1..] ==> x in xs;
      FilterKeepsAll(xs[1..], p);
      assert xs == [xs[0]] + xs[1..];
    }
  }

  lemma {:induction false} FilterKeepsNone<T(!new)>(xs: seq<T>, p: T -> bool)
    requires forall x :: x in xs ==> !p(x)
    ensures Filter(xs, p) == []
    decreases |xs|
  {
    if xs != [] {
      assert xs[0] in xs;
      assert forall x :: x in xs[1..] ==> x in xs;
      FilterKeepsNone(xs[1..], p);
    }
  }

  /** Two tests that never both hold pick disjoint parts of the list. */
  lemma {:induction false} FilterPairBounded<T(!new)>(xs: seq<T>, p: T -> bool, q: T -> bool)
    requires forall x :: !(p(x) && q(x))
    ensures multiset(Filter(xs, p)) + multiset(Filter(xs, q)) <= multiset(xs)
    decreases |xs|
  {
    if xs != [] {
      FilterPairBounded(xs[1..], p, q);
      assert xs == [xs[0]] + xs[1..];
      assert multiset(xs) == multiset{xs[0]} + multiset(xs[1..]);
    }
  }

  /** ... and the whole list when one of them holds for every element. */
  lemma {:induction false} FilterPairCovers<T(!new)>(xs: seq<T>, p: T -> bool, q: T -> bool)
    requires forall x :: !(p(x) && q(x))
    requires forall i :: 0 <= i < |xs| ==> p(xs[i]) || q(xs[i])
    ensures multiset(Filter(xs, p)) + multiset(Filter(xs, q)) == multiset(xs)
    decreases |xs|
  {
    if xs != [] {
      assert forall i :: 0 <= i < |xs[1..]| ==> xs[1..][i] == xs[i + 1];
      FilterPairCovers(xs[1..], p, q);
      assert xs == [xs[0]] + xs[1..];
      assert multiset(xs) == multiset{xs[0]} + multiset(xs[1..]);
    }
  }

  /** Filtering by `p` and then by `q` is filtering by both. */
  lemma {:induction false} FilterFilter<T(!new)>(xs: seq<T>, p: T -> bool, q: T -> bool)
    ensures Filter(Filter(xs, p), q) == Filter(xs, x => p(x) && q(x))
    decreases |xs|
  {
    if xs != [] {
      FilterFilter(xs[1..], p, q);
      if p(xs[0]) {
        assert Filter(xs, p) == [xs[0]] + Filter(xs[1..], p);
        assert ([xs[0]] + Filter(xs[1..], p))[1..] == Filter(xs[1..], p);
      }
    }
  }

  // ---------------------------------------------------------------------------
  // Sorting

  /** `le(a, b)`: `a` may stand before `b`; a comparator `cmp` gives `cmp(a, b) <= 0`. */
  ghost predicate TotalPreorder<T(!new)>(le: (T, T) -> bool) {
    && (forall a, b :: le(a, b) || le(b, a))
    && (forall a, b, c :: le(a, b) && le(b, c) ==> le(a, c))
  }

  ghost predicate SortedBy<T>(le: (T, T) -> bool, xs: seq<T>) {
    forall i, j :: 0 <= i < j < |xs| ==> le(xs[i], xs[j])
  }

  /** Places `x` in front of the first element it may precede. */
  function Insert<T>(x: T, xs: seq<T>, le: (T, T) -> bool): (r: seq<T>)
    ensures multiset(r) == multiset(xs) + multiset{x}
    decreases |xs|
  {
    if xs == [] then [x]
    else if le(x, xs[0]) then [x] + xs
    else
      assert xs == [xs[0]] + xs[1..];
      [xs[0]] + Insert(x, xs[1..], le)
  }

  /** A stable sort: an element goes before the later elements it ties with,
      as `Array.prototype.sort` does. */
  function InsertionSort<T>(xs: seq<T>, le: (T, T) -> bool): (r: seq<T>)
    ensures multiset(r) == multiset(xs)
    decreases |xs|
  {
    if xs == [] then []
    else
      assert xs == [xs[0]] + xs[1..];
      Insert(xs[0], InsertionSort(xs[1..], le), le)
  }

  lemma {:induction false} InsertSorted<T(!new)>(x: T, xs: seq<T>, le: (T, T) -> bool)
    requires TotalPreorder(le) && SortedBy(le, xs)
    ensures SortedBy(le, Insert(x, xs, le))
    decreases |xs|
  {
    if xs != [] && !le(x, xs[0]) {
      assert le(xs[0], x);
      InsertSorted(x, xs[1..], le);
      var tail := Insert(x, xs[1..], le);
      forall k | 0 <= k < |tail| ensures le(xs[0], tail[k]) {
        assert tail[k] in multiset(xs[1..]) + multiset{x};
        if tail[k] != x {
          assert tail[k] in xs[1..];
        }
      }
    }
  }

  lemma {:induction false} InsertionSortSorted<T(!new)>(xs: seq<T>, le: (T, T) -> bool)
    requires TotalPreorder(le)
    ensures SortedBy(le, InsertionSort(xs, le))
    decreases |xs|
  {
    if xs != [] {
      InsertionSortSorted(xs[1..], le);
      InsertSorted(xs[0], InsertionSort(xs[1..], le), le);
    }
  }
}
