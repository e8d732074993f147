/** `ORDER BY`: a stable sort by a caller-given total preorder. */
module Sorting {

  /** `le` is total and transitive, as an `ORDER BY` key comparison is. */
  ghost predicate TotalPreorder<T(!new)>(le: (T, T) -> bool) {
    (forall a, b :: le(a, b) || le(b, a))
    && (forall a, b, c :: le(a, b) && le(b, c) ==> le(a, c))
  }

  predicate SortedBy<T>(xs: seq<T>, le: (T, T) -> bool) {
    forall i, j | 0 <= i < j < |xs| :: le(xs[i], xs[j])
  }

  /** Insert `x` before the first element it does not come after. */
  function Insert<T>(x: T, xs: seq<T>, le: (T, T) -> bool): (r: seq<T>)
    ensures multiset(r) == multiset(xs) + multiset{x}
    ensures |r| == |xs| + 1
  {
    if xs == [] then [x]
    else if le(x, xs[0]) then [x] + xs
    else
      assert xs == [xs[0]] + xs[1..];
      [xs[0]] + Insert(x, xs[1..], le)
  }

  /** Insertion sort; an element keeps its place before later equal ones.
      `ORDER BY` leaves the order of equal rows unspecified: stability is
      this model's choice for them. */
  function SortBy<T>(xs: seq<T>, le: (T, T) -> bool): (r: seq<T>)
    ensures multiset(r) == multiset(xs)
    ensures |r| == |xs|
  {
    if xs == [] then []
    else
      assert xs == [xs[0]] + xs[1..];
      Insert(xs[0], SortBy(xs[1..], le), le)
  }

  lemma {:induction false} InsertSorted<T(!new)>(x: T, xs: seq<T>, le: (T, T) -> bool)
    requires TotalPreorder(le) && SortedBy(xs, le)
    ensures SortedBy(Insert(x, xs, le), le)
  {
    if xs != [] && !le(x, xs[0]) {
      var r, t := Insert(x, xs, le), Insert(x, xs[1..], le);
      assert SortedBy(t, le) by {
        assert SortedBy(xs[1..], le) by {
          forall i, j | 0 <= i < j < |xs[1..]| ensures le(xs[1..][i], xs[1..][j]) {
            assert xs[1..][i] == xs[i + 1] && xs[1..][j] == xs[j + 1];
          }
        }
        InsertSorted(x, xs[1..], le);
      }
      assert forall k | 0 <= k < |xs[1..]| :: le(xs[0], xs[1..][k]) by {
        forall k | 0 <= k < |xs[1..]| ensures le(xs[0], xs[1..][k]) {
          assert xs[1..][k] == xs[k + 1];
        }
      }
      InsertLowerBound(xs[0], x, xs[1..], le);
      assert r == [xs[0]] + t;
      forall i, j | 0 <= i < j < |r|
        ensures le(r[i], r[j])
      {
        assert r[j] == t[j - 1];
        if i > 0 {
          assert r[i] == t[i - 1];
        }
      }
    } else if xs != [] {
      var r := Insert(x, xs, le);
      assert r == [x] + xs;
      forall i, j | 0 <= i < j < |r|
        ensures le(r[i], r[j])
      {
        assert r[j] == xs[j - 1];
        if i > 0 {
          assert r[i] == xs[i - 1];
        } else {
          assert le(xs[0], xs[j - 1]) || j == 1;
        }
      }
    }
  }

  /** A lower bound of `x` and of every element of `xs` bounds the insertion. */
  lemma {:induction false} InsertLowerBound<T>(y: T, x: T, xs: seq<T>, le: (T, T) -> bool)
    requires le(y, x) && forall k | 0 <= k < |xs| :: le(y, xs[k])
    ensures forall j | 0 <= j < |Insert(x, xs, le)| :: le(y, Insert(x, xs, le)[j])
  {
    if xs != [] && !le(x, xs[0]) {
      var r, t := Insert(x, xs, le), Insert(x, xs[1..], le);
      assert forall k | 0 <= k < |xs[1..]| :: le(y, xs[1..][k]) by {
        forall k | 0 <= k < |xs[1..]| ensures le(y, xs[1..][k]) {
          assert xs[1..][k] == xs[k + 1];
        }
      }
      InsertLowerBound(y, x, xs[1..], le);
      assert r == [xs[0]] + t;
      forall j | 0 <= j < |r|
        ensures le(y, r[j])
      {
        if j > 0 {
          assert r[j] == t[j - 1];
        }
      }
    } else if xs != [] {
      var r := Insert(x, xs, le);
      assert r == [x] + xs;
      forall j | 0 <= j < |r|
        ensures le(y, r[j])
      {
        if j > 0 {
          assert r[j] == xs[j - 1];
        }
      }
    }
  }

  /** The result is ordered whenever `le` is a total preorder. */
  lemma {:induction false} SortBySorted<T(!new)>(xs: seq<T>, le: (T, T) -> bool)
    requires TotalPreorder(le)
    ensures SortedBy(SortBy(xs, le), le)
  {
    if xs != [] {
      SortBySorted(xs[1..], le);
      InsertSorted(xs[0], SortBy(xs[1..], le), le);
    }
  }

  lemma {:induction false} SortedConcat<T>(a: seq<T>, b: seq<T>, le: (T, T) -> bool)
    requires SortedBy(a, le) && SortedBy(b, le)
    requires forall i, j | 0 <= i < |a| && 0 <= j < |b| :: le(a[i], b[j])
    ensures SortedBy(a + b, le)
  {
    forall i, j | 0 <= i < j < |a + b|
      ensures le((a + b)[i], (a + b)[j])
    {
      if j < |a| {
      } else if i < |a| {
        assert (a + b)[j] == b[j - |a|];
      } else {
        assert (a + b)[i] == b[i - |a|] && (a + b)[j] == b[j - |a|];
      }
    }
  }

  /** Sorting an ordered sequence leaves it as it is. */
  lemma {:induction false} SortByOrdered<T>(xs: seq<T>, le: (T, T) -> bool)
    requires SortedBy(xs, le)
    ensures SortBy(xs, le) == xs
  {
    if xs != [] {
      assert SortedBy(xs[1..], le) by {
        forall i, j | 0 <= i < j < |xs[1..]| ensures le(xs[1..][i], xs[1..][j]) {
          assert xs[1..][i] == xs[i + 1] && xs[1..][j] == xs[j + 1];
        }
      }
      SortByOrdered(xs[1..], le);
      assert xs == [xs[0]] + xs[1..];
    }
  }
}
