/** The two array operations the game's views are built from:
    `Array.prototype.filter` and the stable `Array.prototype.sort`. A sort
    comparator is represented by `before(a, b)`, which holds exactly when
    the JavaScript comparator returns a negative number for `(a, b)`. */
module Sequences {

  /** No value occurs twice. */
  predicate Distinct<T(==)>(s: seq<T>)
  {
    forall i, j :: 0 <= i < j < |s| ==> s[i] != s[j]
  }

  /** The elements of `s` that satisfy `keep`, in their original order. */
  function Filter<T(!new)>(s: seq<T>, keep: T -> bool): (r: seq<T>)
    ensures |r| <= |s|
    ensures forall x {:trigger multiset(r)[x]} :: multiset(r)[x] == if keep(x) then multiset(s)[x] else 0
    ensures forall x :: x in r <==> x in s && keep(x)
  {
    if |s| == 0 then []
    else
      assert s == [s[0]] + s[1..];
      if keep(s[0]) then [s[0]] + Filter(s[1..], keep)
      else Filter(s[1..], keep)
  }

  /** Filtering distributes over concatenation; with `FilterSingleton`
      this fixes the output as the kept elements in input order. */
  lemma {:induction false} FilterAppend<T(!new)>(a: seq<T>, b: seq<T>, keep: T -> bool)
    ensures Filter(a + b, keep) == Filter(a, keep) + Filter(b, keep)
  {
    if |a| == 0 {
      assert a + b == b;
    } else {
      assert (a + b)[1..] == a[1..] + b;
      FilterAppend(a[1..], b, keep);
    }
  }

  /** A single element is kept exactly when it satisfies `keep`. */
  lemma FilterSingleton<T(!new)>(x: T, keep: T -> bool)
    ensures Filter([x], keep) == if keep(x) then [x] else []
  {
    assert [x][1..] == [];
  }

  lemma {:induction false} FilterKeepsAll<T(!new)>(s: seq<T>, keep: T -> bool)
    requires forall i :: 0 <= i < |s| ==> keep(s[i])
    ensures Filter(s, keep) == s
  {
    if |s| > 0 {
      FilterKeepsAll(s[1..], keep);
    }
  }

  lemma {:induction false} FilterDistinct<T(!new)>(s: seq<T>, keep: T -> bool)
    requires Distinct(s)
    ensures Distinct(Filter(s, keep))
  {
    if |s| > 0 {
      FilterDistinct(s[1..], keep);
      var rest := Filter(s[1..], keep);
      assert s[0] !in s[1..];
      assert s[0] !in rest;
    }
  }

  /** A rejected element followed by kept ones filters to the kept ones. */
  lemma FilterDropHead<T(!new)>(x: T, back: seq<T>, keep: T -> bool)
    requires !keep(x)
    requires forall i :: 0 <= i < |back| ==> keep(back[i])
    ensures Filter([x] + back, keep) == back
  {
    assert ([x] + back)[1..] == back;
    FilterKeepsAll(back, keep);
  }

  /** When `keep` rejects only position `k`, filtering removes exactly
      that element and keeps the rest in place. */
  lemma FilterRemoveAt<T(!new)>(s: seq<T>, k: nat, keep: T -> bool)
    requires k < |s| && !keep(s[k])
    requires forall i :: 0 <= i < |s| && i != k ==> keep(s[i])
    ensures Filter(s, keep) == s[..k] + s[k + 1..]
  {
    var front, back := s[..k], s[k + 1..];
    assert s == front + ([s[k]] + back);
    FilterKeepsAll(front, keep);
    FilterDropHead(s[k], back, keep);
    FilterAppend(front, [s[k]] + back, keep);
  }

  /** Filtering by a predicate and by its negation splits `s` into two
      parts that together hold every element exactly as often as `s`. */
  lemma FilterPartition<T(!new)>(s: seq<T>, keep: T -> bool, drop: T -> bool)
    requires forall x :: drop(x) <==> !keep(x)
    ensures multiset(Filter(s, keep)) + multiset(Filter(s, drop)) == multiset(s)
  {
    var a, b := Filter(s, keep), Filter(s, drop);
    forall x
      ensures (multiset(a) + multiset(b))[x] == multiset(s)[x]
    {
    }
  }

  /** `before` is a strict weak order, which is what a consistent comparator yields. */
  ghost predicate StrictWeakOrder<T(!new)>(before: (T, T) -> bool)
  {
    && (forall a, b :: before(a, b) ==> !before(b, a))
    && (forall a, b, c :: !before(a, b) && !before(b, c) ==> !before(a, c))
  }

  /** No element is required to come before one that precedes it. */
  ghost predicate SortedBy<T>(before: (T, T) -> bool, s: seq<T>)
  {
    forall i, j :: 0 <= i < j < |s| ==> !before(s[j], s[i])
  }

  /** Inserts `x` after every element that it need not precede. */
  function Insert<T>(x: T, s: seq<T>, before: (T, T) -> bool): (r: seq<T>)
    ensures |r| == |s| + 1
    ensures multiset(r) == multiset(s) + multiset{x}
  {
    if |s| == 0 then [x]
    else if before(x, s[0]) then [x] + s
    else
      assert s == [s[0]] + s[1..];
      [s[0]] + Insert(x, s[1..], before)
  }

  /** Stable insertion sort: elements are taken left to right, and each is
      placed after the equivalent elements already placed. */
  function Sort<T>(s: seq<T>, before: (T, T) -> bool): (r: seq<T>)
    ensures |r| == |s|
    ensures multiset(r) == multiset(s)
  {
    if |s| == 0 then []
    else
      assert s == s[..|s| - 1] + [s[|s| - 1]];
      Insert(s[|s| - 1], Sort(s[..|s| - 1], before), before)
  }

  lemma {:induction false} InsertSorted<T(!new)>(x: T, s: seq<T>, before: (T, T) -> bool)
    requires StrictWeakOrder(before)
    requires SortedBy(before, s)
    ensures SortedBy(before, Insert(x, s, before))
  {
    var r := Insert(x, s, before);
    if |s| == 0 {
    } else if before(x, s[0]) {
      assert r == [x] + s;
      forall j | 0 < j < |r|
        ensures !before(r[j], r[0])
      {
        if j > 1 {
          assert !before(s[j - 1], s[0]);
        }
      }
    } else {
      var t := Insert(x, s[1..], before);
      InsertSorted(x, s[1..], before);
      assert r == [s[0]] + t;
      forall j | 0 < j < |r|
        ensures !before(r[j], r[0])
      {
        var e := r[j];
        assert e == t[j - 1];
        assert e in multiset(t);
        assert e in multiset(s[1..]) + multiset{x};
        if e != x {
          assert e in s[1..];
          var k :| 0 <= k < |s[1..]| && s[1..][k] == e;
          assert s[k + 1] == e;
        }
      }
    }
  }

  lemma {:induction false} SortSorted<T(!new)>(s: seq<T>, before: (T, T) -> bool)
    requires StrictWeakOrder(before)
    ensures SortedBy(before, Sort(s, before))
  {
    if |s| > 0 {
      SortSorted(s[..|s| - 1], before);
      InsertSorted(s[|s| - 1], Sort(s[..|s| - 1], before), before);
    }
  }

  /** No element left out of a prefix of a sorted sequence must come before
      an element of that prefix. */
  lemma SortedPrefixDominates<T>(s: seq<T>, n: nat, before: (T, T) -> bool)
    requires SortedBy(before, s)
    requires n <= |s|
    ensures forall y, i :: y in multiset(s) - multiset(s[..n]) && 0 <= i < n ==> !before(y, s[..n][i])
  {
    assert s == s[..n] + s[n..];
    assert multiset(s) - multiset(s[..n]) == multiset(s[n..]);
    forall y, i | y in multiset(s) - multiset(s[..n]) && 0 <= i < n
      ensures !before(y, s[..n][i])
    {
      assert y in s[n..];
      var k :| 0 <= k < |s[n..]| && s[n..][k] == y;
      assert s[n + k] == y;
    }
  }

  /** A rearrangement of a sequence without repetitions has none either. */
  lemma PermutationKeepsDistinct<T>(a: seq<T>, b: seq<T>)
    requires multiset(a) == multiset(b)
    requires Distinct(a)
    ensures Distinct(b)
  {
    forall i, j | 0 <= i < j < |b|
      ensures b[i] != b[j]
    {
      if b[i] == b[j] {
        var x := b[i];
        assert multiset(b)[x] >= 2 by {
          assert b == b[..j] + [b[j]] + b[j + 1..];
          assert x in b[..j];
        }
        DistinctCountsOne(a, x);
      }
    }
  }

  lemma {:induction false} DistinctCountsOne<T>(a: seq<T>, x: T)
    requires Distinct(a)
    ensures multiset(a)[x] <= 1
  {
    if |a| > 0 {
      assert a == [a[0]] + a[1..];
      DistinctCountsOne(a[1..], x);
      if a[0] == x {
        assert x !in a[1..];
      }
    }
  }
}
