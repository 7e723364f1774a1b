/** Sequence helpers standing for `Array.prototype.filter` and `.map`, `.slice(0, n)`, SQL `LIMIT`,
    and a stable sort for JavaScript's `Array.prototype.sort` and SQL `ORDER BY`. */
module Seqs {

  function Filter<T(!new)>(s: seq<T>, p: T -> bool): (r: seq<T>)
    ensures |r| <= |s|
    ensures forall x :: x in r <==> x in s && p(x)
  {
    if s == [] then [] else (if p(s[0]) then [s[0]] else []) + Filter(s[1..], p)
  }

  lemma {:induction false} FilterConcat<T(!new)>(a: seq<T>, b: seq<T>, p: T -> bool)
    ensures Filter(a + b, p) == Filter(a, p) + Filter(b, p)
  {
    if a != [] {
      assert (a + b)[0] == a[0] && (a + b)[1..] == a[1..] + b;
      FilterConcat(a[1..], b, p);
    } else {
      assert a + b == b;
    }
  }

  lemma {:induction false} FilterKeepsAll<T(!new)>(s: seq<T>, p: T -> bool)
    requires forall x :: x in s ==> p(x)
    ensures Filter(s, p) == s
  {
    if s != [] {
      FilterKeepsAll(s[1..], p);
    }
  }

  lemma {:induction false} FilterDropsAll<T(!new)>(s: seq<T>, p: T -> bool)
    requires forall x :: x in s ==> !p(x)
    ensures Filter(s, p) == []
  {
    if s != [] {
      FilterDropsAll(s[1..], p);
    }
  }

  /** The first `n` elements, or all of them when there are fewer (`LIMIT n`, `.slice(0, n)`). */
  function Take<T>(s: seq<T>, n: nat): (r: seq<T>)
    ensures |r| == if |s| <= n then |s| else n
    ensures r == s[..|r|]
  {
    if |s| <= n then s else s[..n]
  }

  /** `Array.prototype.map` with a function of the element alone. */
  function Map<A, B>(s: seq<A>, f: A -> B): (r: seq<B>)
    ensures |r| == |s|
    ensures forall i :: 0 <= i < |s| ==> r[i] == f(s[i])
  {
    if s == [] then [] else [f(s[0])] + Map(s[1..], f)
  }

  /** A sequence that agrees with `f` on a prefix of `ys`, extended by `f` of the last
      element, agrees with `f` on all of `ys`. */
  lemma PointwiseSnoc<A, B>(xs: seq<B>, x: B, ys: seq<A>, f: A -> B)
    requires ys != [] && |xs| + 1 == |ys|
    requires forall i :: 0 <= i < |xs| ==> xs[i] == f(ys[i])
    requires x == f(ys[|ys| - 1])
    ensures forall i :: 0 <= i < |ys| ==> (xs + [x])[i] == f(ys[i])
  {
  }

  lemma {:induction false} MapConcat<A, B>(a: seq<A>, b: seq<A>, f: A -> B)
    ensures Map(a + b, f) == Map(a, f) + Map(b, f)
  {
    if a != [] {
      assert (a + b)[0] == a[0] && (a + b)[1..] == a[1..] + b;
      MapConcat(a[1..], b, f);
    } else {
      assert a + b == b;
    }
  }

  ghost predicate Distinct<T>(s: seq<T>) {
    forall i, j :: 0 <= i < j < |s| ==> s[i] != s[j]
  }

  lemma {:induction false} FilterDistinct<T(!new)>(s: seq<T>, p: T -> bool)
    requires Distinct(s)
    ensures Distinct(Filter(s, p))
  {
    if s != [] {
      assert Distinct(s[1..]) by {
        forall i, j | 0 <= i < j < |s[1..]| ensures s[1..][i] != s[1..][j] {
          assert s[1..][i] == s[i + 1] && s[1..][j] == s[j + 1];
        }
      }
      FilterDistinct(s[1..], p);
      assert s[0] !in s[1..] by {
        forall k | 0 <= k < |s[1..]| ensures s[1..][k] != s[0] {
          assert s[1..][k] == s[k + 1];
        }
      }
    }
  }

  /** `less` is irreflexive and transitive: enough for insertion sort to sort. */
  ghost predicate StrictOrder<T(!new)>(less: (T, T) -> bool) {
    && (forall x :: !less(x, x))
    && (forall x, y, z :: less(x, y) && less(y, z) ==> less(x, z))
  }

  /** No element is strictly less than an element before it. */
  ghost predicate SortedBy<T>(s: seq<T>, less: (T, T) -> bool) {
    forall i, j :: 0 <= i < j < |s| ==> !less(s[j], s[i])
  }

  /** Inserts `x` after every element it is not strictly less than (keeps ties in arrival order). */
  function Insert<T>(x: T, s: seq<T>, less: (T, T) -> bool): (r: seq<T>)
    ensures |r| == |s| + 1
    ensures multiset(r) == multiset(s) + multiset{x}
  {
    if s == [] then [x]
    else if less(x, s[0]) then [x] + s
    else
      assert s == [s[0]] + s[1..];
      [s[0]] + Insert(x, s[1..], less)
  }

  /** Stable insertion sort; stands for a stable library sort with comparator `less`. */
  function SortBy<T>(s: seq<T>, less: (T, T) -> bool): (r: seq<T>)
    ensures |r| == |s|
    ensures multiset(r) == multiset(s)
  {
    if s == [] then []
    else
      assert s == s[..|s| - 1] + [s[|s| - 1]];
      Insert(s[|s| - 1], SortBy(s[..|s| - 1], less), less)
  }

  /** Sorting keeps exactly the elements it was given. */
  lemma SortByMembers<T>(s: seq<T>, less: (T, T) -> bool)
    ensures forall x :: x in SortBy(s, less) <==> x in s
  {
    var r := SortBy(s, less);
    forall x ensures x in r <==> x in s {
      assert x in r <==> x in multiset(r);
      assert x in s <==> x in multiset(s);
    }
  }

  /** Mapping after sorting gives a permutation of mapping before it. */
  lemma {:induction false} MapSortBy<A, B>(s: seq<A>, less: (A, A) -> bool, f: A -> B)
    ensures multiset(Map(SortBy(s, less), f)) == multiset(Map(s, f))
  {
    if s != [] {
      var init, last := s[..|s| - 1], s[|s| - 1];
      calc {
        multiset(Map(SortBy(s, less), f));
        multiset(Map(Insert(last, SortBy(init, less), less), f));
        { MapInsert(last, SortBy(init, less), less, f); }
        multiset(Map(SortBy(init, less), f)) + multiset{f(last)};
        { MapSortBy(init, less, f); }
        multiset(Map(init, f)) + multiset{f(last)};
        multiset(Map(init, f) + [f(last)]);
        { MapConcat(init, [last], f); assert Map([last], f) == [f(last)]; }
        multiset(Map(init + [last], f));
        { assert s == init + [last]; }
        multiset(Map(s, f));
      }
    }
  }

  lemma {:induction false} MapInsert<A, B>(x: A, s: seq<A>, less: (A, A) -> bool, f: A -> B)
    ensures multiset(Map(Insert(x, s, less), f)) == multiset(Map(s, f)) + multiset{f(x)}
  {
    if s == [] {
      assert Map([x], f) == [f(x)];
    } else if less(x, s[0]) {
      assert Insert(x, s, less) == [x] + s;
      MapCons(x, s, f);
    } else {
      MapInsert(x, s[1..], less, f);
      MapInsertBehind(x, s, less, f);
    }
  }

  /** The step of `MapInsert` where `x` goes behind the head. */
  lemma MapInsertBehind<A, B>(x: A, s: seq<A>, less: (A, A) -> bool, f: A -> B)
    requires s != [] && !less(x, s[0])
    requires multiset(Map(Insert(x, s[1..], less), f)) == multiset(Map(s[1..], f)) + multiset{f(x)}
    ensures multiset(Map(Insert(x, s, less), f)) == multiset(Map(s, f)) + multiset{f(x)}
  {
    InsertBehind(x, s, less);
    MapCons(s[0], Insert(x, s[1..], less), f);
    MapCons(s[0], s[1..], f);
    UnionAssoc(multiset{f(s[0])}, multiset(Map(s[1..], f)), multiset{f(x)});
  }

  lemma InsertBehind<T>(x: T, s: seq<T>, less: (T, T) -> bool)
    requires s != [] && !less(x, s[0])
    ensures Insert(x, s, less) == [s[0]] + Insert(x, s[1..], less)
    ensures s == [s[0]] + s[1..]
  {
  }

  lemma UnionAssoc<T>(a: multiset<T>, b: multiset<T>, c: multiset<T>)
    ensures a + (b + c) == (a + b) + c
  {
  }

  lemma MapCons<A, B>(x: A, s: seq<A>, f: A -> B)
    ensures multiset(Map([x] + s, f)) == multiset{f(x)} + multiset(Map(s, f))
  {
    assert ([x] + s)[1..] == s;
    assert Map([x] + s, f) == [f(x)] + Map(s, f);
  }

  lemma {:induction false} InsertSorted<T(!new)>(x: T, s: seq<T>, less: (T, T) -> bool)
    requires StrictOrder(less) && SortedBy(s, less)
    ensures SortedBy(Insert(x, s, less), less)
  {
    if s == [] {
    } else if less(x, s[0]) {
      var r := [x] + s;
      forall i, j | 0 <= i < j < |r| ensures !less(r[j], r[i]) {
        if i == 0 {
          assert r[j] == s[j - 1];
          assert !less(s[j - 1], s[0]);
        }
      }
    } else {
      var t := Insert(x, s[1..], less);
      InsertSorted(x, s[1..], less);
      var r := [s[0]] + t;
      assert Insert(x, s, less) == r;
      forall i, j | 0 <= i < j < |r| ensures !less(r[j], r[i]) {
        if i == 0 {
          assert r[j] in multiset(t);
          assert r[j] == x || r[j] in multiset(s[1..]);
          if r[j] != x {
            assert r[j] in s[1..];
            var k :| 0 <= k < |s[1..]| && s[1..][k] == r[j];
            assert s[k + 1] == r[j];
          }
        }
      }
    }
  }

  lemma {:induction false} SortBySorted<T(!new)>(s: seq<T>, less: (T, T) -> bool)
    requires StrictOrder(less)
    ensures SortedBy(SortBy(s, less), less)
  {
    if s != [] {
      SortBySorted(s[..|s| - 1], less);
      InsertSorted(s[|s| - 1], SortBy(s[..|s| - 1], less), less);
    }
  }

  /** `ORDER BY ... LIMIT n` as sort-then-take: the result is drawn from `s`, sorted, and
      no element of `s` it leaves out sorts strictly before one it keeps. */
  lemma FirstBy<T(!new)>(s: seq<T>, less: (T, T) -> bool, n: nat)
    requires StrictOrder(less)
    ensures var r := Take(SortBy(s, less), n);
            && multiset(r) <= multiset(s)
            && SortedBy(r, less)
            && forall x :: x in s && x !in r ==> forall i :: 0 <= i < |r| ==> !less(x, r[i])
  {
    var sorted := SortBy(s, less);
    SortBySorted(s, less);
    SortedPrefix(sorted, |Take(sorted, n)|, less);
    forall x | x in s ensures x in sorted {
      assert x in multiset(sorted);
    }
  }

  /** A prefix of a sorted sequence is sorted, and holds a sub-multiset of it; what it
      leaves out sorts strictly before nothing it keeps. */
  lemma SortedPrefix<T>(sorted: seq<T>, k: nat, less: (T, T) -> bool)
    requires k <= |sorted| && SortedBy(sorted, less)
    ensures multiset(sorted[..k]) <= multiset(sorted)
    ensures SortedBy(sorted[..k], less)
    ensures forall x :: x in sorted && x !in sorted[..k] ==> forall i :: 0 <= i < k ==> !less(x, sorted[i])
  {
    assert sorted == sorted[..k] + sorted[k..];
    assert multiset(sorted) == multiset(sorted[..k]) + multiset(sorted[k..]);
    forall x | x in sorted && x !in sorted[..k] ensures forall i :: 0 <= i < k ==> !less(x, sorted[i]) {
      var j :| 0 <= j < |sorted| && sorted[j] == x;
      assert forall m :: 0 <= m < k ==> sorted[..k][m] == sorted[m];
      assert j >= k;
    }
  }

  lemma {:induction false} InsertDistinct<T>(x: T, s: seq<T>, less: (T, T) -> bool)
    requires Distinct(s) && x !in s
    ensures Distinct(Insert(x, s, less))
  {
    if s != [] && !less(x, s[0]) {
      InsertDistinct(x, s[1..], less);
      var t := Insert(x, s[1..], less);
      assert s[0] !in s[1..] by {
        forall k | 0 <= k < |s[1..]| ensures s[1..][k] != s[0] {
          assert s[1..][k] == s[k + 1];
        }
      }
      forall j | 0 <= j < |t| ensures t[j] != s[0] {
        assert t[j] in multiset(t);
      }
      assert Insert(x, s, less) == [s[0]] + t;
    }
  }

  lemma {:induction false} SortByDistinct<T>(s: seq<T>, less: (T, T) -> bool)
    requires Distinct(s)
    ensures Distinct(SortBy(s, less))
  {
    if s != [] {
      var init := s[..|s| - 1];
      SortByDistinct(init, less);
      var last := s[|s| - 1];
      assert last !in init by {
        forall k | 0 <= k < |init| ensures init[k] != last {
          assert init[k] == s[k];
        }
      }
      assert last !in multiset(SortBy(init, less));
      InsertDistinct(last, SortBy(init, less), less);
    }
  }
}
