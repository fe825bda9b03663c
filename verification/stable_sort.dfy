/**
 * `Array.prototype.sort(comparator)`. The sort is stable, so for a consistent
 * comparator its result is fully determined: the one permutation that is
 * ordered by the comparator and keeps the input order among elements the
 * comparator calls equal. `SortBy` computes it by insertion, and
 * `StableSortIsUnique` shows that any such permutation equals it.
 */
module StableSort {
  import opened Seqs

  /** Swapping the arguments negates the comparator. */
  ghost predicate Antisymmetric<T(!new)>(cmp: (T, T) -> int) {
    forall a, b :: cmp(a, b) == -cmp(b, a)
  }

  /** "May come first" (`cmp(a, b) <= 0`) is transitive. */
  ghost predicate Transitive<T(!new)>(cmp: (T, T) -> int) {
    forall a, b, c :: cmp(a, b) <= 0 && cmp(b, c) <= 0 ==> cmp(a, c) <= 0
  }

  /** A comparator for which the sort's result is well defined. */
  ghost predicate Consistent<T(!new)>(cmp: (T, T) -> int) {
    Antisymmetric(cmp) && Transitive(cmp)
  }

  /** Whether `y` ties with `x` under the comparator. */
  function Tie<T>(cmp: (T, T) -> int, x: T): T -> bool {
    y => cmp(x, y) == 0
  }

  /** Every element may come before every later one. */
  ghost predicate Sorted<T>(s: seq<T>, cmp: (T, T) -> int) {
    forall i, j :: 0 <= i < j < |s| ==> cmp(s[i], s[j]) <= 0
  }

  /** Within every group of tied elements, `r` keeps the order of `s`. */
  ghost predicate SameTies<T(!new)>(r: seq<T>, s: seq<T>, cmp: (T, T) -> int) {
    forall x :: Filter(r, Tie(cmp, x)) == Filter(s, Tie(cmp, x))
  }

  /** What a stable sort of `s` by `cmp` returns. */
  ghost predicate IsStableSortOf<T(!new)>(r: seq<T>, s: seq<T>, cmp: (T, T) -> int) {
    && multiset(r) == multiset(s)
    && Sorted(r, cmp)
    && SameTies(r, s, cmp)
  }

  /** Puts `x` before the first element of `s` it may come before. */
  function Insert<T(==)>(x: T, s: seq<T>, cmp: (T, T) -> int): (r: seq<T>)
    ensures multiset(r) == multiset(s) + multiset{x}
  {
    if s == [] || cmp(x, s[0]) <= 0 then [x] + s
    else
      assert s == [s[0]] + s[1..];
      [s[0]] + Insert(x, s[1..], cmp)
  }

  /** `s.sort(cmp)`: each element inserted into the sorted rest. */
  function SortBy<T(==)>(s: seq<T>, cmp: (T, T) -> int): (r: seq<T>)
    ensures multiset(r) == multiset(s)
  {
    if s == [] then []
    else
      assert s == [s[0]] + s[1..];
      Insert(s[0], SortBy(s[1..], cmp), cmp)
  }

  /** The elements of `Insert(x, s, cmp)` are `x` and those of `s`. */
  lemma InsertMembers<T(!new)>(x: T, s: seq<T>, cmp: (T, T) -> int)
    ensures forall e :: e in Insert(x, s, cmp) ==> e == x || e in s
  {
    forall e | e in Insert(x, s, cmp) ensures e == x || e in s {
      assert multiset(Insert(x, s, cmp))[e] > 0;
    }
  }

  /** An element that may come before `x` and before all of `s` may come before all of `Insert(x, s, cmp)`. */
  lemma InsertLowerBound<T(!new)>(y: T, x: T, s: seq<T>, cmp: (T, T) -> int)
    requires cmp(y, x) <= 0 && forall e :: e in s ==> cmp(y, e) <= 0
    ensures forall e :: e in Insert(x, s, cmp) ==> cmp(y, e) <= 0
  {
    InsertMembers(x, s, cmp);
  }

  /** A sorted sequence is its head followed by a sorted tail that the head may precede. */
  lemma SortedCons<T>(y: T, t: seq<T>, cmp: (T, T) -> int)
    requires Sorted(t, cmp) && forall e :: e in t ==> cmp(y, e) <= 0
    ensures Sorted([y] + t, cmp)
  {
    var r := [y] + t;
    forall i, j | 0 <= i < j < |r| ensures cmp(r[i], r[j]) <= 0 {
      assert r[j] == t[j - 1];
      if i > 0 { assert r[i] == t[i - 1]; }
    }
  }

  lemma {:induction false} InsertSorted<T(!new)>(x: T, s: seq<T>, cmp: (T, T) -> int)
    requires Consistent(cmp) && Sorted(s, cmp)
    ensures Sorted(Insert(x, s, cmp), cmp)
  {
    if s == [] || cmp(x, s[0]) <= 0 {
      forall e | e in s ensures cmp(x, e) <= 0 {
        var k :| 0 <= k < |s| && s[k] == e;
        assert cmp(s[0], s[k]) <= 0;
      }
      SortedCons(x, s, cmp);
    } else {
      InsertSorted(x, s[1..], cmp);
      forall e | e in s[1..] ensures cmp(s[0], e) <= 0 {
        var k :| 0 <= k < |s[1..]| && s[1..][k] == e;
        assert s[k + 1] == e;
      }
      InsertLowerBound(s[0], x, s[1..], cmp);
      SortedCons(s[0], Insert(x, s[1..], cmp), cmp);
    }
  }

  /** Inserting `x` adds it to its own tie group, ahead of the others. */
  lemma {:induction false} InsertTies<T(!new)>(x: T, s: seq<T>, cmp: (T, T) -> int, y: T)
    requires Consistent(cmp)
    ensures Filter(Insert(x, s, cmp), Tie(cmp, y)) == Filter([x] + s, Tie(cmp, y))
  {
    if s != [] && cmp(x, s[0]) > 0 {
      InsertTies(x, s[1..], cmp, y);
      assert ([s[0]] + Insert(x, s[1..], cmp))[1..] == Insert(x, s[1..], cmp);
      assert ([x] + s)[1..] == s;
      assert ([x] + s[1..])[1..] == s[1..];
      assert s == [s[0]] + s[1..];
    }
  }

  lemma {:induction false} SortBySorted<T(!new)>(s: seq<T>, cmp: (T, T) -> int)
    requires Consistent(cmp)
    ensures Sorted(SortBy(s, cmp), cmp)
  {
    if s != [] {
      SortBySorted(s[1..], cmp);
      InsertSorted(s[0], SortBy(s[1..], cmp), cmp);
    }
  }

  lemma {:induction false} SortByTies<T(!new)>(s: seq<T>, cmp: (T, T) -> int, y: T)
    requires Consistent(cmp)
    ensures Filter(SortBy(s, cmp), Tie(cmp, y)) == Filter(s, Tie(cmp, y))
  {
    if s != [] {
      var t := SortBy(s[1..], cmp);
      SortByTies(s[1..], cmp, y);
      InsertTies(s[0], t, cmp, y);
      assert ([s[0]] + t)[1..] == t;
      assert s == [s[0]] + s[1..];
    }
  }

  /** `SortBy` is a stable sort. */
  lemma SortByIsStableSort<T(!new)>(s: seq<T>, cmp: (T, T) -> int)
    requires Consistent(cmp)
    ensures IsStableSortOf(SortBy(s, cmp), s, cmp)
  {
    SortBySorted(s, cmp);
    forall y ensures Filter(SortBy(s, cmp), Tie(cmp, y)) == Filter(s, Tie(cmp, y)) {
      SortByTies(s, cmp, y);
    }
  }

  /** A sequence that is not empty heads the tie group of its first element. */
  lemma HeadOfTies<T(!new)>(r: seq<T>, cmp: (T, T) -> int)
    requires Consistent(cmp) && r != []
    ensures Filter(r, Tie(cmp, r[0])) == [r[0]] + Filter(r[1..], Tie(cmp, r[0]))
  {
    assert cmp(r[0], r[0]) == -cmp(r[0], r[0]);
  }

  /** The first element of a sorted sequence may come before each of its elements. */
  lemma HeadComesFirst<T(!new)>(r: seq<T>, cmp: (T, T) -> int, e: T)
    requires Consistent(cmp) && Sorted(r, cmp) && e in r
    ensures cmp(r[0], e) <= 0
  {
    var k :| 0 <= k < |r| && r[k] == e;
    assert k == 0 ==> cmp(e, e) == -cmp(e, e);
  }

  /** With the same tie groups, the head of `r` occurs in `t`. */
  lemma HeadInOther<T(!new)>(r: seq<T>, t: seq<T>, cmp: (T, T) -> int)
    requires Consistent(cmp) && SameTies(r, t, cmp) && r != []
    ensures r[0] in t
  {
    HeadOfTies(r, cmp);
    assert Filter(r, Tie(cmp, r[0])) == Filter(t, Tie(cmp, r[0]));
    FilterCounts(t, Tie(cmp, r[0]));
    assert r[0] in Filter(t, Tie(cmp, r[0]));
  }

  /** Two sorted sequences with the same tie groups start with the same element. */
  lemma SameHead<T(!new)>(r: seq<T>, t: seq<T>, cmp: (T, T) -> int)
    requires Consistent(cmp) && Sorted(r, cmp) && Sorted(t, cmp) && SameTies(r, t, cmp)
    requires r != [] || t != []
    ensures r != [] && t != [] && r[0] == t[0]
  {
    if r != [] {
      HeadInOther(r, t, cmp);
    }
    if t != [] {
      assert SameTies(t, r, cmp);
      HeadInOther(t, r, cmp);
    }
    var a, b := r[0], t[0];
    HeadComesFirst(t, cmp, a);
    HeadComesFirst(r, cmp, b);
    assert cmp(a, b) == 0;
    HeadOfTies(r, cmp);
    assert Filter(t, Tie(cmp, a)) == [b] + Filter(t[1..], Tie(cmp, a)) by {
      assert t == [b] + t[1..];
    }
    assert Filter(r, Tie(cmp, a)) == Filter(t, Tie(cmp, a));
    assert Filter(r, Tie(cmp, a))[0] == a;
  }

  /** Two sorted sequences with the same tie groups are equal. */
  lemma {:induction false} SortedSameTiesEqual<T(!new)>(r: seq<T>, t: seq<T>, cmp: (T, T) -> int)
    requires Consistent(cmp) && Sorted(r, cmp) && Sorted(t, cmp) && SameTies(r, t, cmp)
    ensures r == t
    decreases |r|
  {
    if r != [] || t != [] {
      SameHead(r, t, cmp);
      forall x ensures Filter(r[1..], Tie(cmp, x)) == Filter(t[1..], Tie(cmp, x)) {
        var k := Tie(cmp, x);
        var p := if k(r[0]) then [r[0]] else [];
        assert Filter(r, k) == p + Filter(r[1..], k);
        assert Filter(t, k) == p + Filter(t[1..], k);
        assert Filter(r, k) == Filter(t, k);
        assert (p + Filter(r[1..], k))[|p|..] == Filter(r[1..], k);
        assert (p + Filter(t[1..], k))[|p|..] == Filter(t[1..], k);
      }
      SortedSameTiesEqual(r[1..], t[1..], cmp);
      assert r == [r[0]] + r[1..];
      assert t == [t[0]] + t[1..];
    }
  }

  /**
   * A stable sort has exactly one possible result: `r` is a stable sort of
   * `s` exactly when it is `SortBy(s, cmp)`.
   */
  lemma StableSortIsUnique<T(!new)>(r: seq<T>, s: seq<T>, cmp: (T, T) -> int)
    requires Consistent(cmp)
    ensures IsStableSortOf(r, s, cmp) <==> r == SortBy(s, cmp)
  {
    SortByIsStableSort(s, cmp);
    if IsStableSortOf(r, s, cmp) {
      SortedSameTiesEqual(r, SortBy(s, cmp), cmp);
    }
  }

  /** An already sorted sequence comes back unchanged. */
  lemma SortSortedIsIdentity<T(!new)>(s: seq<T>, cmp: (T, T) -> int)
    requires Consistent(cmp) && Sorted(s, cmp)
    ensures SortBy(s, cmp) == s
  {
    SortByIsStableSort(s, cmp);
    SortedSameTiesEqual(SortBy(s, cmp), s, cmp);
  }

  /** The elements whose `key` equals that of `x`. */
  function SameKey<T>(key: T -> int, x: T): T -> bool {
    y => key(y) == key(x)
  }

  /**
   * When the comparator ties exactly the elements of equal key, keeping the
   * order of tied elements keeps the order among elements of equal key.
   */
  lemma SameKeyGroups<T(!new)>(r: seq<T>, s: seq<T>, cmp: (T, T) -> int, key: T -> int)
    requires SameTies(r, s, cmp)
    requires forall a, b :: cmp(a, b) == 0 <==> key(a) == key(b)
    ensures forall x :: Filter(r, SameKey(key, x)) == Filter(s, SameKey(key, x))
  {
    forall x ensures Filter(r, SameKey(key, x)) == Filter(s, SameKey(key, x)) {
      FilterCongruent(r, Tie(cmp, x), SameKey(key, x));
      FilterCongruent(s, Tie(cmp, x), SameKey(key, x));
    }
  }
}
