/**
 * `Array.prototype.filter` over a sequence, with the predicate passed as a
 * function value, and the same filter for a callback that may throw.
 */
module Seqs {
  import opened Wrappers

  /** `s.filter(keep)`: the elements that `keep` accepts, in their order. */
  function Filter<T>(s: seq<T>, keep: T -> bool): (r: seq<T>)
    ensures |r| <= |s|
  {
    if s == [] then []
    else
      var rest := Filter(s[1..], keep);
      if keep(s[0]) then [s[0]] + rest else rest
  }

  /**
   * Every element `Filter` returns is accepted, and every accepted element is
   * returned as often as it occurs in `s`.
   */
  lemma {:induction false} FilterCounts<T>(s: seq<T>, keep: T -> bool)
    ensures forall x :: x in Filter(s, keep) ==> x in s && keep(x)
    ensures forall x :: multiset(Filter(s, keep))[x] == if keep(x) then multiset(s)[x] else 0
  {
    if s != [] {
      FilterCounts(s[1..], keep);
      assert s == [s[0]] + s[1..];
    }
  }

  /** Filtering keeps order: it distributes over concatenation. */
  lemma {:induction false} FilterConcat<T(!new)>(a: seq<T>, b: seq<T>, keep: T -> bool)
    ensures Filter(a + b, keep) == Filter(a, keep) + Filter(b, keep)
  {
    if a == [] {
      assert a + b == b;
    } else {
      assert (a + b)[1..] == a[1..] + b;
      FilterConcat(a[1..], b, keep);
    }
  }

  /** The positions of `s` whose element `keep` accepts. */
  function Positions<T>(s: seq<T>, keep: T -> bool): set<int> {
    set i | 0 <= i < |s| && keep(s[i])
  }

  /** `Filter` keeps as many elements as there are positions whose element `keep` accepts. */
  lemma {:induction false} FilterLengthCountsPositions<T(!new)>(s: seq<T>, keep: T -> bool)
    ensures |Filter(s, keep)| == |Positions(s, keep)|
  {
    if s != [] {
      var init, last := s[..|s| - 1], s[|s| - 1];
      FilterLengthCountsPositions(init, keep);
      assert s == init + [last];
      FilterConcat(init, [last], keep);
      assert [last][1..] == [];
      var kept := Positions(init, keep);
      assert Positions(s, keep) == kept + (if keep(last) then {|init|} else {});
      assert |init| !in kept;
    }
  }

  /** A sequence whose every element is accepted comes back unchanged. */
  lemma {:induction false} FilterKeepsAll<T(!new)>(s: seq<T>, keep: T -> bool)
    requires forall x :: x in s ==> keep(x)
    ensures Filter(s, keep) == s
  {
    if s != [] {
      assert s == [s[0]] + s[1..];
      assert forall x :: x in s[1..] ==> x in s;
      FilterKeepsAll(s[1..], keep);
    }
  }

  /** Two callbacks that agree on every element of `s` filter it alike. */
  lemma {:induction false} FilterCongruent<T(!new)>(s: seq<T>, keep: T -> bool, keep': T -> bool)
    requires forall x :: x in s ==> keep(x) == keep'(x)
    ensures Filter(s, keep) == Filter(s, keep')
  {
    if s != [] {
      assert forall x :: x in s[1..] ==> x in s;
      FilterCongruent(s[1..], keep, keep');
    }
  }

  /**
   * `s.filter(keep)` for a callback that may throw (`None`): the first throw
   * aborts the filter.
   */
  function FilterOrThrow<T>(s: seq<T>, keep: T -> Option<bool>): (r: Option<seq<T>>)
    ensures r.None? <==> exists i :: 0 <= i < |s| && keep(s[i]).None?
  {
    if s == [] then Some([])
    else
      var rest := FilterOrThrow(s[1..], keep);
      assert forall i :: 1 <= i < |s| ==> s[i] == s[1..][i - 1];
      match keep(s[0])
      case None => None
      case Some(k) =>
        if rest.None? then None
        else if k then Some([s[0]] + rest.value) else rest
  }

  /**
   * Where the throwing callback agrees with `keep` on every element it does not
   * throw for, the throwing filter, when it returns, returns what `Filter` does.
   */
  lemma {:induction false} FilterOrThrowAgrees<T(!new)>(s: seq<T>, keep: T -> bool, keepOrThrow: T -> Option<bool>)
    requires forall x :: x in s && keepOrThrow(x).Some? ==> keepOrThrow(x).value == keep(x)
    ensures FilterOrThrow(s, keepOrThrow).Some? ==> FilterOrThrow(s, keepOrThrow).value == Filter(s, keep)
  {
    if s != [] {
      assert forall x :: x in s[1..] ==> x in s;
      FilterOrThrowAgrees(s[1..], keep, keepOrThrow);
    }
  }
}
