/**
 * The comparator `getFilteredProblems` hands to `sort`, one case per sort
 * key. A negative result puts `a` first, a positive one `b`, zero keeps the
 * two in their filtered order.
 */
module Ordering {
  import opened Wrappers
  import opened Catalog
  import opened StableSort

  /** `difficultyOrder[difficulty] ?? 0`: an unknown difficulty ranks as a beginner one. */
  function Ordinal(difficulty: string): (n: nat)
    ensures n <= 2
    ensures n == 1 <==> difficulty == Intermediate
    ensures n == 2 <==> difficulty == Advanced
  {
    if difficulty == Beginner then 0
    else if difficulty == Intermediate then 1
    else if difficulty == Advanced then 2
    else 0
  }

  /** The timestamp of the last attempt; no record or no timestamp counts as 0. */
  function Recency(progress: Progress, id: string): (t: int)
    ensures id in progress && progress[id].updatedAt.Some? ==> t == progress[id].updatedAt.value
    ensures !(id in progress && progress[id].updatedAt.Some?) ==> t == 0
  {
    if id in progress && progress[id].updatedAt.Some? then progress[id].updatedAt.value else 0
  }

  /** `stats?.attempts ?? 0`. */
  function Attempts(progress: Progress, id: string): (n: nat)
    ensures id in progress ==> n == progress[id].attempts
    ensures id !in progress ==> n == 0
  {
    if id in progress then progress[id].attempts else 0
  }

  type Pos = n: nat | n > 0 witness 1

  /** An exact fraction, compared by cross-multiplication. */
  datatype Ratio = Ratio(num: nat, den: Pos)

  predicate RatioLe(x: Ratio, y: Ratio) {
    x.num * y.den <= y.num * x.den
  }

  /** passes / attempts; 0 when there is no record or no attempt yet. */
  function Accuracy(progress: Progress, id: string): (r: Ratio)
    ensures id in progress && progress[id].attempts > 0 ==> r == Ratio(progress[id].passes, progress[id].attempts)
    ensures !(id in progress && progress[id].attempts > 0) ==> r.num == 0
  {
    if id in progress && progress[id].attempts > 0 then Ratio(progress[id].passes, progress[id].attempts)
    else Ratio(0, 1)
  }

  /**
   * The comparator. Its value has the sign of the one in the source: for
   * accuracy the cross-multiplied difference stands for `bAcc - aAcc`.
   */
  function Compare(sort: string, progress: Progress, a: Problem, b: Problem): (r: int)
    ensures a == b ==> r == 0
    ensures sort == SortDifficulty ==> (r < 0 <==> Ordinal(a.difficulty) < Ordinal(b.difficulty))
    ensures sort == SortRecent ==> (r < 0 <==> Recency(progress, a.id) > Recency(progress, b.id))
    ensures sort == SortAccuracy ==> (r < 0 <==>
              var ra, rb := Accuracy(progress, a.id), Accuracy(progress, b.id);
              || !RatioLe(ra, rb)
              || (ra.num * rb.den == rb.num * ra.den && Attempts(progress, a.id) > Attempts(progress, b.id)))
    ensures sort != SortDifficulty && sort != SortRecent && sort != SortAccuracy ==> r == 0
  {
    if sort == SortDifficulty then
      Ordinal(a.difficulty) - Ordinal(b.difficulty)
    else if sort == SortRecent then
      Recency(progress, b.id) - Recency(progress, a.id)
    else if sort == SortAccuracy then
      var ra, rb := Accuracy(progress, a.id), Accuracy(progress, b.id);
      var diff := rb.num * ra.den - ra.num * rb.den;
      if diff != 0 then diff else Attempts(progress, b.id) - Attempts(progress, a.id)
    else
      0
  }

  /**
   * What `Compare(...) <= 0` ("`a` may come first") means for each sort key:
   * lower or equal difficulty; later or equal timestamp; higher accuracy, or
   * equal accuracy and at least as many attempts; and always for other keys.
   */
  lemma CompareMeaning(sort: string, progress: Progress, a: Problem, b: Problem)
    ensures sort == SortDifficulty ==>
      (Compare(sort, progress, a, b) <= 0 <==> Ordinal(a.difficulty) <= Ordinal(b.difficulty))
    ensures sort == SortRecent ==>
      (Compare(sort, progress, a, b) <= 0 <==> Recency(progress, a.id) >= Recency(progress, b.id))
    ensures sort == SortAccuracy ==>
      (Compare(sort, progress, a, b) <= 0 <==>
        var ra, rb := Accuracy(progress, a.id), Accuracy(progress, b.id);
        !RatioLe(ra, rb) || (RatioLe(rb, ra) && Attempts(progress, a.id) >= Attempts(progress, b.id)))
    ensures sort !in {SortDifficulty, SortRecent, SortAccuracy} ==> Compare(sort, progress, a, b) == 0
  {
  }

  /** Swapping the arguments negates the comparator. */
  lemma CompareAntisymmetric(sort: string, progress: Progress, a: Problem, b: Problem)
    ensures Compare(sort, progress, a, b) == -Compare(sort, progress, b, a)
  {
  }

  lemma MulLe(x: int, y: int, c: nat)
    ensures x <= y ==> x * c <= y * c
    ensures c > 0 && x < y ==> x * c < y * c
  {
  }

  lemma MulCancelLe(x: int, y: int, c: Pos)
    requires x * c <= y * c
    ensures x <= y
  {
    MulLe(y, x, c);
  }

  lemma MulSwap(a: int, b: int, c: int)
    ensures a * b * c == (a * c) * b
  {
  }

  /** Cross-multiplied comparison of fractions with positive denominators is transitive. */
  lemma CrossTransitive(xn: nat, xd: nat, yn: nat, yd: nat, zn: nat, zd: nat)
    requires xd > 0 && yd > 0 && zd > 0
    requires xn * yd <= yn * xd && yn * zd <= zn * yd
    ensures xn * zd <= zn * xd
  {
    MulLe(xn * yd, yn * xd, zd);
    MulLe(yn * zd, zn * yd, xd);
    MulSwap(xn, yd, zd);
    MulSwap(yn, xd, zd);
    MulSwap(zn, yd, xd);
    MulCancelLe(xn * zd, zn * xd, yd);
  }

  lemma RatioLeTransitive(x: Ratio, y: Ratio, z: Ratio)
    requires RatioLe(x, y) && RatioLe(y, z)
    ensures RatioLe(x, z)
  {
    CrossTransitive(x.num, x.den, y.num, y.den, z.num, z.den);
  }

  /** "May come first" is transitive, for every sort key. */
  lemma {:induction false} CompareTransitive(sort: string, progress: Progress, a: Problem, b: Problem, c: Problem)
    requires Compare(sort, progress, a, b) <= 0 && Compare(sort, progress, b, c) <= 0
    ensures Compare(sort, progress, a, c) <= 0
  {
    if sort == SortAccuracy {
      CompareMeaning(sort, progress, a, b);
      CompareMeaning(sort, progress, b, c);
      CompareMeaning(sort, progress, a, c);
      var ra, rb, rc := Accuracy(progress, a.id), Accuracy(progress, b.id), Accuracy(progress, c.id);
      if RatioLe(ra, rc) && RatioLe(rc, rb) { RatioLeTransitive(ra, rc, rb); }
      if RatioLe(rb, ra) && RatioLe(ra, rc) { RatioLeTransitive(rb, ra, rc); }
      if RatioLe(ra, rb) && RatioLe(rb, rc) { RatioLeTransitive(ra, rb, rc); }
      if RatioLe(rc, rb) && RatioLe(rb, ra) { RatioLeTransitive(rc, rb, ra); }
    }
  }

  /** The comparator as the function value handed to `sort`. */
  function Comparator(sort: string, progress: Progress): (Problem, Problem) -> int {
    (a, b) => Compare(sort, progress, a, b)
  }

  /** For every sort key the comparator is consistent, so the stable sort is well defined. */
  lemma ComparatorConsistent(sort: string, progress: Progress)
    ensures Consistent(Comparator(sort, progress))
  {
    var cmp := Comparator(sort, progress);
    forall a, b ensures cmp(a, b) == -cmp(b, a) {
      CompareAntisymmetric(sort, progress, a, b);
    }
    forall a, b, c | cmp(a, b) <= 0 && cmp(b, c) <= 0 ensures cmp(a, c) <= 0 {
      CompareTransitive(sort, progress, a, b, c);
    }
  }

  /**
   * (passes, attempts) = (3, 3) ranks above (2, 4), and with equal accuracy
   * (1/2 against 2/4) the record with more attempts ranks first.
   */
  lemma AccuracyExamples(a: Problem, b: Problem)
    requires a.id != b.id
    ensures
      var progress := map[a.id := ProgressItem("", 3, 3, true, None), b.id := ProgressItem("", 4, 2, false, None)];
      Compare(SortAccuracy, progress, a, b) < 0
    ensures
      var progress := map[a.id := ProgressItem("", 2, 1, false, None), b.id := ProgressItem("", 4, 2, true, None)];
      Compare(SortAccuracy, progress, b, a) < 0
  {
  }
}
