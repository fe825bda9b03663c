/**
 * `getFilteredProblems` as a whole: the filtered catalogue, sorted stably by
 * the comparator of the chosen sort key.
 */
module ProblemList {
  import opened Catalog
  import opened Text
  import opened Seqs
  import opened Filtering
  import opened Ordering
  import opened StableSort

  /** The list the app shows for the filter state `f`. */
  function VisibleProblems(problems: seq<Problem>, progress: Progress, f: Filters): (r: seq<Problem>)
    ensures forall p :: p in r ==> p in problems && Matches(p, f)
    ensures forall p :: multiset(r)[p] == if Matches(p, f) then multiset(problems)[p] else 0
  {
    var kept := FilterProblems(problems, f);
    var r := SortBy(kept, Comparator(f.sort, progress));
    assert forall p :: p in r <==> p in kept by {
      forall p ensures p in r <==> p in kept {
        assert multiset(r)[p] == multiset(kept)[p];
      }
    }
    r
  }

  /**
   * The list is a stable sort of the filtered catalogue, and it is the only
   * one: any sorted, tie-order-preserving permutation of the filtered
   * catalogue equals it, so the model agrees with every stable `sort`.
   */
  lemma VisibleIsTheStableSort(problems: seq<Problem>, progress: Progress, f: Filters)
    ensures IsStableSortOf(VisibleProblems(problems, progress, f), FilterProblems(problems, f), Comparator(f.sort, progress))
    ensures forall r :: IsStableSortOf(r, FilterProblems(problems, f), Comparator(f.sort, progress)) ==>
              r == VisibleProblems(problems, progress, f)
  {
    var cmp := Comparator(f.sort, progress);
    ComparatorConsistent(f.sort, progress);
    SortByIsStableSort(FilterProblems(problems, f), cmp);
    forall r | IsStableSortOf(r, FilterProblems(problems, f), cmp) ensures r == VisibleProblems(problems, progress, f) {
      StableSortIsUnique(r, FilterProblems(problems, f), cmp);
    }
  }

  /** A catalogue without repeated ids shows a list without repeated ids. */
  lemma VisibleUniqueIds(problems: seq<Problem>, progress: Progress, f: Filters)
    requires UniqueIds(problems)
    ensures UniqueIds(VisibleProblems(problems, progress, f))
  {
    UniqueIdsOfSubMultiset(VisibleProblems(problems, progress, f), problems);
  }

  /** The difficulty rank as a sort key. */
  function DifficultyKey(): Problem -> int {
    (p: Problem) => Ordinal(p.difficulty)
  }

  /** Sorted by difficulty the list never goes down in rank. */
  lemma DifficultySortOrder(problems: seq<Problem>, progress: Progress, f: Filters)
    requires f.sort == SortDifficulty
    ensures var r := VisibleProblems(problems, progress, f);
      forall i, j :: 0 <= i < j < |r| ==> Ordinal(r[i].difficulty) <= Ordinal(r[j].difficulty)
  {
    var r := VisibleProblems(problems, progress, f);
    VisibleIsTheStableSort(problems, progress, f);
    forall i, j | 0 <= i < j < |r| ensures Ordinal(r[i].difficulty) <= Ordinal(r[j].difficulty) {
      CompareMeaning(f.sort, progress, r[i], r[j]);
    }
  }

  /** Sorted by difficulty, problems of equal rank keep their catalogue order. */
  lemma DifficultySortStable(problems: seq<Problem>, progress: Progress, f: Filters)
    requires f.sort == SortDifficulty
    ensures forall x :: Filter(VisibleProblems(problems, progress, f), SameKey(DifficultyKey(), x)) ==
                        Filter(FilterProblems(problems, f), SameKey(DifficultyKey(), x))
  {
    VisibleIsTheStableSort(problems, progress, f);
    SameKeyGroups(VisibleProblems(problems, progress, f), FilterProblems(problems, f), Comparator(f.sort, progress), DifficultyKey());
  }

  /** The time of the last attempt as a sort key. */
  function RecencyKey(progress: Progress): Problem -> int {
    (p: Problem) => Recency(progress, p.id)
  }

  /** Sorted by recency the list never goes up in timestamp; no record counts as 0. */
  lemma RecentSortOrder(problems: seq<Problem>, progress: Progress, f: Filters)
    requires f.sort == SortRecent
    ensures var r := VisibleProblems(problems, progress, f);
      forall i, j :: 0 <= i < j < |r| ==> Recency(progress, r[i].id) >= Recency(progress, r[j].id)
  {
    var r := VisibleProblems(problems, progress, f);
    VisibleIsTheStableSort(problems, progress, f);
    forall i, j | 0 <= i < j < |r| ensures Recency(progress, r[i].id) >= Recency(progress, r[j].id) {
      CompareMeaning(f.sort, progress, r[i], r[j]);
    }
  }

  /** Sorted by recency, problems with equal timestamps keep their catalogue order. */
  lemma RecentSortStable(problems: seq<Problem>, progress: Progress, f: Filters)
    requires f.sort == SortRecent
    ensures forall x :: Filter(VisibleProblems(problems, progress, f), SameKey(RecencyKey(progress), x)) ==
                        Filter(FilterProblems(problems, f), SameKey(RecencyKey(progress), x))
  {
    VisibleIsTheStableSort(problems, progress, f);
    SameKeyGroups(VisibleProblems(problems, progress, f), FilterProblems(problems, f), Comparator(f.sort, progress), RecencyKey(progress));
  }

  /**
   * Sorted by accuracy the list never goes up in passes/attempts, and among
   * equal accuracies it never goes up in attempts.
   */
  lemma AccuracySort(problems: seq<Problem>, progress: Progress, f: Filters)
    requires f.sort == SortAccuracy
    ensures var r := VisibleProblems(problems, progress, f);
      forall i, j :: 0 <= i < j < |r| ==> RatioLe(Accuracy(progress, r[j].id), Accuracy(progress, r[i].id))
    ensures var r := VisibleProblems(problems, progress, f);
      forall i, j :: 0 <= i < j < |r| && RatioLe(Accuracy(progress, r[i].id), Accuracy(progress, r[j].id)) ==>
        Attempts(progress, r[i].id) >= Attempts(progress, r[j].id)
  {
    var r := VisibleProblems(problems, progress, f);
    VisibleIsTheStableSort(problems, progress, f);
    forall i, j | 0 <= i < j < |r|
      ensures RatioLe(Accuracy(progress, r[j].id), Accuracy(progress, r[i].id))
      ensures RatioLe(Accuracy(progress, r[i].id), Accuracy(progress, r[j].id)) ==>
        Attempts(progress, r[i].id) >= Attempts(progress, r[j].id)
    {
      CompareMeaning(f.sort, progress, r[i], r[j]);
    }
  }

  /** With any other sort key the list is the filtered catalogue, in catalogue order. */
  lemma UnknownSortKeepsOrder(problems: seq<Problem>, progress: Progress, f: Filters)
    requires f.sort != SortDifficulty && f.sort != SortRecent && f.sort != SortAccuracy
    ensures VisibleProblems(problems, progress, f) == FilterProblems(problems, f)
  {
    var cmp := Comparator(f.sort, progress);
    var s := FilterProblems(problems, f);
    ComparatorConsistent(f.sort, progress);
    forall i, j | 0 <= i < j < |s| ensures cmp(s[i], s[j]) <= 0 {
      CompareMeaning(f.sort, progress, s[i], s[j]);
    }
    SortSortedIsIdentity(s, cmp);
  }

  /** Filtering and sorting the shown list again gives the same list. */
  lemma VisibleIdempotent(problems: seq<Problem>, progress: Progress, f: Filters)
    ensures VisibleProblems(VisibleProblems(problems, progress, f), progress, f) == VisibleProblems(problems, progress, f)
  {
    var cmp := Comparator(f.sort, progress);
    var r := VisibleProblems(problems, progress, f);
    FilterKeepsAll(r, Keep(f));
    ComparatorConsistent(f.sort, progress);
    SortBySorted(FilterProblems(problems, f), cmp);
    SortSortedIsIdentity(r, cmp);
  }

  /**
   * With a blank search box and every other filter at "all", every problem
   * is shown; with an unknown sort key, in catalogue order.
   */
  lemma BlankFiltersShowAll(problems: seq<Problem>, progress: Progress, f: Filters)
    requires forall k :: 0 <= k < |f.search| ==> IsSpace(f.search[k])
    requires f.difficulty == All && f.tag == All && f.concept == All
    ensures multiset(VisibleProblems(problems, progress, f)) == multiset(problems)
    ensures f.sort != SortDifficulty && f.sort != SortRecent && f.sort != SortAccuracy ==>
              VisibleProblems(problems, progress, f) == problems
  {
    forall p ensures Matches(p, f) {
      BlankSearchMatchesAll(p, f.search);
    }
    FilterKeepsAll(problems, Keep(f));
    if f.sort != SortDifficulty && f.sort != SortRecent && f.sort != SortAccuracy {
      UnknownSortKeepsOrder(problems, progress, f);
    }
  }
}
