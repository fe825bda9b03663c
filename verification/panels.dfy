/**
 * The numbers the list screen shows: the statistics panel over the shown
 * list (`renderStats`), the per-concept cards (`renderConceptNav`) and the
 * shortened card summary (`renderProblemList`).
 */
module Panels {
  import opened Catalog
  import opened Seqs
  import opened Filtering
  import opened Ordering
  import opened ProgressStore
  import opened ProblemList

  /** A problem whose last recorded attempt passed. */
  function Solved(progress: Progress): Problem -> bool {
    (p: Problem) => p.id in progress && progress[p.id].passed
  }

  /**
   * `problems.filter(p => progress[p.id]?.passed).length`: the number of
   * positions of the list whose problem has a record that says it passed.
   */
  function SolvedCount(progress: Progress, problems: seq<Problem>): (n: nat)
    ensures n <= |problems|
    ensures n == |set i | 0 <= i < |problems| && problems[i].id in progress && progress[problems[i].id].passed|
  {
    FilterLengthCountsPositions(problems, Solved(progress));
    assert Positions(problems, Solved(progress)) ==
           set i | 0 <= i < |problems| && problems[i].id in progress && progress[problems[i].id].passed;
    |Filter(problems, Solved(progress))|
  }

  /** `problems.reduce((sum, p) => sum + (progress[p.id]?.attempts ?? 0), 0)`. */
  function AttemptTotal(progress: Progress, problems: seq<Problem>): (n: nat)
    ensures forall i :: 0 <= i < |problems| ==> Attempts(progress, problems[i].id) <= n
    ensures (forall i :: 0 <= i < |problems| ==> problems[i].id !in progress) ==> n == 0
  {
    if problems == [] then 0
    else
      assert forall i :: 1 <= i < |problems| ==> problems[i] == problems[1..][i - 1];
      Attempts(progress, problems[0].id) + AttemptTotal(progress, problems[1..])
  }

  /** With well-formed records there are never more solved problems than attempts. */
  lemma {:induction false} SolvedAtMostAttempts(progress: Progress, problems: seq<Problem>)
    requires AllWellFormed(progress)
    ensures SolvedCount(progress, problems) <= AttemptTotal(progress, problems)
  {
    if problems != [] {
      SolvedAtMostAttempts(progress, problems[1..]);
    }
  }

  lemma {:induction false} AttemptTotalConcat(progress: Progress, a: seq<Problem>, b: seq<Problem>)
    ensures AttemptTotal(progress, a + b) == AttemptTotal(progress, a) + AttemptTotal(progress, b)
  {
    if a == [] {
      assert a + b == b;
    } else {
      assert (a + b)[1..] == a[1..] + b;
      AttemptTotalConcat(progress, a[1..], b);
    }
  }

  lemma AttemptTotalSplit(progress: Progress, b: seq<Problem>, i: nat)
    requires i < |b|
    ensures AttemptTotal(progress, b) == Attempts(progress, b[i].id) + AttemptTotal(progress, b[..i] + b[i + 1..])
  {
    assert b == b[..i] + ([b[i]] + b[i + 1..]);
    AttemptTotalConcat(progress, b[..i], [b[i]] + b[i + 1..]);
    AttemptTotalConcat(progress, b[..i], b[i + 1..]);
    assert ([b[i]] + b[i + 1..])[1..] == b[i + 1..];
  }

  lemma MultisetRemove(a: seq<Problem>, b: seq<Problem>, i: nat)
    requires multiset(a) == multiset(b) && a != [] && i < |b| && b[i] == a[0]
    ensures multiset(a[1..]) == multiset(b[..i] + b[i + 1..])
  {
    assert a == [a[0]] + a[1..];
    assert b == b[..i] + [b[i]] + b[i + 1..];
    assert multiset(a) == multiset{a[0]} + multiset(a[1..]);
    assert multiset(b) == multiset(b[..i]) + multiset{b[i]} + multiset(b[i + 1..]);
    assert multiset(b[..i] + b[i + 1..]) == multiset(b[..i]) + multiset(b[i + 1..]);
    forall x ensures multiset(a[1..])[x] == multiset(b[..i] + b[i + 1..])[x] {
      assert multiset(a)[x] == multiset(b)[x];
    }
  }

  /** The attempt total does not depend on the order of the list. */
  lemma {:induction false} AttemptTotalPermutation(progress: Progress, a: seq<Problem>, b: seq<Problem>)
    requires multiset(a) == multiset(b)
    ensures AttemptTotal(progress, a) == AttemptTotal(progress, b)
  {
    if a != [] {
      assert a[0] in multiset(b);
      var i :| 0 <= i < |b| && b[i] == a[0];
      MultisetRemove(a, b, i);
      AttemptTotalPermutation(progress, a[1..], b[..i] + b[i + 1..]);
      AttemptTotalSplit(progress, b, i);
    }
  }

  /** How many elements a filter keeps does not depend on the order of the list. */
  lemma FilterLengthPermutation(a: seq<Problem>, b: seq<Problem>, keep: Problem -> bool)
    requires multiset(a) == multiset(b)
    ensures |Filter(a, keep)| == |Filter(b, keep)|
  {
    FilterCounts(a, keep);
    FilterCounts(b, keep);
    assert multiset(Filter(a, keep)) == multiset(Filter(b, keep));
    assert |multiset(Filter(a, keep))| == |Filter(a, keep)|;
    assert |multiset(Filter(b, keep))| == |Filter(b, keep)|;
  }

  /** Changing the sort key changes the order of the list, not its contents. */
  lemma SortKeyOnlyReorders(problems: seq<Problem>, progress: Progress, f: Filters, key: string)
    ensures multiset(VisibleProblems(problems, progress, f)) == multiset(VisibleProblems(problems, progress, f.(sort := key)))
  {
    var r, s := VisibleProblems(problems, progress, f), VisibleProblems(problems, progress, f.(sort := key));
    forall p ensures multiset(r)[p] == multiset(s)[p] {
      assert Matches(p, f) == Matches(p, f.(sort := key));
    }
  }

  /**
   * The statistics panel counts the shown list, and its three numbers do not
   * depend on the sort key.
   */
  lemma StatsIgnoreSortKey(problems: seq<Problem>, progress: Progress, f: Filters, key: string)
    ensures var r, s := VisibleProblems(problems, progress, f), VisibleProblems(problems, progress, f.(sort := key));
      && |r| == |s|
      && SolvedCount(progress, r) == SolvedCount(progress, s)
      && AttemptTotal(progress, r) == AttemptTotal(progress, s)
  {
    var r, s := VisibleProblems(problems, progress, f), VisibleProblems(problems, progress, f.(sort := key));
    SortKeyOnlyReorders(problems, progress, f, key);
    assert |multiset(r)| == |r| && |multiset(s)| == |s|;
    FilterLengthPermutation(r, s, Solved(progress));
    AttemptTotalPermutation(progress, r, s);
  }

  /** The problems of concept `c`. */
  function HasConcept(c: string): Problem -> bool {
    (p: Problem) => p.concept == c
  }

  /** `problems.filter(problem => problem.concept === c).length`. */
  function ConceptCount(problems: seq<Problem>, c: string): (n: nat)
    ensures n <= |problems|
  {
    |Filter(problems, HasConcept(c))|
  }

  /** The number a concept card shows; the "all" card counts the whole catalogue. */
  function CardCount(problems: seq<Problem>, c: string): nat {
    if c == All then |problems| else ConceptCount(problems, c)
  }

  /**
   * The list shown after choosing a concept card has as many problems as the
   * card says, as long as no difficulty or tag filter is set.
   */
  lemma ConceptCardCountsList(problems: seq<Problem>, progress: Progress, f: Filters, c: string)
    requires f.difficulty == All && f.tag == All
    ensures |VisibleProblems(problems, progress, f.(concept := c, search := ""))| == CardCount(problems, c)
  {
    var g := f.(concept := c, search := "");
    var r := VisibleProblems(problems, progress, g);
    forall p ensures Matches(p, g) <==> (c == All || p.concept == c) {
      BlankSearchMatchesAll(p, "");
    }
    assert |multiset(r)| == |r|;
    assert multiset(r) == multiset(FilterProblems(problems, g));
    assert |multiset(FilterProblems(problems, g))| == |FilterProblems(problems, g)|;
    if c == All {
      FilterKeepsAll(problems, Keep(g));
    } else {
      FilterCongruent(problems, Keep(g), HasConcept(c));
    }
  }

  datatype ConceptCard = ConceptCard(concept: string, count: nat)

  /** A concept with at least one problem. */
  function Populated(problems: seq<Problem>): string -> bool {
    (c: string) => ConceptCount(problems, c) > 0
  }

  function CardConcepts(cards: seq<ConceptCard>): seq<string> {
    seq(|cards|, i requires 0 <= i < |cards| => cards[i].concept)
  }

  /**
   * One card per concept of `concepts` that has problems, in the order of
   * `concepts`, each showing its problem count.
   */
  function CardsFor(problems: seq<Problem>, concepts: seq<string>): (cards: seq<ConceptCard>)
    ensures CardConcepts(cards) == Filter(concepts, Populated(problems))
    ensures forall i :: 0 <= i < |cards| ==> cards[i].count == ConceptCount(problems, cards[i].concept) > 0
  {
    if concepts == [] then []
    else
      var rest := CardsFor(problems, concepts[1..]);
      var n := ConceptCount(problems, concepts[0]);
      if n == 0 then rest
      else
        var cards := [ConceptCard(concepts[0], n)] + rest;
        assert CardConcepts(cards) == [concepts[0]] + CardConcepts(rest);
        cards
  }

  /**
   * The concept navigation: the "all" card with the catalogue size, then a
   * card for each concept of the fixed order that has problems, in that order.
   */
  function ConceptCards(problems: seq<Problem>): (cards: seq<ConceptCard>)
    ensures |cards| >= 1 && cards[0] == ConceptCard(All, |problems|)
    ensures CardConcepts(cards[1..]) == Filter(ConceptOrder, Populated(problems))
    ensures forall i :: 1 <= i < |cards| ==> cards[i].count == ConceptCount(problems, cards[i].concept) > 0
  {
    var rest := CardsFor(problems, ConceptOrder);
    var cards := [ConceptCard(All, |problems|)] + rest;
    assert cards[1..] == rest;
    cards
  }

  /** The card summary: at most 140 characters, longer text cut to 137 and an ellipsis. */
  function ShortSummary(s: string): (r: string)
    ensures |r| <= 140
    ensures |s| <= 140 ==> r == s
    ensures |s| > 140 ==> |r| == 138 && r[..137] == s[..137] && r[137] == '…'
  {
    if |s| > 140 then s[..137] + "…" else s
  }
}
