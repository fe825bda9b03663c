/**
 * The filter half of the problem list (`getFilteredProblems`): a problem is
 * kept when it matches the keyword, the difficulty, the tag and the concept.
 */
module Filtering {
  import opened Wrappers
  import opened Catalog
  import opened Text
  import opened Seqs

  /**
   * The keyword the search box stands for: trimmed, then lower-cased. It is
   * empty exactly when the box holds only white space, and has no capitals.
   */
  function Keyword(search: string): (k: string)
    ensures |k| <= |search|
    ensures k == [] <==> forall i :: 0 <= i < |search| ==> IsSpace(search[i])
    ensures forall i :: 0 <= i < |k| ==> !('A' <= k[i] <= 'Z')
  {
    TrimEmptyIffAllSpace(search);
    Lower(Trim(search))
  }

  /** Some string of `texts`, lower-cased, contains `keyword`. */
  predicate SomeContains(texts: seq<string>, keyword: string) {
    exists i :: 0 <= i < |texts| && Contains(Lower(texts[i]), keyword)
  }

  /**
   * The description contains `keyword`: a text description as a whole, a
   * paragraph list when one of its paragraphs does; a missing one never.
   */
  predicate DescriptionContains(d: Description, keyword: string) {
    match d
    case Text(t) => Contains(Lower(t), keyword)
    case Paragraphs(ps) => SomeContains(ps, keyword)
    case Missing => false
  }

  /** The texts the search looks in: the title, the description's text or paragraphs, and the tags. */
  function SearchedTexts(p: Problem): seq<string> {
    [p.title] + (match p.description case Text(t) => [t] case Paragraphs(ps) => ps case Missing => []) + p.tags
  }

  /**
   * The keyword test for an already folded keyword: an empty keyword matches
   * every problem, any other one a problem when one of its searched texts,
   * lower-cased, contains it.
   */
  predicate MatchesKeyword(p: Problem, keyword: string)
    ensures MatchesKeyword(p, keyword) <==>
              keyword == [] || exists t :: t in SearchedTexts(p) && Contains(Lower(t), keyword)
  {
    SearchedTextsContain(p, keyword);
    || keyword == []
    || Contains(Lower(p.title), keyword)
    || DescriptionContains(p.description, keyword)
    || SomeContains(p.tags, keyword)
  }

  /** Searching the texts one by one, in the order the test does, finds what searching them all finds. */
  lemma SearchedTextsContain(p: Problem, keyword: string)
    ensures (exists t :: t in SearchedTexts(p) && Contains(Lower(t), keyword)) <==>
              Contains(Lower(p.title), keyword) || DescriptionContains(p.description, keyword) || SomeContains(p.tags, keyword)
  {
    var texts := SearchedTexts(p);
    if Contains(Lower(p.title), keyword) {
      assert texts[0] == p.title;
    }
    if DescriptionContains(p.description, keyword) {
      match p.description
      case Text(t) =>
        assert t in texts;
      case Paragraphs(ps) =>
        var i :| 0 <= i < |ps| && Contains(Lower(ps[i]), keyword);
        assert ps[i] in texts;
    }
    if SomeContains(p.tags, keyword) {
      var i :| 0 <= i < |p.tags| && Contains(Lower(p.tags[i]), keyword);
      assert p.tags[i] in texts;
    }
    if t :| t in texts && Contains(Lower(t), keyword) {
      if t in p.tags {
        var i :| 0 <= i < |p.tags| && p.tags[i] == t;
      } else if t != p.title {
        match p.description
        case Text(d) =>
        case Paragraphs(ps) =>
          var i :| 0 <= i < |ps| && ps[i] == t;
        case Missing =>
      }
    }
  }

  predicate MatchesDifficulty(p: Problem, difficulty: string) {
    difficulty == All || p.difficulty == difficulty
  }

  predicate MatchesTag(p: Problem, tag: string) {
    tag == All || tag in p.tags
  }

  predicate MatchesConcept(p: Problem, concept: string) {
    concept == All || p.concept == concept
  }

  /**
   * The conjunction of the four filter predicates: a problem that matches has
   * the chosen difficulty, tag and concept unless that filter is "all", and
   * with all three at "all" only the keyword decides.
   */
  predicate Matches(p: Problem, f: Filters)
    ensures Matches(p, f) && f.difficulty != All ==> p.difficulty == f.difficulty
    ensures Matches(p, f) && f.tag != All ==> f.tag in p.tags
    ensures Matches(p, f) && f.concept != All ==> p.concept == f.concept
    ensures f.difficulty == All && f.tag == All && f.concept == All ==>
              (Matches(p, f) <==> MatchesKeyword(p, Keyword(f.search)))
  {
    && MatchesKeyword(p, Keyword(f.search))
    && MatchesDifficulty(p, f.difficulty)
    && MatchesTag(p, f.tag)
    && MatchesConcept(p, f.concept)
  }

  /** The filter callback of `getFilteredProblems` for the filter state `f`. */
  function Keep(f: Filters): Problem -> bool {
    p => Matches(p, f)
  }

  /**
   * The filtered catalogue: every problem returned matches the filters, and
   * every matching problem is returned as often as it occurs in `problems`.
   */
  function FilterProblems(problems: seq<Problem>, f: Filters): (r: seq<Problem>)
    ensures forall p :: p in r ==> p in problems && Matches(p, f)
    ensures forall p :: multiset(r)[p] == if Matches(p, f) then multiset(problems)[p] else 0
  {
    FilterCounts(problems, Keep(f));
    Filter(problems, Keep(f))
  }

  /** A search box that is empty or only white space filters nothing out. */
  lemma BlankSearchMatchesAll(p: Problem, search: string)
    requires forall k :: 0 <= k < |search| ==> IsSpace(search[k])
    ensures MatchesKeyword(p, Keyword(search))
  {
    TrimEmptyIffAllSpace(search);
  }

  // ---------------------------------------------------------------------
  // The keyword test as written. It calls `description.toLowerCase()`, which
  // neither a paragraph-list description nor a missing one has: the call
  // throws a TypeError that aborts the whole filter.
  // ---------------------------------------------------------------------

  /** The keyword test as written; `None` is the thrown TypeError. */
  function MatchesKeywordAsWritten(p: Problem, keyword: string): (r: Option<bool>)
    ensures r.None? <==> keyword != [] && !Contains(Lower(p.title), keyword) && !p.description.Text?
    ensures r.Some? ==> (r.value <==> MatchesKeyword(p, keyword))
  {
    if keyword == [] || Contains(Lower(p.title), keyword) then Some(true)
    else
      match p.description
      case Text(t) => Some(Contains(Lower(t), keyword) || SomeContains(p.tags, keyword))
      case Paragraphs(_) => None
      case Missing => None
  }

  /** The filter callback as written; `None` is the thrown TypeError. */
  function KeepAsWritten(f: Filters): Problem -> Option<bool> {
    p =>
      match MatchesKeywordAsWritten(p, Keyword(f.search))
      case None => None
      case Some(k) =>
        Some(k && MatchesDifficulty(p, f.difficulty) && MatchesTag(p, f.tag) && MatchesConcept(p, f.concept))
  }

  /**
   * The filter as written: it throws as soon as the keyword test throws for
   * one problem, and otherwise agrees with `FilterProblems`.
   */
  function FilterAsWritten(problems: seq<Problem>, f: Filters): (r: Option<seq<Problem>>)
    ensures r.None? <==> exists i :: 0 <= i < |problems| && MatchesKeywordAsWritten(problems[i], Keyword(f.search)).None?
    ensures r.Some? ==> r.value == FilterProblems(problems, f)
  {
    FilterOrThrowAgrees(problems, Keep(f), KeepAsWritten(f));
    FilterOrThrow(problems, KeepAsWritten(f))
  }

  /** A problem titled "A" whose description is the one paragraph "b". */
  function ParagraphProblem(): Problem {
    Problem("P1", "A", Paragraphs(["b"]), Beginner, "세션 관리", [], None, [])
  }

  /**
   * Searching for a word that is in a paragraph-list description but not in
   * the title: the filter as written throws, the corrected filter returns the
   * problem.
   */
  lemma ParagraphDescriptionThrows()
    ensures FilterAsWritten([ParagraphProblem()], InitialFilters.(search := "b")) == None
    ensures FilterProblems([ParagraphProblem()], InitialFilters.(search := "b")) == [ParagraphProblem()]
  {
    ParagraphProblemKeyword();
    assert [ParagraphProblem()][1..] == [];
  }

  /** A problem titled "A" without a description or tags. */
  function MissingProblem(): Problem {
    Problem("P2", "A", Missing, Beginner, "세션 관리", [], None, [])
  }

  /**
   * Searching for a word that is not in the title of a problem without a
   * description: the filter as written throws, the corrected filter leaves
   * the problem out.
   */
  lemma MissingDescriptionThrows()
    ensures FilterAsWritten([MissingProblem()], InitialFilters.(search := "b")) == None
    ensures FilterProblems([MissingProblem()], InitialFilters.(search := "b")) == []
  {
    SearchB();
    TitleLacksB();
    assert MissingProblem().title == ParagraphProblem().title;
    assert [MissingProblem()][1..] == [];
  }

  /** The keyword "b" is in the description of `ParagraphProblem` but not in its title. */
  lemma ParagraphProblemKeyword()
    ensures Keyword("b") == "b"
    ensures MatchesKeywordAsWritten(ParagraphProblem(), "b").None?
    ensures Matches(ParagraphProblem(), InitialFilters.(search := "b"))
  {
    SearchB();
    TitleLacksB();
    assert Contains(Lower(ParagraphProblem().description.paragraphs[0]), "b");
  }

  lemma SearchB()
    ensures Keyword("b") == "b"
  {
    assert TrimStart("b") == "b";
    assert TrimEnd("b") == "b";
    assert Lower("b") == "b";
  }

  lemma TitleLacksB()
    ensures !Contains(Lower(ParagraphProblem().title), "b")
  {
    assert Lower("A") == "a";
    assert "b"[0] != "a"[0];
    assert "a"[1..] == [];
  }
}
