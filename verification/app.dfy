/**
 * The app's mutable state (`state` plus the code editor's text) and the
 * handlers that change it. Rendering is not modelled; each handler states
 * the new state.
 */
module PracticeApp {
  import opened Wrappers
  import opened Catalog
  import opened ProblemList
  import opened Grader
  import opened ProgressStore
  import opened Navigation
  import opened Panels

  /** The code a problem opens with: the saved code, else its starter code, else nothing. */
  function OpeningCode(progress: Progress, p: Problem): (code: string)
    ensures p.id in progress ==> code == progress[p.id].code
    ensures p.id !in progress && p.starterCode.Some? ==> code == p.starterCode.value
    ensures p.id !in progress && p.starterCode.None? ==> code == ""
  {
    match Lookup(progress, p.id)
    case Some(stored) => stored.code
    case None => p.starterCode.GetOr("")
  }

  /** A problem of the catalogue is found by its own id. */
  lemma FindListed(problems: seq<Problem>, p: Problem)
    requires p in problems
    ensures FindProblem(problems, Some(p.id)).Some?
  {
    var k :| 0 <= k < |problems| && problems[k] == p;
    assert Some(problems[k].id) == Some(p.id);
  }

  class App {
    const problems: seq<Problem>
    var filters: Filters
    var selected: Option<string>
    var progress: Progress
    /** The text of the code editor. */
    var editor: string

    /**
     * The catalogue's ids are unique, and only a problem of the catalogue is
     * ever selected.
     */
    predicate Valid()
      reads this
    {
      && UniqueIds(problems)
      && (selected.Some? ==> FindProblem(problems, selected).Some?)
    }

    /** The app after `init`: stored progress loaded, initial filters, list view. */
    constructor (problems: seq<Problem>, stored: Option<Parsed>)
      requires UniqueIds(problems)
      ensures Valid()
      ensures this.problems == problems && filters == InitialFilters && selected == None
      ensures progress == LoadProgress(stored) && editor == ""
    {
      this.problems := problems;
      filters := InitialFilters;
      selected := None;
      progress := LoadProgress(stored);
      editor := "";
    }

    /** The list on screen; like the catalogue, it repeats no id. */
    function Shown(): (r: seq<Problem>)
      reads this
      ensures Valid() ==> UniqueIds(r)
    {
      var r := VisibleProblems(problems, progress, filters);
      assert UniqueIds(problems) ==> UniqueIds(r) by {
        if UniqueIds(problems) {
          VisibleUniqueIds(problems, progress, filters);
        }
      }
      r
    }

    /**
     * `setConceptFilter`: sets the concept, clears the search and keeps the
     * other filters. Without a difficulty or tag filter the list then has as
     * many problems as the chosen card showed.
     */
    method SetConceptFilter(concept: string)
      requires Valid()
      modifies this
      ensures Valid()
      ensures filters == old(filters).(concept := concept, search := "")
      ensures filters.difficulty == old(filters).difficulty && filters.tag == old(filters).tag && filters.sort == old(filters).sort
      ensures selected == old(selected) && progress == old(progress) && editor == old(editor)
      ensures old(filters).difficulty == All && old(filters).tag == All ==> |Shown()| == CardCount(problems, concept)
    {
      var next := if concept == All then All else concept;
      filters := filters.(concept := next, search := "");
      if old(filters).difficulty == All && old(filters).tag == All {
        ConceptCardCountsList(problems, progress, old(filters), concept);
      }
    }

    /**
     * `showProblemDetail`: an id that is not in the catalogue changes
     * nothing; otherwise the problem is selected and the editor holds its
     * saved code, else its starter code, else nothing.
     */
    method ShowProblemDetail(id: string)
      requires Valid()
      modifies this
      ensures Valid()
      ensures FindProblem(problems, Some(id)).None? ==> selected == old(selected) && editor == old(editor)
      ensures FindProblem(problems, Some(id)).Some? ==>
                selected == Some(id) && editor == OpeningCode(progress, FindProblem(problems, Some(id)).value)
      ensures filters == old(filters) && progress == old(progress)
    {
      var problem := FindProblem(problems, Some(id));
      if problem.None? {
        return;
      }
      selected := Some(id);
      editor := OpeningCode(progress, problem.value);
    }

    /** `backToList`: nothing is selected any more. */
    method BackToList()
      requires Valid()
      modifies this
      ensures Valid()
      ensures selected == None
      ensures filters == old(filters) && progress == old(progress) && editor == old(editor)
    {
      selected := None;
    }

    /** The learner edits the code editor's text. */
    method EditCode(code: string)
      requires Valid()
      modifies this
      ensures Valid()
      ensures editor == code
      ensures filters == old(filters) && selected == old(selected) && progress == old(progress)
    {
      editor := code;
    }

    /** `resetCode`: the editor goes back to the selected problem's starter code, or empty. */
    method ResetCode()
      requires Valid()
      modifies this
      ensures Valid()
      ensures selected.None? ==> editor == old(editor)
      ensures selected.Some? ==> editor == FindProblem(problems, selected).value.starterCode.GetOr("")
      ensures filters == old(filters) && selected == old(selected) && progress == old(progress)
    {
      var problem := FindProblem(problems, selected);
      if problem.None? {
        return;
      }
      editor := problem.value.starterCode.GetOr("");
    }

    /**
     * `updateProgress`: the record of `id` counts one more attempt (and one
     * more pass if it passed) and keeps the code, verdict and time; every
     * other record stays as it was, and well-formed records stay well formed.
     */
    method UpdateProgress(id: string, code: string, passed: bool, now: int)
      requires Valid()
      modifies this
      ensures Valid()
      ensures progress == old(progress)[id := NextRecord(Lookup(old(progress), id), code, passed, now)]
      ensures forall k :: k != id ==> (k in progress <==> k in old(progress))
      ensures forall k :: k != id && k in old(progress) ==> progress[k] == old(progress)[k]
      ensures AllWellFormed(old(progress)) ==> AllWellFormed(progress)
      ensures filters == old(filters) && selected == old(selected) && editor == old(editor)
    {
      var existing := Lookup(progress, id);
      if AllWellFormed(progress) {
        AttemptKeepsStoreWellFormed(progress, id, code, passed, now);
      }
      progress := progress[id := NextRecord(existing, code, passed, now)];
    }

    /**
     * `gradeCurrentProblem`: without a selected problem nothing happens;
     * otherwise the editor's code is graded against the problem's tests and
     * the attempt is recorded with the verdict.
     */
    method GradeCurrentProblem(matches: (string, string) -> bool, exec: (string, string) -> Outcome, now: int)
      returns (g: Option<Grading>)
      requires Valid()
      modifies this
      ensures Valid()
      ensures selected.None? ==> g.None? && progress == old(progress)
      ensures selected.Some? ==>
                var p := FindProblem(problems, selected).value;
                && g == Some(Grade(p, editor, matches, exec))
                && progress == old(progress)[p.id := NextRecord(Lookup(old(progress), p.id), editor, g.value.passed, now)]
      ensures filters == old(filters) && selected == old(selected) && editor == old(editor)
    {
      var problem := FindProblem(problems, selected);
      if problem.None? {
        return None;
      }
      var grading := Grade(problem.value, editor, matches, exec);
      UpdateProgress(problem.value.id, editor, grading.passed, now);
      g := Some(grading);
    }

    /**
     * `goToNextProblem`: with an empty list nothing happens; otherwise the
     * next problem of the list opens (the first one when the selected
     * problem is not shown), wrapping around at the end.
     */
    method GoToNextProblem()
      requires Valid()
      modifies this
      ensures Valid()
      ensures selected == NextSelection(old(Shown()), old(selected))
      ensures forall j :: 0 <= j < |old(Shown())| && old(selected) == Some(old(Shown())[j].id) ==>
                selected == Following(old(Shown()), j)
      ensures old(Shown()) == [] ==> editor == old(editor)
      ensures old(Shown()) != [] ==> editor == OpeningCode(progress, FindProblem(problems, selected).value)
      ensures filters == old(filters) && progress == old(progress)
    {
      var view := Shown();
      forall j | 0 <= j < |view| && selected == Some(view[j].id)
        ensures NextSelection(view, selected) == Following(view, j)
      {
        NextOfShown(view, j);
      }
      if view == [] {
        return;
      }
      var next := NextIndex(view, selected).value;
      FindListed(problems, view[next]);
      ShowProblemDetail(view[next].id);
    }

    /**
     * `importProgress` after the file is read: an object replaces the whole
     * store, anything else leaves it as it was and reports the failure.
     */
    method ImportProgress(doc: Parsed) returns (outcome: ImportOutcome)
      requires Valid()
      modifies this
      ensures Valid()
      ensures (progress, outcome) == Imported(old(progress), doc)
      ensures filters == old(filters) && selected == old(selected) && editor == old(editor)
    {
      match doc
      case Unparsable =>
        outcome := ParseFailed;
      case NotAnObject =>
        outcome := InvalidFormat;
      case Records(entries) =>
        progress := entries;
        outcome := Loaded;
    }
  }
}
