# JSP practice app: selection and grading engine

This project models the engine of the browser JSP practice app (`app.js`)
in Dafny. The app keeps a catalogue of problems and a store of progress
records, one per problem. The model covers:

- **Shown list.** The list the app shows is the catalogue filtered by keyword, difficulty, tag and concept, then stably sorted by difficulty, recency or accuracy (`getFilteredProblems`).
- **Grading.** The learner's code is run against each test, and the result counts as an attempt in the problem's record (`runTest`, `gradeCurrentProblem`, `updateProgress`).
- **Selection handlers.** Opening a problem, going back to the list, moving to the next problem, resetting the editor and choosing a concept card.
- **Import.** Reading a progress file.
- **List-screen numbers.** The statistics panel, the concept card counts and the shortened card summary.

Modules:

| module | role |
|---|---|
| `Catalog` | problems, tests, progress records and filter state |
| `Text` | `trim`, ASCII `toLowerCase` and `includes` |
| `Seqs` | `Array.prototype.filter`, plus a version whose callback may throw |
| `Filtering` | the four filter predicates |
| `Ordering` | the comparator handed to `sort` |
| `StableSort` | a stable sort, and a proof that it is the only one |
| `ProblemList` | `getFilteredProblems` as a whole |
| `Grader` | running tests and the overall verdict |
| `ProgressStore` | progress records, loading and import |
| `Navigation` | stepping to the next problem |
| `Panels` | the numbers on the list screen |
| `PracticeApp` | the `App` class: the mutable state and its handlers |

Three modelling choices:

- **Accuracy.** It is compared exactly, by cross-multiplying `passes/attempts`.
- **Test oracles.** Regular-expression tests and test functions are passed in by the caller:
  - `matches(pattern, code)` stands for `pattern.test(code)`;
  - `exec(name, code)` stands for running the test function. Its `Outcome` is `Pass` (a truthy value), `Fail` (a falsy one) or `Fault` (a throw).
- **Timestamps.** Each is an integer supplied by the caller.
- **Unique ids.** The catalogue's problem ids are unique, as the app's data model intends. `App` keeps this as part of its invariant, so "next problem" always steps from the selected problem's own position.

## Model

| member | source | states |
|---|---|---|
| Catalog.FindProblem | app.js:371 | `find` by id: none exactly when no problem has the id, otherwise the first problem that has it |
| Text.TrimStart | app.js:155 | the result is a suffix of the input, everything removed is white space, and the result does not start with white space |
| Text.TrimEnd | app.js:155 | the result is a prefix of the input, everything removed is white space, and the result does not end with white space |
| Text.Trim | app.js:155 | `trim` returns no more characters than it is given, and a non-empty result neither starts nor ends with white space |
| Text.TrimIsSlice | app.js:155 | `trim` returns the slice of the input left after removing leading and trailing white space; the slice neither starts nor ends with white space |
| Text.TrimEmptyIffAllSpace | app.js:155 | the trimmed search is empty exactly when the search box holds only white space |
| Text.Lower | app.js:155 | lower-casing keeps the length, leaves no ASCII capital, and changes each character either not at all or to its lower-case letter |
| Text.Contains | app.js:160-162 | `includes` holds whenever the needle is a prefix of the text, and only when the needle is no longer than the text |
| Text.ContainsIffOccurs | app.js:160-162 | `includes` holds exactly when the needle occurs at some index of the text |
| Seqs.Filter | app.js:157 | `filter` returns no more elements than it is given |
| Seqs.FilterCounts | app.js:157-168 | every element returned is accepted, and every accepted element is returned as often as it occurs in the input |
| Seqs.FilterLengthCountsPositions | app.js:203 | the length of a filtered list is the number of positions whose element the callback accepts |
| Seqs.FilterConcat | app.js:157 | filtering keeps the order: it distributes over concatenation |
| Seqs.FilterOrThrow | app.js:157-168 | a filter whose callback may throw fails exactly when the callback throws for some element |
| Seqs.FilterOrThrowAgrees | app.js:157-168 | when such a filter does not throw, it returns what the non-throwing filter returns |
| Filtering.Keyword | app.js:155 | the keyword has no more characters than the search box, no ASCII capital, and is empty exactly when the box holds only white space |
| Filtering.MatchesKeyword | app.js:158-162 | an empty keyword matches every problem; any other keyword matches a problem exactly when its title, a text of its description or one of its tags, lower-cased, contains the keyword; a missing description contains nothing |
| Filtering.SearchedTextsContain | app.js:158-162 | testing the title, the description and the tags one after another finds the keyword exactly when some searched text contains it |
| Filtering.Matches | app.js:157-167 | a matching problem has the chosen difficulty, tag and concept unless that filter is "all"; with all three at "all" only the keyword decides |
| Filtering.FilterProblems | app.js:157-168 | every problem returned matches all four filters; every matching catalogue problem is returned exactly as often as it occurs |
| Filtering.BlankSearchMatchesAll | app.js:155-159 | an empty or all-white-space search matches every problem |
| Filtering.MatchesKeywordAsWritten | app.js:158-162 | the keyword test as written throws exactly when the keyword is non-empty, not in the title, and the description is a paragraph list or missing; otherwise it agrees with the corrected test |
| Filtering.FilterAsWritten | app.js:157-168 | the filter as written throws exactly when the keyword test throws for some problem; otherwise it returns the corrected filter's result |
| Filtering.ParagraphDescriptionThrows | app.js:158-162 | a problem titled "A" with description `["b"]`, searched for "b": the filter as written throws, and the corrected filter returns the problem |
| Filtering.MissingDescriptionThrows | app.js:158-162 | a problem titled "A" without a description or tags, searched for "b": the filter as written throws, and the corrected filter leaves the problem out |
| Ordering.Ordinal | app.js:172-175 | the difficulty rank is 0, 1 or 2; it is 1 exactly for 중급 and 2 exactly for 고급, so an unknown difficulty ranks 0 |
| Ordering.Recency | app.js:178-179 | the timestamp of the problem's record, or 0 when there is no record or no timestamp |
| Ordering.Attempts | app.js:188 | the attempt count of the problem's record, or 0 when there is no record |
| Ordering.Accuracy | app.js:183-186 | accuracy is passes/attempts for a record with attempts, and 0 otherwise |
| Ordering.Compare | app.js:173-191 | a problem ties with itself; a negative value puts `a` first exactly when it has a lower rank (difficulty), a later timestamp (recent), or a higher accuracy or equal accuracy and more attempts (accuracy); any other key gives 0 |
| Ordering.CompareMeaning | app.js:173-191 | `a` may come first when it has lower or equal rank (difficulty), a later or equal timestamp (recent), or higher accuracy or equal accuracy and at least as many attempts (accuracy); any other key compares every pair equal |
| Ordering.CompareAntisymmetric | app.js:173-191 | swapping the two problems negates the comparator |
| Ordering.CrossTransitive | app.js:185-187 | comparing fractions by cross-multiplication is transitive |
| Ordering.RatioLeTransitive | app.js:185-187 | the accuracy order is transitive |
| Ordering.CompareTransitive | app.js:173-191 | "may come first" is transitive for every sort key |
| Ordering.ComparatorConsistent | app.js:173-191 | the comparator is antisymmetric and transitive, so the result of a stable `sort` is well defined |
| Ordering.AccuracyExamples | app.js:182-189 | 3/3 ranks above 2/4; with equal accuracy (1/2 and 2/4) the record with more attempts ranks first |
| StableSort.Insert | app.js:173 | inserting adds exactly the one element |
| StableSort.SortBy | app.js:173 | sorting is a permutation of its input |
| StableSort.InsertSorted | app.js:173 | inserting into a sorted sequence keeps it sorted |
| StableSort.SortBySorted | app.js:173 | the sort's result is ordered by the comparator |
| StableSort.SortByTies | app.js:173 | within every group of elements the comparator calls equal, the sort keeps the input order |
| StableSort.SortByIsStableSort | app.js:173 | the result is a sorted permutation that keeps the order of tied elements |
| StableSort.SortedSameTiesEqual | app.js:173 | two sorted sequences with the same tie groups, in the same order, are equal |
| StableSort.StableSortIsUnique | app.js:173 | a sequence is a stable sort of the input exactly when it equals `SortBy`'s result |
| StableSort.SortSortedIsIdentity | app.js:173 | sorting an already sorted sequence leaves it unchanged |
| StableSort.SameKeyGroups | app.js:173 | when the comparator ties exactly the elements of equal key, a stable sort keeps the order among elements of equal key |
| ProblemList.VisibleProblems | app.js:153-194 | the shown list holds exactly the matching catalogue problems, each as often as in the catalogue |
| ProblemList.VisibleIsTheStableSort | app.js:153-194 | the shown list is a stable sort of the filtered catalogue, and any stable sort of it equals the shown list |
| ProblemList.VisibleUniqueIds | app.js:153-194 | a catalogue without repeated ids gives a shown list without repeated ids |
| ProblemList.DifficultySortOrder | app.js:172-176 | sorted by difficulty, the rank never goes down along the list |
| ProblemList.DifficultySortStable | app.js:172-176 | sorted by difficulty, problems of equal rank keep their catalogue order |
| ProblemList.RecentSortOrder | app.js:177-181 | sorted by recency, the timestamp never goes up along the list; no record or no timestamp counts as 0 |
| ProblemList.RecentSortStable | app.js:177-181 | sorted by recency, problems with equal timestamps keep their catalogue order |
| ProblemList.AccuracySort | app.js:182-189 | sorted by accuracy, accuracy never goes up along the list; among equal accuracies, attempts never go up |
| ProblemList.UnknownSortKeepsOrder | app.js:190 | with any other sort key the list is the filtered catalogue in catalogue order |
| ProblemList.VisibleIdempotent | app.js:153-194 | filtering and sorting the shown list again gives the same list |
| ProblemList.BlankFiltersShowAll | app.js:155-168 | with a blank search and every other filter at "all", every problem is shown; with an unknown sort key, in catalogue order |
| Grader.RunTest | app.js:447-461 | a regex test passes exactly when its pattern matches; a func test passes exactly when its function returns a truthy value, so a throw fails it; a malformed test fails; the description is kept |
| Grader.RunAll | app.js:432 | one result per test, in test order, each test run on its own |
| Grader.AllPassed | app.js:433 | the verdict holds exactly when every result passed |
| Grader.Grade | app.js:428-433 | one result per test, in order; the verdict holds exactly when all passed, so no tests means a pass and a malformed test means a fail; a failing test does not stop later tests |
| Grader.RunAllConcat | app.js:432-433 | grading a concatenation of test lists grades each part; the verdict is the conjunction of the parts' verdicts |
| ProgressStore.Lookup | app.js:494 | the record of an id is present exactly when the store has the id |
| ProgressStore.NextRecord | app.js:496-502 | attempts is the old count (or 0) plus 1; passes is the old count (or 0) plus 1 when the attempt passed; code, verdict and time are the attempt's |
| ProgressStore.NextRecordKeepsCounters | app.js:496-502 | an attempt keeps passes ≤ attempts and "passed implies at least one pass"; it raises attempts, and raises passes exactly when it passed |
| ProgressStore.AttemptKeepsStoreWellFormed | app.js:493-503 | recording an attempt keeps every record of the store well formed |
| ProgressStore.Imported | app.js:552-564 | an object of records replaces the store; text that is not JSON or is not an object leaves it unchanged, each with its own message |
| ProgressStore.LoadProgress | app.js:111-120 | the stored object is loaded; nothing stored, text that is not JSON, or a non-object gives an empty store |
| Navigation.IndexOf | app.js:523 | `findIndex`: -1 exactly when no shown problem has the selected id, otherwise the first index that has it |
| Navigation.NextIndex | app.js:522-524 | no index for an empty list; 0 when the selection is not shown or is last; i + 1 when the selection is first found at a non-last index i; always within the list |
| Navigation.NextSelection | app.js:520-525 | an empty list keeps the selection; otherwise a shown problem is selected: the first one when the selection is not shown or is found last, else the one after the first shown problem with the selected id |
| Navigation.NextOfShown | app.js:523-525 | from the problem at index j the next one is at (j + 1) mod length |
| Navigation.SingleProblemReopens | app.js:524-525 | a one-problem list reopens its problem, whatever was selected |
| Navigation.Walk | app.js:520-525 | no press keeps the selection; at least one press on a non-empty list selects a shown problem |
| Navigation.WrapIsMod | app.js:524 | wrapping by repeated subtraction is `%` |
| Navigation.IterateCycle | app.js:520-525 | a step that moves each element of a cycle to the next, wrapping around, reaches position (j + k) mod length after k steps |
| Navigation.WalkSteps | app.js:520-525 | k presses of "next problem" from the problem at j reach the problem at (j + k) mod length |
| Navigation.WalkReachesEach | app.js:520-525 | from any shown problem, every shown problem is reached within one round |
| Navigation.WalkRoundTrip | app.js:520-525 | after as many presses as the list is long, the selection is back where it started |
| Panels.SolvedCount | app.js:203 | the solved count is the number of positions of the list whose problem has a record that says it passed, so at most the list's length |
| Panels.AttemptTotal | app.js:204-207 | the total is at least the attempts of every listed problem, and 0 when no listed problem has a record |
| Panels.SolvedAtMostAttempts | app.js:203-207 | with well-formed records there are never more solved problems than attempts |
| Panels.AttemptTotalPermutation | app.js:204-207 | the attempt total does not depend on the order of the list |
| Panels.SortKeyOnlyReorders | app.js:173-191 | changing the sort key changes the order of the shown list, not its contents |
| Panels.StatsIgnoreSortKey | app.js:201-207 | the panel's total, solved and attempt numbers do not depend on the sort key |
| Panels.ConceptCount | app.js:235 | a concept's count is at most the catalogue size |
| Panels.ConceptCardCountsList | app.js:230-258 | after choosing a card with no difficulty or tag filter set, the list has as many problems as the card showed |
| Panels.CardsFor | app.js:234-246 | one card per concept with problems, in the fixed concept order, each with its positive count |
| Panels.ConceptCards | app.js:226-246 | the "all" card with the catalogue size comes first, then one card per concept of the fixed order that has problems, in that order, with its count |
| Panels.ShortSummary | app.js:292-293 | the summary is at most 140 characters; a longer text keeps its first 137 characters and gains an ellipsis; a short one is unchanged |
| PracticeApp.OpeningCode | app.js:382-383 | a problem opens with its saved code, else its starter code, else empty |
| PracticeApp.App.constructor | app.js:59-70 | the app starts with the initial filters, nothing selected, an empty editor and the loaded store |
| PracticeApp.App.Shown | app.js:153-194 | the list on screen repeats no id |
| PracticeApp.App.SetConceptFilter | app.js:255-258 | sets the concept and clears the search; difficulty, tag and sort are kept; with no difficulty or tag filter the list then has the card's count |
| PracticeApp.App.ShowProblemDetail | app.js:370-384 | an id not in the catalogue changes nothing; otherwise the problem is selected and the editor holds its opening code |
| PracticeApp.App.BackToList | app.js:406-407 | the selection is cleared and nothing else changes |
| PracticeApp.App.EditCode | app.js:659-661 | the editor holds what the learner typed |
| PracticeApp.App.ResetCode | app.js:510-513 | with a selected problem the editor holds its starter code, or empty; with none nothing changes |
| PracticeApp.App.UpdateProgress | app.js:493-503 | the record of the id is replaced by the next record; every other record is unchanged; well-formed stores stay well formed; the rest of the state and its invariant are kept |
| PracticeApp.App.GradeCurrentProblem | app.js:428-436 | with no selected problem nothing happens; otherwise the editor's code is graded and the attempt is recorded with the verdict |
| PracticeApp.App.GoToNextProblem | app.js:520-526 | an empty list changes nothing; otherwise the problem `NextSelection` picks opens with its opening code; from the shown problem at index j, the one at (j + 1) mod length opens |
| PracticeApp.App.ImportProgress | app.js:550-564 | the store and the reported outcome are what an import of the document gives |

## Left out

- Rendering and DOM: HTML building, the detail view, hint and solution toggles, line numbers, the theme and keyboard shortcuts (app.js:73-105, 199-249, 268-314, 334-423, 470-485, 600-703). They are view code.
- The `bind*` listeners that assign the search, difficulty, tag and sort filters (app.js:573-597). Each is a plain field assignment from a DOM event; the model takes any `Filters` value.
- `localStorage`, `JSON.parse`/`JSON.stringify`, `FileReader`, `Blob`, `alert`, export (app.js:126-128, 531-541). These are I/O. Loading and import take the parsed document as a `Parsed` value, and saving is not modelled.
- Regular-expression matching and test functions (app.js:449, 454). Both are oracles the caller passes in.
- Text.Lower: covers ASCII letters only, because the full Unicode case mapping of `toLowerCase` is not modelled.
- Text.Contains: counts characters as code points, not UTF-16 code units. The same applies to the 140-character limit in Panels.ShortSummary.
- Ordering.Recency: a timestamp is an integer. `Date.parse` and its NaN for malformed text are not modelled.
- Ordering.Accuracy: accuracy is an exact fraction. Floating-point division can make two distinct large fractions compare equal; the model does not reproduce that.
- ProgressStore.Imported: records are typed. An imported file whose records lack fields or hold non-numbers is not modelled.
- Progress store keys: lookups on a plain object can hit inherited properties such as `constructor`; the model uses a map.
- Ordering.Ordinal: every difficulty other than 중급 and 고급 ranks 0. In the source, a difficulty named like an inherited property of a plain object (`constructor`, `toString`, …) reads that property through `difficultyOrder[...] ?? 0` (app.js:172-175), so the comparator returns NaN rather than 0; the model does not reproduce that.
- Card summary: only the truncation is modelled, not picking the first paragraph and collapsing white space (app.js:285-291).
- The `window.PROBLEMS` fallback to an empty list (app.js:60): the constructor takes the catalogue as a sequence.

## Findings

| source | as written | input that shows it | evidently intended | confidence | as-written member | corrected member |
|---|---|---|---|---|---|---|
| app.js:158-162 | the keyword test calls `problem.description.toLowerCase()`. A description may be an array of paragraphs, as the list and detail renderers accept (app.js:285, 340). Arrays have no `toLowerCase`, so the filter throws a TypeError. `renderProblemList` throws at app.js:270 before assigning the list at 271, so the previous results stay on screen; the listener stops before `renderStats` (app.js:576-577), so the statistics are stale; "next problem" does nothing (app.js:521); an import replaces and saves the store (app.js:557-558) and then reports "JSON 파싱에 실패했습니다." (app.js:564) | a problem titled "A" with description `["b"]`, searched for "b" (Filtering.ParagraphDescriptionThrows) | a paragraph-list description matches when one of its paragraphs contains the keyword | not executed | Filtering.FilterAsWritten | Filtering.FilterProblems |
| app.js:161 | the same call on a problem without a description, which the renderers expect (both fall back to an empty string, at app.js:287 and 339), throws the same TypeError with the same effects | a problem titled "A" without a description, searched for "b" (Filtering.MissingDescriptionThrows) | a missing description contains no keyword | not executed | Filtering.FilterAsWritten | Filtering.FilterProblems |

The corrected keyword test is the one the rest of the model uses: `Filtering.FilterProblems`, `ProblemList.VisibleProblems` and every lemma about the shown list, the `Panels` statistics and card counts, and the `App` members built on them (`App.Shown`, `App.SetConceptFilter`, `App.GoToNextProblem`). Where the source throws, the model shows the list the intended test gives.
