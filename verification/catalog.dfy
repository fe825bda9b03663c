/**
 * The records the practice app works on: problems of the catalogue, the tests
 * attached to them, the learner's progress records and the filter state.
 */
module Catalog {
  import opened Wrappers

  /** A problem's description: one free text, a list of paragraphs, or none at all. */
  datatype Description = Text(text: string) | Paragraphs(paragraphs: seq<string>) | Missing

  /**
   * A test attached to a problem. A regex test carries its regular expression
   * (by its source text); a func test names the function it runs. Anything
   * that is neither a `regex` test with a RegExp nor a `func` test with a
   * function is malformed.
   */
  datatype Test =
    | RegexTest(desc: string, pattern: string)
    | FuncTest(desc: string, exec: string)
    | MalformedTest(desc: string)

  datatype Problem = Problem(
    id: string,
    title: string,
    description: Description,
    difficulty: string,
    concept: string,
    tags: seq<string>,
    starterCode: Option<string>,
    tests: seq<Test>)

  /**
   * One learner history record. `updatedAt` is the parsed timestamp of the
   * last attempt; `None` stands for a record without one (or with an empty one).
   */
  datatype ProgressItem = ProgressItem(
    code: string,
    attempts: nat,
    passes: nat,
    passed: bool,
    updatedAt: Option<int>)

  /** The progress store: problem id to its record. */
  type Progress = map<string, ProgressItem>

  datatype Filters = Filters(
    search: string,
    difficulty: string,
    tag: string,
    sort: string,
    concept: string)

  const All: string := "all"

  const Beginner: string := "초급"
  const Intermediate: string := "중급"
  const Advanced: string := "고급"

  const SortDifficulty: string := "difficulty"
  const SortRecent: string := "recent"
  const SortAccuracy: string := "accuracy"

  /** The filter state the app starts with. */
  const InitialFilters: Filters := Filters("", All, All, SortDifficulty, All)

  /** The fixed display order of the concept taxonomy. */
  const ConceptOrder: seq<string> := [
    "폼 기본 구성",
    "요청 인코딩",
    "파라미터 열거",
    "다중값 처리",
    "요청 전달",
    "세션 관리",
    "디렉티브 활용",
    "cos.jar 업로드 처리",
    "업로드 메타데이터",
    "Commons FileUpload",
    "정적 리소스 관리",
    "업로드 파일 규칙화",
    "입력 데이터 후처리",
    "업로드 모니터링",
    "요청 진단"
  ]

  /** `problems.find(item => item.id === id)`: the first problem with that id. */
  function FindProblem(problems: seq<Problem>, id: Option<string>): (r: Option<Problem>)
    ensures r.None? <==> forall i :: 0 <= i < |problems| ==> Some(problems[i].id) != id
    ensures r.Some? ==> exists k :: 0 <= k < |problems| && problems[k] == r.value
                          && Some(r.value.id) == id
                          && forall i :: 0 <= i < k ==> Some(problems[i].id) != id
  {
    if problems == [] then None
    else if Some(problems[0].id) == id then Some(problems[0])
    else
      var r := FindProblem(problems[1..], id);
      assert r.Some? ==> exists k :: 0 <= k < |problems| && problems[k] == r.value
                          && forall i :: 0 <= i < k ==> Some(problems[i].id) != id by {
        if r.Some? {
          var k :| 0 <= k < |problems[1..]| && problems[1..][k] == r.value
                   && Some(r.value.id) == id
                   && forall i :: 0 <= i < k ==> Some(problems[1..][i].id) != id;
          assert problems[k + 1] == r.value;
          assert forall i :: 0 <= i < k + 1 ==> Some(problems[i].id) != id by {
            forall i | 0 <= i < k + 1 ensures Some(problems[i].id) != id {
              if i > 0 { assert problems[i] == problems[1..][i - 1]; }
            }
          }
        }
      }
      r
  }

  /** Whether no two problems of `problems` share an id. */
  predicate UniqueIds(problems: seq<Problem>) {
    forall i, j :: 0 <= i < j < |problems| ==> problems[i].id != problems[j].id
  }

  /** Without repeated ids no problem occurs twice. */
  lemma {:induction false} UniqueIdsOccurOnce(problems: seq<Problem>, p: Problem)
    requires UniqueIds(problems)
    ensures multiset(problems)[p] <= 1
  {
    if problems != [] {
      var rest := problems[1..];
      assert UniqueIds(rest) by {
        forall i, j | 0 <= i < j < |rest| ensures rest[i].id != rest[j].id {
          assert rest[i] == problems[i + 1] && rest[j] == problems[j + 1];
        }
      }
      UniqueIdsOccurOnce(rest, p);
      assert problems == [problems[0]] + rest;
      if problems[0] == p {
        assert forall k :: 0 <= k < |rest| ==> rest[k] == problems[k + 1];
        assert p !in rest;
      }
    }
  }

  /** An element at two positions occurs at least twice. */
  lemma RepeatedOccursTwice<T>(s: seq<T>, i: nat, j: nat)
    requires i < j < |s| && s[i] == s[j]
    ensures multiset(s)[s[i]] >= 2
  {
    assert s == s[..j] + s[j..];
    assert s[..j][i] == s[i];
    assert s[j..][0] == s[i];
  }

  /**
   * Taking problems from a list without repeated ids, each at most as often
   * as it occurs there, gives a list without repeated ids.
   */
  lemma UniqueIdsOfSubMultiset(r: seq<Problem>, problems: seq<Problem>)
    requires UniqueIds(problems)
    requires forall p :: multiset(r)[p] <= multiset(problems)[p]
    ensures UniqueIds(r)
  {
    forall i, j | 0 <= i < j < |r| ensures r[i].id != r[j].id {
      if r[i].id == r[j].id {
        assert multiset(problems)[r[i]] > 0 && multiset(problems)[r[j]] > 0;
        var a :| 0 <= a < |problems| && problems[a] == r[i];
        var b :| 0 <= b < |problems| && problems[b] == r[j];
        assert a == b;
        UniqueIdsOccurOnce(problems, r[i]);
        RepeatedOccursTwice(r, i, j);
        assert false;
      }
    }
  }
}
