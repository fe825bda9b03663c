/**
 * Grading (`runTest`, and the `map`/`every` of `gradeCurrentProblem`). A
 * regular expression's match and a test function's run are not modelled;
 * each is an oracle the caller passes in.
 */
module Grader {
  import opened Catalog

  /** What running a test function gives: a truthy value, a falsy one, or a throw. */
  datatype Outcome = Pass | Fail | Fault

  datatype TestResult = TestResult(desc: string, passed: bool)

  /** The per-test results, in test order, and the overall verdict. */
  datatype Grading = Grading(results: seq<TestResult>, passed: bool)

  /**
   * One test against the learner's code. `matches(pattern, code)` stands for
   * `pattern.test(code)`, `exec(name, code)` for calling the test function.
   * A throwing function and a malformed test both fail the test.
   */
  function RunTest(t: Test, code: string, matches: (string, string) -> bool, exec: (string, string) -> Outcome): (r: TestResult)
    ensures r.desc == t.desc
    ensures t.MalformedTest? ==> !r.passed
    ensures t.FuncTest? ==> (r.passed <==> exec(t.exec, code) == Pass)
    ensures t.FuncTest? && exec(t.exec, code) == Fault ==> !r.passed
    ensures t.RegexTest? ==> (r.passed <==> matches(t.pattern, code))
  {
    match t
    case RegexTest(desc, pattern) => TestResult(desc, matches(pattern, code))
    case FuncTest(desc, name) =>
      // A throw is caught and reported as a failed test.
      (match exec(name, code)
       case Pass => TestResult(desc, true)
       case Fail => TestResult(desc, false)
       case Fault => TestResult(desc, false))
    case MalformedTest(desc) => TestResult(desc, false)
  }

  /** `tests.map(test => runTest(test, code))`: one result per test, in order. */
  function RunAll(tests: seq<Test>, code: string, matches: (string, string) -> bool, exec: (string, string) -> Outcome): (rs: seq<TestResult>)
    ensures |rs| == |tests|
    ensures forall i :: 0 <= i < |tests| ==> rs[i] == RunTest(tests[i], code, matches, exec)
  {
    if tests == [] then []
    else [RunTest(tests[0], code, matches, exec)] + RunAll(tests[1..], code, matches, exec)
  }

  /** `results.every(entry => entry.passed)`. */
  function AllPassed(rs: seq<TestResult>): (b: bool)
    ensures b <==> forall i :: 0 <= i < |rs| ==> rs[i].passed
  {
    rs == [] || (rs[0].passed && AllPassed(rs[1..]))
  }

  /**
   * Grading a problem: one result per test, in order; the verdict holds
   * exactly when every test passed, so a problem without tests passes; a
   * failing, throwing or malformed test fails the verdict but every later
   * test still runs.
   */
  function Grade(p: Problem, code: string, matches: (string, string) -> bool, exec: (string, string) -> Outcome): (g: Grading)
    ensures |g.results| == |p.tests|
    ensures forall i :: 0 <= i < |p.tests| ==>
              g.results[i].desc == p.tests[i].desc && g.results[i] == RunTest(p.tests[i], code, matches, exec)
    ensures g.passed <==> forall i :: 0 <= i < |g.results| ==> g.results[i].passed
    ensures p.tests == [] ==> g.passed
    ensures (exists i :: 0 <= i < |p.tests| && p.tests[i].MalformedTest?) ==> !g.passed
  {
    var rs := RunAll(p.tests, code, matches, exec);
    Grading(rs, AllPassed(rs))
  }

  /** Grading a sequence of tests is grading its parts one after the other. */
  lemma {:induction false} RunAllConcat(a: seq<Test>, b: seq<Test>, code: string, matches: (string, string) -> bool, exec: (string, string) -> Outcome)
    ensures RunAll(a + b, code, matches, exec) == RunAll(a, code, matches, exec) + RunAll(b, code, matches, exec)
    ensures AllPassed(RunAll(a + b, code, matches, exec)) ==
              (AllPassed(RunAll(a, code, matches, exec)) && AllPassed(RunAll(b, code, matches, exec)))
  {
    if a == [] {
      assert a + b == b;
    } else {
      assert (a + b)[1..] == a[1..] + b;
      RunAllConcat(a[1..], b, code, matches, exec);
    }
  }
}
