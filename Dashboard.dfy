/**
 * The Dashboard page: the user types a feature description or a pull-request
 * link, generates test cases, runs them against an environment with a
 * progress bar, inspects each case's status and exports the cases.
 *
 * The test-case generator and the test executor stand outside this model:
 * the cases a generation produces and the results a run produces are
 * parameters of the handlers.
 */
module Dashboard {
  import opened Wrappers
  import opened Text
  import opened Sequences

  // ---------------------------------------------------------------------------
  // Records
  // ---------------------------------------------------------------------------

  datatype TestStep = TestStep(action: string, expectedResult: string)

  /** A generated test case: its name, ordered steps, example data and
      priority label. */
  datatype TestCase = TestCase(
    testName: string,
    steps: seq<TestStep>,
    testData: map<string, string>,
    priority: string)

  /** A result's status is one of exactly two values. */
  datatype Status = Pass | Fail

  datatype TestResult = TestResult(testName: string, status: Status, error: string, duration: string)

  // ---------------------------------------------------------------------------
  // Tallies
  // ---------------------------------------------------------------------------

  predicate IsPassed(r: TestResult) { r.status == Pass }

  predicate IsFailed(r: TestResult) { r.status == Fail }

  /** The "Passed" figure: `results.filter(r => r.status === 'Pass').length`. */
  function PassedCount(results: seq<TestResult>): nat
  {
    |FilterSeq(results, IsPassed)|
  }

  /** The "Failed" figure: `results.filter(r => r.status === 'Fail').length`. */
  function FailedCount(results: seq<TestResult>): nat
  {
    |FilterSeq(results, IsFailed)|
  }

  /** Every result is either passed or failed: the two figures add up to the
      "Total" figure, so neither exceeds it. */
  lemma PassFailPartition(results: seq<TestResult>)
    ensures PassedCount(results) + FailedCount(results) == |results|
    ensures PassedCount(results) <= |results| && FailedCount(results) <= |results|
  {
    FilterSeqComplement(results, IsPassed, IsFailed);
  }

  // ---------------------------------------------------------------------------
  // Looking up a case's result
  // ---------------------------------------------------------------------------

  /** `i` is the first position of `results` whose test name is `name`. */
  predicate FirstWithName(results: seq<TestResult>, name: string, i: int)
  {
    && 0 <= i < |results|
    && results[i].testName == name
    && forall j :: 0 <= j < i ==> results[j].testName != name
  }

  /** `results.find(r => r.test_name === name)`: the first result carrying the
      name, or nothing when none does. */
  function Find(results: seq<TestResult>, name: string): (r: Option<TestResult>)
    ensures r.None? <==> forall i :: 0 <= i < |results| ==> results[i].testName != name
    ensures r.Some? ==> exists i :: FirstWithName(results, name, i) && results[i] == r.value
  {
    if results == [] then None
    else if results[0].testName == name then
      assert FirstWithName(results, name, 0);
      Some(results[0])
    else
      var r := Find(results[1..], name);
      if r.Some? then
        var i :| FirstWithName(results[1..], name, i) && results[1..][i] == r.value;
        assert FirstWithName(results, name, i + 1);
        r
      else
        r
  }

  function StatusLabel(s: Status): string
  {
    match s
    case Pass => "Pass"
    case Fail => "Fail"
  }

  /** The badge beside a test case: the status of the first result with the
      case's name, or "Not Run" when no result has that name. */
  function DisplayedStatus(results: seq<TestResult>, name: string): (badge: string)
    ensures badge == "Not Run" <==> forall i :: 0 <= i < |results| ==> results[i].testName != name
    ensures badge != "Not Run" ==>
      exists i :: FirstWithName(results, name, i) && badge == StatusLabel(results[i].status)
  {
    match Find(results, name)
    case Some(r) => StatusLabel(r.status)
    case None => "Not Run"
  }

  /** The error panel of an expanded test case: shown when the first result
      with the case's name carries a non-empty error message. */
  function DisplayedError(results: seq<TestResult>, name: string): (shown: Option<string>)
    ensures shown.Some? <==>
      exists i :: FirstWithName(results, name, i) && results[i].error != ""
    ensures shown.Some? ==>
      exists i :: FirstWithName(results, name, i) && shown.value == results[i].error
  {
    var found := Find(results, name);
    FirstWithNameUnique(results, name);
    if found.Some? && found.value.error != "" then Some(found.value.error) else None
  }

  /** There is at most one first position for a name. */
  lemma FirstWithNameUnique(results: seq<TestResult>, name: string)
    ensures forall i, j :: FirstWithName(results, name, i) && FirstWithName(results, name, j) ==> i == j
  {
  }

  // ---------------------------------------------------------------------------
  // Expanding and collapsing test cases
  // ---------------------------------------------------------------------------

  /** The set of expanded test cases after clicking the case `name`: its
      membership flips and every other name keeps its own. */
  function Toggled(expanded: set<string>, name: string): (r: set<string>)
    ensures name in r <==> name !in expanded
    ensures forall other :: other != name ==> (other in r <==> other in expanded)
  {
    if name in expanded then expanded - {name} else expanded + {name}
  }

  /** Clicking the same case twice restores the set. */
  lemma ToggledTwice(expanded: set<string>, name: string)
    ensures Toggled(Toggled(expanded, name), name) == expanded
  {
  }

  // ---------------------------------------------------------------------------
  // Pull-request links
  // ---------------------------------------------------------------------------

  /** The description the page substitutes for fetching a pull request; the
      handler takes the fetched description as its `fetched` parameter. */
  const PullRequestDescription: string :=
    "Add login endpoint: POST /api/login expects email and password. Returns JWT token on success, 401 on invalid credentials."

  /** The input is taken for a pull-request link when it mentions both
      "github.com" and "pull". */
  predicate IsPullRequestRef(input: string)
  {
    Contains(input, "github.com") && Contains(input, "pull")
  }

  /** The test is two substring searches: both words occur somewhere in the
      input. */
  lemma PullRequestRefIff(input: string)
    ensures IsPullRequestRef(input) <==>
      (exists i :: OccursAt(input, "github.com", i)) && (exists j :: OccursAt(input, "pull", j))
  {
    ContainsIff(input, "github.com");
    ContainsIff(input, "pull");
  }

  /** The link in the input box's placeholder is taken for a pull request. */
  lemma PlaceholderIsPullRequestRef()
    ensures IsPullRequestRef("https://github.com/user/repo/pull/123")
  {
    var link := "https://github.com/user/repo/pull/123";
    var front, host, path, pull, rest := "https://", "github.com", "/user/repo/", "pull", "/123";
    assert link == front + host + path + pull + rest;
    assert OccursAt(link, host, |front|) by {
      assert link[|front|..|front| + |host|] == host;
    }
    assert OccursAt(link, pull, |front + host + path|) by {
      assert link[|front + host + path|..|front + host + path| + |pull|] == pull;
    }
    PullRequestRefIff(link);
  }

  // ---------------------------------------------------------------------------
  // The page's state and its handlers
  // ---------------------------------------------------------------------------

  datatype ExportFormat = Selenium | Postman

  /** The download's file name: a Python script for Selenium, a JSON
      collection for Postman. */
  function FileName(format: ExportFormat): (name: string)
    ensures format == Selenium ==> name == "qa_autopilot_tests.py"
    ensures format == Postman ==> name == "qa_autopilot_tests.json"
  {
    match format
    case Selenium => "qa_autopilot_tests.py"
    case Postman => "qa_autopilot_tests.json"
  }

  /** Why a handler refused to act (the page shows a toast instead). */
  datatype Refusal = BlankInput | NoTestCases

  /** Everything the page renders from, at one moment. */
  datatype View = View(
    input: string,
    environment: string,
    isGenerating: bool,
    isRunning: bool,
    testCases: seq<TestCase>,
    testResults: seq<TestResult>,
    expandedTests: set<string>,
    runProgress: int)

  /** The Dashboard component: one field per piece of component state. Each
      handler is one atomic step; the moments at which a handler waits (and the
      page re-renders) are returned as the list of views shown meanwhile. */
  class Session {
    var input: string
    var environment: string
    var isGenerating: bool
    var isRunning: bool
    var testCases: seq<TestCase>
    var testResults: seq<TestResult>
    var expandedTests: set<string>
    var runProgress: int

    function Snapshot(): View
      reads this
    {
      View(input, environment, isGenerating, isRunning, testCases, testResults, expandedTests, runProgress)
    }

    /** Between two handlers nothing is generating or running, the progress
        bar is back at 0, and results are only ever shown for generated
        cases. */
    ghost predicate Idle()
      reads this
    {
      && !isGenerating && !isRunning && runProgress == 0
      && (testResults != [] ==> testCases != [])
    }

    /** The "Run Tests" button is enabled when nothing runs and there are cases. */
    predicate RunButtonEnabled()
      reads this
    {
      !isRunning && testCases != []
    }

    /** The page as it first appears. */
    constructor ()
      ensures Idle()
      ensures Snapshot() == View("", "staging", false, false, [], [], {}, 0)
    {
      input := "";
      environment := "staging";
      isGenerating := false;
      isRunning := false;
      testCases := [];
      testResults := [];
      expandedTests := {};
      runProgress := 0;
    }

    /** Typing into the input box. */
    method SetInput(text: string)
      requires Idle()
      modifies this
      ensures Idle()
      ensures Snapshot() == old(Snapshot()).(input := text)
    {
      input := text;
    }

    /** Choosing an environment. */
    method SetEnvironment(env: string)
      requires Idle()
      modifies this
      ensures Idle()
      ensures Snapshot() == old(Snapshot()).(environment := env)
    {
      environment := env;
    }

    /** "Generate Tests". Blank input is refused and changes nothing. A
        pull-request link is first replaced by the pull request's description,
        `fetched`. The generated cases then replace the old ones and the old
        results are cleared. `rendered` lists the views shown while waiting. */
    method GenerateTests(fetched: string, generated: seq<TestCase>) returns (outcome: Result<nat, Refusal>, rendered: seq<View>)
      requires Idle()
      modifies this
      ensures Idle()
      ensures outcome.Failure? <==> AllWhitespace(old(input))
      ensures outcome.Failure? ==>
        outcome.error == BlankInput && rendered == [] && Snapshot() == old(Snapshot())
      ensures outcome.Success? ==>
        && outcome.value == |generated|
        && Snapshot() == old(Snapshot()).(
             input := if IsPullRequestRef(old(input)) then fetched else old(input),
             testCases := generated,
             testResults := [])
      ensures outcome.Success? ==>
        rendered == if IsPullRequestRef(old(input))
                    then [old(Snapshot()).(isGenerating := true),
                          old(Snapshot()).(isGenerating := true, input := fetched)]
                    else [old(Snapshot()).(isGenerating := true)]
    {
      ghost var start := Snapshot();
      if IsBlank(input) {
        return Failure(BlankInput), [];
      }
      isGenerating := true;
      rendered := [Snapshot()];
      assert rendered == [start.(isGenerating := true)];
      if IsPullRequestRef(input) {
        input := fetched;
        rendered := rendered + [Snapshot()];
      }
      testCases := generated;
      testResults := [];
      isGenerating := false;
      outcome := Success(|generated|);
    }

    /** "Run Tests". With no cases it is refused and changes nothing (the
        button is disabled then too). Otherwise results are cleared, the
        progress bar steps 0, 10, ..., 100 while no result is shown, and only
        then the run's results appear, the bar resets and the run ends. The
        outcome is the passed and total counts the completion message shows. */
    method RunTests(results: seq<TestResult>) returns (outcome: Result<(nat, nat), Refusal>, rendered: seq<View>)
      requires Idle()
      modifies this
      ensures Idle()
      ensures outcome.Failure? <==> !old(RunButtonEnabled())
      ensures outcome.Failure? <==> old(testCases) == []
      ensures outcome.Failure? ==>
        outcome.error == NoTestCases && rendered == [] && Snapshot() == old(Snapshot())
      ensures outcome.Success? ==>
        && outcome.value == (PassedCount(results), |results|)
        && Snapshot() == old(Snapshot()).(testResults := results)
      ensures outcome.Success? ==>
        && |rendered| == 11
        && (forall k :: 0 <= k < |rendered| ==>
              rendered[k] == old(Snapshot()).(isRunning := true, testResults := [], runProgress := 10 * k))
    {
      if testCases == [] {
        return Failure(NoTestCases), [];
      }
      ghost var before := Snapshot();
      isRunning := true;
      runProgress := 0;
      testResults := [];
      ghost var running := Snapshot();
      rendered := [];
      var i := 0;
      while i <= 100
        invariant 0 <= i <= 110 && i % 10 == 0
        invariant |rendered| == i / 10
        invariant forall k :: 0 <= k < |rendered| ==> rendered[k] == running.(runProgress := 10 * k)
        invariant Snapshot() == running.(runProgress := runProgress)
      {
        runProgress := i;
        rendered := rendered + [Snapshot()];
        i := i + 10;
      }
      testResults := results;
      isRunning := false;
      runProgress := 0;
      outcome := Success((PassedCount(results), |results|));
    }

    /** Clicking a test case flips whether it is expanded, and nothing else. */
    method ToggleTestExpansion(name: string)
      requires Idle()
      modifies this
      ensures Idle()
      ensures Snapshot() == old(Snapshot()).(expandedTests := Toggled(old(expandedTests), name))
    {
      var newExpanded := expandedTests;
      if name in newExpanded {
        newExpanded := newExpanded - {name};
      } else {
        newExpanded := newExpanded + {name};
      }
      expandedTests := newExpanded;
    }

    /** "Export Selenium" / "Export Postman": refused with no cases, otherwise
        the name of the file offered for download. */
    method Export(format: ExportFormat) returns (file: Result<string, Refusal>)
      ensures file.Failure? <==> testCases == []
      ensures file.Failure? ==> file.error == NoTestCases
      ensures file.Success? ==> file.value == FileName(format)
    {
      if |testCases| == 0 {
        return Failure(NoTestCases);
      }
      file := Success(FileName(format));
    }
  }
}
