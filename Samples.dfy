/**
 * The sample data both pages display, used as concrete checks of the model:
 * the eight-run history of the Test History page and the four test cases and
 * results of the Dashboard.
 */
module Samples {
  import opened Wrappers
  import opened History
  import opened Dashboard
  import opened Sequences
  import opened Text

  /** The history the Test History page lists, newest first. */
  function SampleHistory(): (h: seq<TestRun>)
    ensures |h| == 8
  {
    [ TestRun("run_008", "2025-06-22", "14:30", 4, 3, 1, "staging", "auth-service", "45s", "Manual"),
      TestRun("run_007", "2025-06-22", "11:15", 8, 7, 1, "local", "user-dashboard", "1m 23s", "GitHub PR #156"),
      TestRun("run_006", "2025-06-21", "16:45", 12, 12, 0, "prod", "payment-api", "2m 12s", "Scheduled"),
      TestRun("run_005", "2025-06-21", "10:30", 6, 4, 2, "staging", "auth-service", "58s", "Manual"),
      TestRun("run_004", "2025-06-20", "15:20", 5, 5, 0, "local", "user-dashboard", "42s", "GitHub PR #154"),
      TestRun("run_003", "2025-06-20", "09:45", 15, 13, 2, "staging", "payment-api", "3m 5s", "Manual"),
      TestRun("run_002", "2025-06-19", "14:10", 3, 2, 1, "local", "auth-service", "28s", "Manual"),
      TestRun("run_001", "2025-06-19", "11:00", 7, 6, 1, "staging", "user-dashboard", "1m 15s", "GitHub PR #152") ]
  }

  /** Filtering on the production environment lists its one run. */
  lemma ProductionRuns()
    ensures Filtered(SampleHistory(), Filter("prod", "all", "")) == [SampleHistory()[2]]
  {
    var h := SampleHistory();
    var f := Filter("prod", "all", "");
    var keep := run => Matches(run, f);
    assert forall i :: 0 <= i < |h| ==> (keep(h[i]) <==> h[i].environment == "prod");
    assert forall i :: 0 <= i < |h| && i != 2 ==> h[i].environment != "prod";
    FilterSeqNone(h[3..], keep);
    assert FilterSeq(h[2..], keep) == [h[2]];
    assert FilterSeq(h[1..], keep) == [h[2]];
    assert FilterSeq(h, keep) == [h[2]];
  }

  /** The summary figures of the unfiltered sample history: 60 tests, 8
      failures and an 84% average (the per-run rates 75, 88, 100, 67, 100, 87,
      67 and 86 add up to 670). */
  lemma SampleSummary()
    ensures TotalTests(SampleHistory()) == 60
    ensures TotalFailures(SampleHistory()) == 8
    ensures AverageSuccessRate(SampleHistory()) == 84
  {
    var h := SampleHistory();
    assert Sum(h, RunSuccessRate) == 670 by {
      assert RunSuccessRate(h[0]) == 75;
      assert RunSuccessRate(h[1]) == 88;
      assert RunSuccessRate(h[2]) == 100;
      assert RunSuccessRate(h[3]) == 67;
      assert RunSuccessRate(h[4]) == 100;
      assert RunSuccessRate(h[5]) == 87;
      assert RunSuccessRate(h[6]) == 67;
      assert RunSuccessRate(h[7]) == 86;
    }
  }

  /** The project select offers each of the three projects once, in order of
      first appearance. */
  lemma SampleProjects()
    ensures Projects(SampleHistory()) == ["auth-service", "user-dashboard", "payment-api"]
  {
    var a, u, p := "auth-service", "user-dashboard", "payment-api";
    assert ProjectNames(SampleHistory()) == [a, u, p, a, u, p, a, u];
    DistinctSampleProjects(a, u, p);
  }

  /** The distinct names of the sample's project column, in order. */
  lemma DistinctSampleProjects(a: string, u: string, p: string)
    requires a != u && u != p && a != p
    ensures AddDistinct([a, u, p, a, u, p, a, u], []) == [a, u, p]
  {
    var names := [a, u, p, a, u, p, a, u];
    AddDistinctSeen(names[3..], [a, u, p]);
    assert names[2..][1..] == names[3..] && [a, u] + [p] == [a, u, p];
    assert AddDistinct(names[2..], [a, u]) == [a, u, p];
    assert names[1..][1..] == names[2..] && [a] + [u] == [a, u];
    assert AddDistinct(names[1..], [a]) == [a, u, p];
    assert [] + [a] == [a];
  }

  /** The cases a generation shows (steps abridged to the first one). */
  function SampleCases(): (cases: seq<TestCase>)
    ensures |cases| == 4
  {
    [ TestCase("Login_ValidCredentials",
               [TestStep("Navigate to login page", "Login form displayed")],
               map["email" := "user@example.com", "password" := "Pass123!"], "High"),
      TestCase("Login_InvalidEmail",
               [TestStep("Navigate to login page", "Login form displayed")],
               map["email" := "@invalid.com", "password" := "Pass123!"], "Medium"),
      TestCase("Login_EmptyCredentials",
               [TestStep("Navigate to login page", "Login form displayed")],
               map["email" := "", "password" := ""], "High"),
      TestCase("Login_WrongPassword",
               [TestStep("Enter valid email", "Email field populated")],
               map["email" := "user@example.com", "password" := "wrongpass"], "Medium") ]
  }

  /** The results a run shows. */
  function SampleResults(): (results: seq<TestResult>)
    ensures |results| == 4
  {
    [ TestResult("Login_ValidCredentials", Pass, "", "2.3s"),
      TestResult("Login_InvalidEmail", Pass, "", "1.8s"),
      TestResult("Login_EmptyCredentials", Fail, "Element not found: #login-button", "5.1s"),
      TestResult("Login_WrongPassword", Pass, "", "2.7s") ]
  }

  /** Three of the four sample results pass and one fails. */
  lemma SampleTallies()
    ensures PassedCount(SampleResults()) == 3 && FailedCount(SampleResults()) == 1
  {
  }

  /** The failing case shows its status and error, and a name with no result
      shows "Not Run". */
  lemma SampleResultBadges()
    ensures DisplayedStatus(SampleResults(), "Login_EmptyCredentials") == "Fail"
    ensures DisplayedError(SampleResults(), "Login_EmptyCredentials") == Some("Element not found: #login-button")
    ensures DisplayedStatus(SampleResults(), "Signup_NewUser") == "Not Run"
  {
    var rs := SampleResults();
    assert FirstWithName(rs, "Login_EmptyCredentials", 2);
  }

  /** A session from the first render: paste the placeholder pull-request
      link, generate (the link is replaced by the page's fixed description),
      run, export. */
  method SampleSession()
  {
    var fetched := PullRequestDescription;
    var page := new Session();
    page.SetInput("https://github.com/user/repo/pull/123");
    PlaceholderIsPullRequestRef();
    assert !IsWhitespace(page.input[0]);
    var generated, _ := page.GenerateTests(fetched, SampleCases());
    assert generated == Success(4);
    assert page.input == fetched && page.testResults == [];

    var run, shown := page.RunTests(SampleResults());
    SampleTallies();
    assert run == Success((3, 4));
    assert shown[0].runProgress == 0 && shown[10].runProgress == 100;
    assert page.testResults == SampleResults() && page.runProgress == 0;
    assert page.Snapshot().testCases == SampleCases();
    assert |page.testCases| == 4;

    var file := page.Export(Postman);
    assert file == Success(FileName(Postman));
  }
}
