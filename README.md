# QA Autopilot dashboard: the logic of the History and Dashboard pages

This project models the logic of two pages of the QA Autopilot web
dashboard and proves properties of it.

- **The Test History page** (`History`). It lists past test runs. Three filters
  are ANDed:
  - an environment (`"all"` or one environment);
  - a project (`"all"` or one project);
  - a case-insensitive search on a run's id or project.

  The page shows the success rate of each run and four summary figures over
  the listed runs: number of runs, average success rate, total tests and total
  failures. It also offers the distinct projects as filter choices and expands
  at most one run at a time.
- **The Dashboard page** (`Dashboard`). Its handlers work on a `Session` whose
  fields are the page's component state:
  - Generate Tests. Blank input is refused. A pull-request link is replaced by
    the pull request's description.
  - Run Tests. It is refused without test cases. The progress bar goes 0, 10,
    …, 100; then the results appear.
  - Expanding a test case.
  - Export. It is refused without test cases. The file name depends on the
    format.

  Beside the session: the pass and fail tallies, and each case's status badge
  and error panel. These come from the first result with the case's name, or
  "Not Run".

The JavaScript built-ins the pages rely on are modelled in `Text`
(`toLowerCase`, `includes`, `trim`) and `Sequences` (`filter`). `Wrappers`
holds `Option` and `Result`. `Samples` states what the model gives for the
pages' own sample data: the eight-run history, the four test cases and their four
results.

## Model

| member | source | states |
|---|---|---|
| History.MatchesEnvironment | src/components/History.tsx:142 | The environment select is "all" or equals the run's environment (used by `History.Filtered`). |
| History.MatchesProject | src/components/History.tsx:143 | The project select is "all" or equals the run's project (used by `History.Filtered`). |
| History.MatchesSearch | src/components/History.tsx:144-146 | The search is empty, or its lower-cased form is included in the lower-cased run id or project; `History.SearchMatchIff` states it as an occurrence. |
| History.Matches | src/components/History.tsx:148 | The three conditions ANDed; `History.Filtered` lists exactly the runs that meet it. |
| History.Filtered | src/components/History.tsx:141-149 | A run is listed iff it is in the history and matches the environment, project and search filters. The list is never longer than the history. |
| History.FilteredSelectsMatchingPositions | src/components/History.tsx:141-149 | The listed runs are the history's runs at exactly the matching positions, in history order: an order-preserving subsequence. So "N of M runs" has N <= M. |
| History.UnfilteredKeepsAll | src/components/History.tsx:142-146 | With every filter at its initial value ("all", "all", "") the whole history is listed unchanged. |
| History.SearchIgnoresCase | src/components/History.tsx:144-146 | Two search terms with the same lower-case form list the same runs. |
| History.SearchMatchIff | src/components/History.tsx:144-146 | A non-empty search matches a run iff the lower-cased term occurs at some index of the lower-cased run id or of the lower-cased project. |
| History.RoundDiv | src/components/History.tsx:156 | `Math.round(n / d)` for d > 0: the result r satisfies 2dr <= 2n + d < 2d(r + 1). That is the nearest integer, with halves rounded up. |
| History.RoundDivBounds | src/components/History.tsx:156 | Rounding n / d with 0 <= n <= hi * d gives a value in 0..hi. |
| History.SuccessRateAsWritten | src/components/History.tsx:155-157 | The unguarded rate. It is finite iff total > 0. With total == 0 it is NaN when passed == 0, and Infinity otherwise. |
| History.ZeroTestRunShowsNaN | src/components/History.tsx:155-157 | A run with no tests shows NaN. |
| History.SuccessRate | src/components/History.tsx:155-157 | The guarded rate: 0 for a zero total. Otherwise it is 100 * passed / total rounded to the nearest integer, halves up. It lies in 0..100 when passed <= total, is 100 when every test passed and is 0 when none did. |
| History.PercentBounds | src/components/History.tsx:156 | For a positive total, the rounded percentage lies in 0..100, is 100 when passed == total and is 0 when passed == 0. |
| History.SuccessRateAgrees | src/components/History.tsx:155-157 | Wherever the source's expression is finite, the guarded rate equals it. |
| History.Run008SuccessRate | src/components/History.tsx:32-34 | run_008 (3 of 4 passed) shows 75%. |
| History.FoldSum | src/components/History.tsx:229 | The `reduce((acc, run) => acc + field(run), acc)` left fold; `History.FoldSumIsSum` equates it with the sum. |
| History.RunSuccessRate | src/components/History.tsx:229 | A run's guarded success rate, as the average adds it up (see `History.SuccessRate`). |
| History.FoldSumIsSum | src/components/History.tsx:229 | The `reduce` left fold from an accumulator equals the accumulator plus the sum over the runs. |
| History.SumBounds | src/components/History.tsx:229 | A sum of per-run values within lo..hi lies within lo·n..hi·n. |
| History.SumOverFiltered | src/components/History.tsx:239 | A sum over the listed runs equals the sum over the whole history with every non-matching run counting 0. So totals are taken over exactly the filtered runs. |
| History.SumMonotone | src/components/History.tsx:239 | A sum is monotone in the summed per-run value. |
| History.TotalTests | src/components/History.tsx:238-240 | The "Total Tests" figure is the sum of `tests` over the given runs. |
| History.TotalFailures | src/components/History.tsx:246-248 | The "Total Failures" figure is the sum of `failed` over the given runs. |
| History.AverageSuccessRate | src/components/History.tsx:228-231 | With no runs the figure is 0. Otherwise it is the sum of the per-run rates divided by the number of runs, rounded to the nearest integer, halves up. |
| History.AverageSuccessRateBounds | src/components/History.tsx:228-231 | When no run has more passed tests than tests, the average lies in 0..100. |
| History.AllPassedAverage | src/components/History.tsx:228-231 | When every listed run passed all of its (non-zero) tests, the average is 100. |
| History.AddRounded | src/components/History.tsx:229 | JavaScript `+` on rates as written: NaN absorbs every value, Infinity every finite one (used by `History.FoldRatesCases`). |
| History.FoldRatesAsWritten | src/components/History.tsx:229 | The average's `reduce` over the unguarded per-run rates; `History.FoldRatesCases` states its value. |
| History.FoldRatesCases | src/components/History.tsx:229 | The fold is NaN iff it starts at NaN or meets a 0/0 run, Infinity iff it is not NaN and starts at Infinity or meets a run with no tests, and otherwise (all runs with tests) the finite sum of the guarded rates. |
| History.AverageSuccessRateAsWritten | src/components/History.tsx:228-231 | The figure as written: NaN iff a listed run has no tests and no passes, Infinity iff no run is 0/0 but some run has no tests, finite iff every listed run has tests. |
| History.ZeroTestAverageShowsNaN | src/components/History.tsx:228-231 | Listing a run with no tests turns the average as written into NaN. |
| History.AverageSuccessRateAgrees | src/components/History.tsx:228-231 | When every listed run has tests, the guarded average equals the finite average as written. |
| History.TotalsBounds | src/components/History.tsx:239-247 | Over the listed runs total failures <= total tests. The listed runs' total tests never exceeds the whole history's. |
| History.AddDistinct | src/components/History.tsx:159 | `new Set(names)` read back in insertion order; `History.AddDistinctSpec` and `History.AddDistinctOrder` state what it gives. |
| History.AddDistinctSpec | src/components/History.tsx:159 | Inserting names into a duplicate-free insertion-ordered set keeps the old contents as a prefix and stays duplicate-free. It ends with exactly the old names and the inserted ones. |
| History.AddDistinctSeen | src/components/History.tsx:159 | Inserting names that are all already present changes nothing. |
| History.FirstIndex | src/components/History.tsx:159 | The least position holding a name: the position holds it and no earlier one does. |
| History.AddDistinctOrder | src/components/History.tsx:159 | The names appended after the old contents come from the inserted names and are in order of their first occurrence. |
| History.ProjectNames | src/components/History.tsx:159 | `map(run => run.project)`: one name per run, at the run's position. |
| History.Projects | src/components/History.tsx:159 | The project choices are free of duplicates and contain p iff some run has project p. They are listed in order of first occurrence: of two choices, the earlier one first occurs at an earlier run. |
| History.ToggleExpanded | src/components/History.tsx:151-153 | Clicking the expanded run collapses it. Clicking any other run makes it the only expanded one. |
| History.ToggleExpandedTwice | src/components/History.tsx:151-153 | From nothing expanded, or from the clicked run expanded, two clicks on the same run restore the state. From another run expanded, two clicks leave nothing expanded. |
| Dashboard.PassedCount | src/components/Dashboard.tsx:421 | The "Passed" figure, `filter(status === 'Pass').length`; `Dashboard.PassFailPartition` bounds it. |
| Dashboard.FailedCount | src/components/Dashboard.tsx:427 | The "Failed" figure, `filter(status === 'Fail').length`; `Dashboard.PassFailPartition` bounds it. |
| Dashboard.PassFailPartition | src/components/Dashboard.tsx:421-432 | Passed + Failed == Total, since a status is Pass or Fail. Neither count exceeds Total. |
| Dashboard.Find | src/components/Dashboard.tsx:365 | `find` by test name is absent iff no result has the name. Otherwise it is the result at the first position carrying the name. |
| Dashboard.StatusLabel | src/components/Dashboard.tsx:22 | The text of a status, "Pass" or "Fail", as the badges show it. |
| Dashboard.DisplayedStatus | src/components/Dashboard.tsx:365-369 | A case's badge is "Not Run" iff no result has its name. Otherwise it is the status of the first result with the name. |
| Dashboard.DisplayedError | src/components/Dashboard.tsx:393-398 | The error panel of an expanded case appears iff the first result with the case's name has a non-empty error, and it shows that error. |
| Dashboard.FirstWithNameUnique | src/components/Dashboard.tsx:365 | A name has at most one first position. |
| Dashboard.Toggled | src/components/Dashboard.tsx:144-152 | Clicking a case flips whether it is expanded. Every other case keeps its state. |
| Dashboard.ToggledTwice | src/components/Dashboard.tsx:144-152 | Clicking the same case twice restores the expanded set. |
| Dashboard.IsPullRequestRef | src/components/Dashboard.tsx:94 | The input includes both "github.com" and "pull"; `Dashboard.PullRequestRefIff` states it as two occurrences. |
| Dashboard.PullRequestRefIff | src/components/Dashboard.tsx:94 | The input is taken for a pull-request link iff "github.com" occurs at some index and "pull" occurs at some index. |
| Dashboard.PlaceholderIsPullRequestRef | src/components/Dashboard.tsx:261 | The placeholder's example link is taken for a pull-request link. |
| Dashboard.FileName | src/components/Dashboard.tsx:195-236 | Selenium exports to qa_autopilot_tests.py and Postman to qa_autopilot_tests.json. |
| Dashboard.Session.Idle | src/components/Dashboard.tsx:28-35 | The state between handlers: nothing generating or running, progress 0, and results only alongside cases. Every state-changing handler requires and keeps it; `Dashboard.Session.Export` changes nothing. |
| Dashboard.Session.RunButtonEnabled | src/components/Dashboard.tsx:289 | The Run Tests button is enabled iff nothing runs and there are cases; `Dashboard.Session.RunTests` is refused exactly when it is disabled. |
| Dashboard.Session.constructor | src/components/Dashboard.tsx:28-35 | The initial state: empty input, "staging", nothing generating or running, no cases, results or expanded cases, progress 0. |
| Dashboard.Session.SetInput | src/components/Dashboard.tsx:263 | Typing replaces the input and nothing else. |
| Dashboard.Session.SetEnvironment | src/components/Dashboard.tsx:269 | Choosing an environment replaces it and nothing else. |
| Dashboard.Session.GenerateTests | src/components/Dashboard.tsx:85-105 | Refused iff the input is all whitespace; a refusal changes nothing. Otherwise a pull-request link is replaced by the fetched description, the cases become the generated ones, results are cleared and generation ends. The views shown while waiting are listed. |
| Dashboard.Session.RunTests | src/components/Dashboard.tsx:107-142 | Refused iff there are no cases, which is exactly when the Run button is disabled; a refusal changes nothing. Otherwise the 11 views shown are running, with no results, at progress 10k for k = 0..10. At the end only the results have changed, the run is over, progress is 0, and the outcome is (passed, total). |
| Dashboard.Session.ToggleTestExpansion | src/components/Dashboard.tsx:144-152 | The expanded set becomes the toggled set. Nothing else changes. |
| Dashboard.Session.Export | src/components/Dashboard.tsx:154-158 | Refused iff there are no cases. Otherwise it offers the format's file name. |
| Text.LowerChar | src/components/History.tsx:145-146 | A-Z map to a-z (32 code points up); every other character is kept. |
| Text.ToLower | src/components/History.tsx:145-146 | `toLowerCase` keeps the length and lower-cases each character. |
| Text.ToLowerEmpty | src/components/History.tsx:144-146 | Only the empty string lower-cases to the empty string. |
| Text.Contains | src/components/History.tsx:145-146 | `s.includes(t)`: t is a prefix of s or of one of its suffixes; `Text.ContainsIff` states it as an occurrence. |
| Text.ContainsIff | src/components/History.tsx:145-146 | `includes` holds iff the term occurs at some index. |
| Text.IsWhitespace | src/components/Dashboard.tsx:86 | The characters `trim` removes: ECMAScript WhiteSpace and LineTerminator. |
| Text.TrimStart | src/components/Dashboard.tsx:86 | Drops a whitespace-only prefix, leaving a suffix that is empty or starts with a non-whitespace character. |
| Text.TrimEnd | src/components/Dashboard.tsx:86 | Drops a whitespace-only suffix, leaving a prefix that is empty or ends with a non-whitespace character. |
| Text.Trim | src/components/Dashboard.tsx:86 | `s.trim()`: TrimEnd after TrimStart; `Text.TrimEmptyIff` states when it is empty. |
| Text.TrimEmptyIff | src/components/Dashboard.tsx:86 | The trimmed input is empty iff every character is whitespace. |
| Text.IsBlank | src/components/Dashboard.tsx:86 | `!input.trim()` holds iff every character is whitespace. |
| Sequences.FilterSeq | src/components/History.tsx:141 | `filter` returns at most as many elements, each from the input and satisfying the predicate, and keeps every input element that satisfies it. |
| Sequences.FilterSeqSelectsPositions | src/components/History.tsx:141 | `filter` keeps exactly the positions whose element satisfies the predicate, in order. |
| Sequences.FilterSeqAgree | src/components/History.tsx:144-146 | Predicates that agree on every element filter alike. |
| Sequences.FilterSeqComplement | src/components/Dashboard.tsx:421-427 | Filters by a predicate and by its negation together count every element once. |
| Samples.ProductionRuns | src/components/History.tsx:27-124 | Filtering the sample history on "prod" lists run_006 only. |
| Samples.SampleSummary | src/components/History.tsx:27-124 | The unfiltered sample history shows 60 tests, 8 failures and an 84% average. |
| Samples.SampleProjects | src/components/History.tsx:159 | The sample history offers auth-service, user-dashboard and payment-api, in that order. |
| Samples.SampleTallies | src/components/Dashboard.tsx:78-83 | The sample results are 3 passed and 1 failed. |
| Samples.SampleResultBadges | src/components/Dashboard.tsx:78-83 | Login_EmptyCredentials shows "Fail" with its error. A name with no result shows "Not Run". |
| Samples.SampleSession | src/components/Dashboard.tsx:85-158 | A session from the first render: the placeholder link is replaced by the fixed description, four cases are generated, the run reports 3 of 4 passed with the bar going 0 to 100, and Postman export offers qa_autopilot_tests.json. |

## Left out

- Rendering, CSS classes, icons and toasts (including the delayed Slack toast)
  are presentation. They are not modelled.
- The header, settings and GitHub integration components have no logic
  beyond bound form fields and simulated network calls.
- The `setTimeout` delays. Each handler is one atomic step, and the views the
  page shows while a handler waits are returned as a list. Nothing can
  interleave with a handler: the model does not capture a second click (on
  Export, or on Generate while a run is in progress) landing while an earlier
  handler waits.
- Dashboard.Session.GenerateTests: the page substitutes a fixed description
  (`Dashboard.PullRequestDescription`, which `Samples.SampleSession` passes)
  for fetching a pull request. The model takes the fetched description as the
  parameter `fetched`. It likewise takes
  the generated cases, and `RunTests` takes the results, as parameters. The
  generator, the executor and the fetch are outside the page.
- The exported file's contents and the browser download. The contents are
  fixed text that ignores the test cases, and the download is browser I/O;
  only the refusal and the file name are modelled.
- Floating-point arithmetic. `Math.round(passed / total * 100)` is modelled as
  exact rational rounding, halves up. Binary floating point could round a
  value that should be exactly x.5 the other way.
- Text.LowerChar, Text.ToLower: they lower-case ASCII letters only.
  JavaScript's `toLowerCase` also maps non-ASCII letters (À to à), so a
  search that differs from a run only in the case of such letters matches
  there and not in the model.
- The per-run test details shown when a history run is expanded
  (`mockTestDetails`) are fixed display data and are not modelled.
- The status badge appears only once some result exists, and its colour is
  presentation. `Dashboard.DisplayedStatus` gives the badge's text.
- Samples.SampleCases: each sample case keeps only its first step.
- The history is listed in the order given. The page does not sort it, so the
  model does not sort either.
- Environments are plain strings, as in the pages.

## Findings

| source | as written | input that shows it | evidently intended | confidence | as-written member | corrected member |
|---|---|---|---|---|---|---|
| src/components/History.tsx:155-157 | `getSuccessRate` divides by `total` with no guard, and the average at lines 228-231 adds up its results | a run with `tests == 0` and `passed == 0`: `Math.round(0 / 0 * 100)` is NaN, so the row shows "NaN%"; and with that run listed the average is `Math.round(NaN / n)`, also NaN (Infinity when such a run has passes) | a run with no tests reports 0%, and the average stays a percentage | not executed | History.SuccessRateAsWritten (History.ZeroTestRunShowsNaN), History.AverageSuccessRateAsWritten (History.ZeroTestAverageShowsNaN) | History.SuccessRate (History.SuccessRateAgrees), History.AverageSuccessRate (History.AverageSuccessRateAgrees) |
