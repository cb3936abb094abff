/**
 * The Test History page: the list of past test runs, the three filters that
 * narrow it (environment, project, free-text search), the per-run success
 * rate, the summary figures over the filtered runs, the project choices and
 * the single expanded row.
 */
module History {
  import opened Wrappers
  import opened Text
  import opened Sequences

  /** One past test run as the page lists it. Counts are whole numbers of tests;
      dates, times, durations and triggers are display text. */
  datatype TestRun = TestRun(
    runId: string,
    date: string,
    time: string,
    tests: nat,
    passed: nat,
    failed: nat,
    environment: string,
    project: string,
    duration: string,
    trigger: string)

  /** The page's three filter controls: the environment and project selects
      (`"all"` or a value) and the search box. */
  datatype Filter = Filter(environment: string, project: string, search: string)

  /** The filters as the page first shows them. */
  const Unfiltered := Filter("all", "all", "")

  // ---------------------------------------------------------------------------
  // The filter predicate
  // ---------------------------------------------------------------------------

  predicate MatchesEnvironment(run: TestRun, f: Filter)
  {
    f.environment == "all" || run.environment == f.environment
  }

  predicate MatchesProject(run: TestRun, f: Filter)
  {
    f.project == "all" || run.project == f.project
  }

  /** An empty search matches every run; otherwise the lower-cased term must
      occur in the lower-cased run id or project. */
  predicate MatchesSearch(run: TestRun, f: Filter)
  {
    f.search == ""
    || Contains(ToLower(run.runId), ToLower(f.search))
    || Contains(ToLower(run.project), ToLower(f.search))
  }

  /** The three conditions, joined with "and". */
  predicate Matches(run: TestRun, f: Filter)
  {
    MatchesEnvironment(run, f) && MatchesProject(run, f) && MatchesSearch(run, f)
  }

  /** The runs the page lists: those of `history` that match `f`. */
  function Filtered(history: seq<TestRun>, f: Filter): (r: seq<TestRun>)
    ensures |r| <= |history|
    ensures forall run :: run in r <==> run in history && Matches(run, f)
  {
    FilterSeq(history, run => Matches(run, f))
  }

  /** The listed runs are an order-preserving subsequence of the history taken
      at exactly the positions whose run matches the filters. So the page's
      "N of M runs" always has N <= M. */
  lemma FilteredSelectsMatchingPositions(history: seq<TestRun>, f: Filter)
    ensures exists idx: seq<nat> ::
      && IsEmbedding(idx, Filtered(history, f), history)
      && (forall i :: 0 <= i < |history| ==> (i in idx <==> Matches(history[i], f)))
  {
    var keep := run => Matches(run, f);
    assert Filtered(history, f) == FilterSeq(history, keep);
    FilterSeqSelectsPositions(history, keep);
    var idx :| IsEmbedding(idx, FilterSeq(history, keep), history) && Selects(idx, history, keep);
    forall i | 0 <= i < |history| ensures i in idx <==> Matches(history[i], f) {
      assert keep(history[i]) == Matches(history[i], f);
    }
  }

  /** With every filter at its initial value the page lists the whole history
      unchanged. */
  lemma UnfilteredKeepsAll(history: seq<TestRun>)
    ensures Filtered(history, Unfiltered) == history
  {
    FilterSeqAll(history, run => Matches(run, Unfiltered));
  }

  /** The search is case-insensitive: two search terms with the same lower-case
      form list the same runs. */
  lemma SearchIgnoresCase(history: seq<TestRun>, environment: string, project: string,
                          search1: string, search2: string)
    requires ToLower(search1) == ToLower(search2)
    ensures Filtered(history, Filter(environment, project, search1))
         == Filtered(history, Filter(environment, project, search2))
  {
    ToLowerEmpty(search1);
    ToLowerEmpty(search2);
    FilterSeqAgree(history, run => Matches(run, Filter(environment, project, search1)),
                            run => Matches(run, Filter(environment, project, search2)));
  }

  /** A run matches a non-empty search exactly when the lower-cased term occurs
      somewhere in its lower-cased run id or project. */
  lemma SearchMatchIff(run: TestRun, f: Filter)
    requires f.search != ""
    ensures MatchesSearch(run, f) <==>
      (exists i :: OccursAt(ToLower(run.runId), ToLower(f.search), i))
      || (exists i :: OccursAt(ToLower(run.project), ToLower(f.search), i))
  {
    var id, project, term := ToLower(run.runId), ToLower(run.project), ToLower(f.search);
    ContainsIff(id, term);
    ContainsIff(project, term);
    if Contains(id, term) {
      var i :| OccursAt(id, term, i);
      assert OccursAt(ToLower(run.runId), ToLower(f.search), i);
    }
    if exists i :: OccursAt(ToLower(run.runId), ToLower(f.search), i) {
      var i :| OccursAt(ToLower(run.runId), ToLower(f.search), i);
      assert OccursAt(id, term, i);
    }
    if Contains(project, term) {
      var i :| OccursAt(project, term, i);
      assert OccursAt(ToLower(run.project), ToLower(f.search), i);
    }
    if exists i :: OccursAt(ToLower(run.project), ToLower(f.search), i) {
      var i :| OccursAt(ToLower(run.project), ToLower(f.search), i);
      assert OccursAt(project, term, i);
    }
  }

  // ---------------------------------------------------------------------------
  // Rounding and the success rate
  // ---------------------------------------------------------------------------

  /** `Math.round(n / d)` for a positive `d`, in exact arithmetic: the integer
      nearest to n/d, halves rounded up. */
  function RoundDiv(n: int, d: int): (r: int)
    requires d > 0
    ensures 2 * d * r <= 2 * n + d < 2 * d * (r + 1)
  {
    var q := (2 * n + d) / (2 * d);
    assert 2 * d * q <= 2 * n + d < 2 * d * q + 2 * d;
    q
  }

  /** Cancelling a positive factor on both sides of a strict inequality. */
  lemma CancelLess(c: int, x: int, y: int)
    requires c > 0
    ensures c * x < c * y ==> x < y
  {
  }

  /** If n/d lies in 0..hi, so does its rounded value. */
  lemma RoundDivBounds(n: int, d: int, hi: int)
    requires d > 0 && 0 <= n <= hi * d
    ensures 0 <= RoundDiv(n, d) <= hi
  {
    var r := RoundDiv(n, d);
    assert 2 * d * 0 < 2 * d * (r + 1);
    CancelLess(2 * d, 0, r + 1);
    assert 2 * d * r < 2 * d * (hi + 1);
    CancelLess(2 * d, r, hi + 1);
  }

  /** A JavaScript number as `Math.round` can leave it: a finite integer,
      `NaN` (from 0/0) or `Infinity` (from a positive count over zero). */
  datatype Rounded = Finite(value: int) | NaN | Infinity

  /** `getSuccessRate(passed, total)` as written: `Math.round(passed / total * 100)`
      with no guard, so a run with no tests yields `NaN` or `Infinity`. */
  function SuccessRateAsWritten(passed: nat, total: nat): (r: Rounded)
    ensures total > 0 <==> r.Finite?
    ensures total == 0 ==> (r == NaN <==> passed == 0)
  {
    if total == 0 then (if passed == 0 then NaN else Infinity)
    else Finite(RoundDiv(100 * passed, total))
  }

  /** A run that executed no tests shows "NaN%" on the page. */
  lemma ZeroTestRunShowsNaN()
    ensures SuccessRateAsWritten(0, 0) == NaN
  {
  }

  /** The success rate with the zero-test run guarded (a run with no tests
      reports 0%). Otherwise it is 100 * passed / total rounded to the nearest whole
      percent, halves up; it lies in 0..100 whenever passed <= total and is 100
      when every test passed (and, rounding up, also at 99.5% or more). */
  function SuccessRate(passed: nat, total: nat): (r: int)
    ensures total == 0 ==> r == 0
    ensures total > 0 ==> 2 * total * r <= 200 * passed + total < 2 * total * (r + 1)
    ensures passed <= total ==> 0 <= r <= 100
    ensures 0 < total == passed ==> r == 100
    ensures passed == 0 ==> r == 0
  {
    if total == 0 then 0
    else
      PercentBounds(passed, total);
      RoundDiv(100 * passed, total)
  }

  /** For a positive total the rounded percentage of passed tests is in 0..100,
      is 100 when every test passed and 0 when none did. */
  lemma PercentBounds(passed: nat, total: nat)
    requires total > 0
    ensures passed <= total ==> 0 <= RoundDiv(100 * passed, total) <= 100
    ensures passed == total ==> RoundDiv(100 * passed, total) == 100
    ensures passed == 0 ==> RoundDiv(100 * passed, total) == 0
  {
    var r := RoundDiv(100 * passed, total);
    if passed <= total {
      RoundDivBounds(100 * passed, total, 100);
    }
    if passed == total {
      assert 2 * total * 100 < 2 * total * (r + 1);
      CancelLess(2 * total, 100, r + 1);
    }
    if passed == 0 {
      assert 2 * total * r < 2 * total * 1;
      CancelLess(2 * total, r, 1);
    }
  }

  /** Wherever the source's expression is defined the corrected rate agrees
      with it. */
  lemma SuccessRateAgrees(passed: nat, total: nat)
    requires total > 0
    ensures SuccessRateAsWritten(passed, total) == Finite(SuccessRate(passed, total))
  {
  }

  /** The run `run_008` of the sample history: 3 of 4 tests passed, 75%. */
  lemma Run008SuccessRate()
    ensures SuccessRate(3, 4) == 75
  {
  }

  // ---------------------------------------------------------------------------
  // Sums over the filtered runs
  // ---------------------------------------------------------------------------

  /** `runs.reduce((acc, run) => acc + field(run), acc)`: a left fold. */
  function FoldSum(runs: seq<TestRun>, field: TestRun -> int, acc: int): int
    decreases |runs|
  {
    if runs == [] then acc else FoldSum(runs[1..], field, acc + field(runs[0]))
  }

  /** The plain sum of `field` over `runs`, the reference for the fold. */
  function Sum(runs: seq<TestRun>, field: TestRun -> int): int
    decreases |runs|
  {
    if runs == [] then 0 else field(runs[0]) + Sum(runs[1..], field)
  }

  /** The fold adds the sum of the runs to its starting value. */
  lemma {:induction false} FoldSumIsSum(runs: seq<TestRun>, field: TestRun -> int, acc: int)
    ensures FoldSum(runs, field, acc) == acc + Sum(runs, field)
    decreases |runs|
  {
    if runs != [] {
      FoldSumIsSum(runs[1..], field, acc + field(runs[0]));
    }
  }

  /** If each run contributes between lo and hi, the sum lies between
      lo * |runs| and hi * |runs|. */
  lemma {:induction false} SumBounds(runs: seq<TestRun>, field: TestRun -> int, lo: int, hi: int)
    requires forall i :: 0 <= i < |runs| ==> lo <= field(runs[i]) <= hi
    ensures lo * |runs| <= Sum(runs, field) <= hi * |runs|
    decreases |runs|
  {
    if runs != [] {
      SumBounds(runs[1..], field, lo, hi);
      assert lo * |runs| == lo + lo * (|runs| - 1);
      assert hi * |runs| == hi + hi * (|runs| - 1);
    }
  }

  /** `field` on the runs that match `f`, zero on the others. */
  function Masked(field: TestRun -> int, f: Filter): TestRun -> int
  {
    run => if Matches(run, f) then field(run) else 0
  }

  /** Summing over the filtered runs is summing over the whole history with
      every run that does not match counted as zero: the totals take in
      exactly the listed runs. */
  lemma {:induction false} SumOverFiltered(history: seq<TestRun>, f: Filter, field: TestRun -> int)
    ensures Sum(Filtered(history, f), field) == Sum(history, Masked(field, f))
    decreases |history|
  {
    if history != [] {
      SumOverFiltered(history[1..], f, field);
    }
  }

  /** If every run contributes at most as much to `small` as to `large`, so do
      the sums. */
  lemma {:induction false} SumMonotone(runs: seq<TestRun>, small: TestRun -> int, large: TestRun -> int)
    requires forall i :: 0 <= i < |runs| ==> small(runs[i]) <= large(runs[i])
    ensures Sum(runs, small) <= Sum(runs, large)
    decreases |runs|
  {
    if runs != [] {
      SumMonotone(runs[1..], small, large);
    }
  }

  function Tests(run: TestRun): int { run.tests }

  function Failures(run: TestRun): int { run.failed }

  function RunSuccessRate(run: TestRun): int { SuccessRate(run.passed, run.tests) }

  /** The "Total Tests" figure: the tests of the listed runs, added up. */
  function TotalTests(runs: seq<TestRun>): (n: int)
    ensures n == Sum(runs, Tests)
  {
    FoldSumIsSum(runs, Tests, 0);
    FoldSum(runs, Tests, 0)
  }

  /** The "Total Failures" figure: the failures of the listed runs, added up. */
  function TotalFailures(runs: seq<TestRun>): (n: int)
    ensures n == Sum(runs, Failures)
  {
    FoldSumIsSum(runs, Failures, 0);
    FoldSum(runs, Failures, 0)
  }

  /** The "Avg Success Rate" figure: the per-run rates added up and divided by
      the number of runs (by 1 for an empty list), rounded. */
  function AverageSuccessRate(runs: seq<TestRun>): (r: int)
    ensures runs == [] ==> r == 0
    ensures runs != [] ==>
      2 * |runs| * r <= 2 * Sum(runs, RunSuccessRate) + |runs| < 2 * |runs| * (r + 1)
  {
    FoldSumIsSum(runs, RunSuccessRate, 0);
    RoundDiv(FoldSum(runs, RunSuccessRate, 0), if |runs| == 0 then 1 else |runs|)
  }

  /** A run is consistent when it did not pass or fail more tests than it has. */
  predicate Consistent(run: TestRun)
  {
    run.passed <= run.tests && run.failed <= run.tests
  }

  /** When no run passed more tests than it has, the average success rate is
      a percentage. */
  lemma AverageSuccessRateBounds(runs: seq<TestRun>)
    requires forall i :: 0 <= i < |runs| ==> runs[i].passed <= runs[i].tests
    ensures 0 <= AverageSuccessRate(runs) <= 100
  {
    SumBounds(runs, RunSuccessRate, 0, 100);
    FoldSumIsSum(runs, RunSuccessRate, 0);
    RoundDivBounds(Sum(runs, RunSuccessRate), if |runs| == 0 then 1 else |runs|, 100);
  }

  /** When every listed run passed all of its (one or more) tests the average is
      100%. */
  lemma AllPassedAverage(runs: seq<TestRun>)
    requires runs != []
    requires forall i :: 0 <= i < |runs| ==> runs[i].passed == runs[i].tests > 0
    ensures AverageSuccessRate(runs) == 100
  {
    SumBounds(runs, RunSuccessRate, 100, 100);
    var n := |runs|;
    var r := AverageSuccessRate(runs);
    assert 2 * n * r < 2 * n * 101;
    CancelLess(2 * n, r, 101);
    assert 2 * n * 100 < 2 * n * (r + 1);
    CancelLess(2 * n, 100, r + 1);
  }

  /** JavaScript `+` on the values an unguarded success rate can take (counts
      are never negative, so no negative infinity arises): NaN absorbs every
      value, and Infinity absorbs every finite value. */
  function AddRounded(a: Rounded, b: Rounded): Rounded
  {
    if a == NaN || b == NaN then NaN
    else if a == Infinity || b == Infinity then Infinity
    else Finite(a.value + b.value)
  }

  /** The average's `reduce` over the unguarded per-run rates, from `acc`. */
  function FoldRatesAsWritten(runs: seq<TestRun>, acc: Rounded): Rounded
    decreases |runs|
  {
    if runs == [] then acc
    else FoldRatesAsWritten(runs[1..], AddRounded(acc, SuccessRateAsWritten(runs[0].passed, runs[0].tests)))
  }

  /** A run whose unguarded rate is 0/0. */
  predicate ZeroOverZero(run: TestRun)
  {
    run.tests == 0 && run.passed == 0
  }

  /** The fold is NaN iff it starts at NaN or meets a 0/0 run; it is Infinity
      iff it is not NaN and starts at Infinity or meets a run with no tests;
      over runs that all have tests it is the finite sum of the guarded
      rates. */
  lemma {:induction false} FoldRatesCases(runs: seq<TestRun>, acc: Rounded)
    ensures FoldRatesAsWritten(runs, acc) == NaN <==>
      acc == NaN || exists i :: 0 <= i < |runs| && ZeroOverZero(runs[i])
    ensures FoldRatesAsWritten(runs, acc) == Infinity <==>
      && acc != NaN
      && (forall i :: 0 <= i < |runs| ==> !ZeroOverZero(runs[i]))
      && (acc == Infinity || exists i :: 0 <= i < |runs| && runs[i].tests == 0)
    ensures acc.Finite? && (forall i :: 0 <= i < |runs| ==> runs[i].tests > 0) ==>
      FoldRatesAsWritten(runs, acc) == Finite(FoldSum(runs, RunSuccessRate, acc.value))
    decreases |runs|
  {
    if runs != [] {
      var run, rest := runs[0], runs[1..];
      var acc' := AddRounded(acc, SuccessRateAsWritten(run.passed, run.tests));
      FoldRatesCases(rest, acc');
      assert forall i :: 0 <= i < |rest| ==> rest[i] == runs[i + 1];
      if (exists i :: 0 <= i < |runs| && ZeroOverZero(runs[i])) && !ZeroOverZero(run) {
        var i :| 0 <= i < |runs| && ZeroOverZero(runs[i]);
        assert i != 0 && ZeroOverZero(rest[i - 1]);
      }
      if (exists i :: 0 <= i < |runs| && runs[i].tests == 0) && run.tests != 0 {
        var i :| 0 <= i < |runs| && runs[i].tests == 0;
        assert i != 0 && rest[i - 1].tests == 0;
      }
      if run.tests > 0 {
        SuccessRateAgrees(run.passed, run.tests);
      }
    }
  }

  /** The "Avg Success Rate" figure as written, with the unguarded per-run
      rate: NaN when a listed run has neither tests nor passes (0/0), otherwise
      Infinity when a listed run has no tests, and otherwise finite. Dividing
      and rounding keep NaN and Infinity. */
  function AverageSuccessRateAsWritten(runs: seq<TestRun>): (r: Rounded)
    ensures r == NaN <==> exists i :: 0 <= i < |runs| && ZeroOverZero(runs[i])
    ensures r == Infinity <==>
      && (forall i :: 0 <= i < |runs| ==> !ZeroOverZero(runs[i]))
      && (exists i :: 0 <= i < |runs| && runs[i].tests == 0)
    ensures r.Finite? <==> forall i :: 0 <= i < |runs| ==> runs[i].tests > 0
  {
    FoldRatesCases(runs, Finite(0));
    match FoldRatesAsWritten(runs, Finite(0))
    case Finite(sum) => Finite(RoundDiv(sum, if |runs| == 0 then 1 else |runs|))
    case NaN => NaN
    case Infinity => Infinity
  }

  /** A listed run that executed no tests turns the whole average into NaN. */
  lemma ZeroTestAverageShowsNaN(runs: seq<TestRun>, run: TestRun)
    requires run.tests == 0 && run.passed == 0
    ensures AverageSuccessRateAsWritten(runs + [run]) == NaN
  {
    assert (runs + [run])[|runs|] == run;
  }

  /** Wherever every listed run has tests, the guarded average equals the
      average as written. */
  lemma AverageSuccessRateAgrees(runs: seq<TestRun>)
    requires forall i :: 0 <= i < |runs| ==> runs[i].tests > 0
    ensures AverageSuccessRateAsWritten(runs) == Finite(AverageSuccessRate(runs))
  {
    FoldRatesCases(runs, Finite(0));
  }

  /** Over consistent runs the listed failures never exceed the listed tests,
      and the listed tests never exceed the tests of the whole history. */
  lemma TotalsBounds(history: seq<TestRun>, f: Filter)
    requires forall i :: 0 <= i < |history| ==> Consistent(history[i])
    ensures TotalFailures(Filtered(history, f)) <= TotalTests(Filtered(history, f))
    ensures TotalTests(Filtered(history, f)) <= TotalTests(history)
  {
    var listed := Filtered(history, f);
    assert forall i :: 0 <= i < |listed| ==> Consistent(listed[i]) by {
      forall i | 0 <= i < |listed| ensures Consistent(listed[i]) {
        assert listed[i] in history;
      }
    }
    SumMonotone(listed, Failures, Tests);
    SumOverFiltered(history, f, Tests);
    SumMonotone(history, Masked(Tests, f), Tests);
  }

  // ---------------------------------------------------------------------------
  // The project choices
  // ---------------------------------------------------------------------------

  /** Appends to `seen`, in order, each element of `s` not already there: what
      inserting `s` into a JavaScript `Set` holding `seen` leaves, read back in
      insertion order. */
  function AddDistinct(s: seq<string>, seen: seq<string>): (r: seq<string>)
    decreases |s|
  {
    if s == [] then seen
    else if s[0] in seen then AddDistinct(s[1..], seen)
    else AddDistinct(s[1..], seen + [s[0]])
  }

  predicate NoDuplicates(s: seq<string>)
  {
    forall i, j :: 0 <= i < j < |s| ==> s[i] != s[j]
  }

  /** `AddDistinct` keeps `seen` as its prefix, keeps it free of duplicates, and
      ends with exactly the elements of `seen` and `s`. */
  lemma {:induction false} AddDistinctSpec(s: seq<string>, seen: seq<string>)
    requires NoDuplicates(seen)
    ensures seen <= AddDistinct(s, seen)
    ensures NoDuplicates(AddDistinct(s, seen))
    ensures forall x :: x in AddDistinct(s, seen) <==> x in seen || x in s
    decreases |s|
  {
    if s != [] {
      if s[0] in seen {
        AddDistinctSpec(s[1..], seen);
      } else {
        AddDistinctSpec(s[1..], seen + [s[0]]);
      }
      assert s == [s[0]] + s[1..];
    }
  }

  /** Names already seen add nothing: `AddDistinct` is idempotent once every
      element of `s` is in `seen`. */
  lemma {:induction false} AddDistinctSeen(s: seq<string>, seen: seq<string>)
    requires forall i :: 0 <= i < |s| ==> s[i] in seen
    ensures AddDistinct(s, seen) == seen
    decreases |s|
  {
    if s != [] {
      AddDistinctSeen(s[1..], seen);
    }
  }

  /** The first position of `x` in `s`. */
  function FirstIndex(s: seq<string>, x: string): (k: nat)
    requires x in s
    ensures k < |s| && s[k] == x
    ensures forall j :: 0 <= j < k ==> s[j] != x
  {
    if s[0] == x then 0 else 1 + FirstIndex(s[1..], x)
  }

  /** Past a duplicate-free prefix, no element repeats one of the prefix. */
  lemma BeyondPrefix(r: seq<string>, seen: seq<string>, i: int)
    requires seen <= r && NoDuplicates(r) && |seen| <= i < |r|
    ensures r[i] !in seen
  {
    forall k | 0 <= k < |seen| ensures seen[k] != r[i] {
      assert seen[k] == r[k];
    }
  }

  /** The names `AddDistinct` appends after `seen` come from `s`, in the order
      of their first occurrence in `s`: the insertion order of a `Set`. */
  lemma {:induction false} AddDistinctOrder(s: seq<string>, seen: seq<string>)
    requires NoDuplicates(seen)
    ensures forall i :: |seen| <= i < |AddDistinct(s, seen)| ==> AddDistinct(s, seen)[i] in s
    ensures forall i, j :: |seen| <= i < j < |AddDistinct(s, seen)| ==>
      && AddDistinct(s, seen)[i] in s && AddDistinct(s, seen)[j] in s
      && FirstIndex(s, AddDistinct(s, seen)[i]) < FirstIndex(s, AddDistinct(s, seen)[j])
    decreases |s|
  {
    var r := AddDistinct(s, seen);
    AddDistinctSpec(s, seen);
    forall i | |seen| <= i < |r| ensures r[i] in s {
      BeyondPrefix(r, seen, i);
    }
    if s != [] {
      var x, rest := s[0], s[1..];
      if x in seen {
        AddDistinctOrder(rest, seen);
        forall i | |seen| <= i < |r| ensures r[i] != x && r[i] in rest {
          BeyondPrefix(r, seen, i);
          AddDistinctSpec(rest, seen);
        }
      } else {
        var seen' := seen + [x];
        assert NoDuplicates(seen');
        AddDistinctOrder(rest, seen');
        AddDistinctSpec(rest, seen');
        assert r[|seen|] == seen'[|seen|] == x;
        forall j | |seen'| <= j < |r| ensures r[j] != x && r[j] in rest {
          BeyondPrefix(r, seen', j);
        }
      }
    }
  }

  /** The project of each run, in history order. */
  function ProjectNames(history: seq<TestRun>): (names: seq<string>)
    ensures |names| == |history|
    ensures forall i :: 0 <= i < |history| ==> names[i] == history[i].project
  {
    if history == [] then [] else [history[0].project] + ProjectNames(history[1..])
  }

  /** The project select's choices: each project that occurs in the history,
      once, in order of first occurrence. */
  function Projects(history: seq<TestRun>): (ps: seq<string>)
    ensures NoDuplicates(ps)
    ensures forall p :: p in ps <==> exists run :: run in history && run.project == p
    ensures forall i, j :: 0 <= i < j < |ps| ==>
      && ps[i] in ProjectNames(history) && ps[j] in ProjectNames(history)
      && FirstIndex(ProjectNames(history), ps[i]) < FirstIndex(ProjectNames(history), ps[j])
  {
    var names := ProjectNames(history);
    AddDistinctSpec(names, []);
    AddDistinctOrder(names, []);
    forall p ensures p in names <==> exists run :: run in history && run.project == p {
      if p in names {
        var i :| 0 <= i < |names| && names[i] == p;
        assert history[i] in history;
      }
      if exists run :: run in history && run.project == p {
        var run :| run in history && run.project == p;
        var i :| 0 <= i < |history| && history[i] == run;
        assert names[i] == p;
      }
    }
    AddDistinct(names, [])
  }

  // ---------------------------------------------------------------------------
  // The expanded row
  // ---------------------------------------------------------------------------

  /** Clicking a run's row: it collapses if it was the expanded one, otherwise
      it becomes the only expanded run. */
  function ToggleExpanded(expanded: Option<string>, runId: string): (r: Option<string>)
    ensures r == None <==> expanded == Some(runId)
    ensures r != None ==> r == Some(runId)
  {
    if expanded == Some(runId) then None else Some(runId)
  }

  /** Clicking the same row twice restores the expanded row when it was none
      or that row, and otherwise leaves none expanded. */
  lemma ToggleExpandedTwice(expanded: Option<string>, runId: string)
    ensures expanded == None || expanded == Some(runId) ==>
      ToggleExpanded(ToggleExpanded(expanded, runId), runId) == expanded
    ensures expanded != None && expanded != Some(runId) ==>
      ToggleExpanded(ToggleExpanded(expanded, runId), runId) == None
  {
  }
}
