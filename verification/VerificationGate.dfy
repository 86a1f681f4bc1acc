/** The three verification stages of a proposed change (`VerificationGate.verify`). */
module VerificationGate {

  datatype Stage = Lint | TargetedTest | Regression

  datatype Verdict = Pass | Fail | Error | Skipped

  datatype StageResult = StageResult(stage: Stage, verdict: Verdict, duration: real)

  datatype Report = Report(stages: seq<StageResult>)
  {
    predicate Passed() {
      forall s :: s in stages ==> s.verdict == Pass || s.verdict == Skipped
    }
  }

  /** What the subprocesses would say if they are run, and whether there is anything to run. */
  datatype Runs = Runs(lint: Verdict, lintTime: real, hasTests: bool, tests: Verdict, testTime: real,
                       pytestAvailable: bool, regression: Verdict, regressionTime: real)

  predicate IsPython(file: string) {
    |file| >= 3 && file[|file| - 3..] == ".py"
  }

  /** A stage that would not be run is skipped, in no time. */
  function LintResult(files: seq<string>, runs: Runs): StageResult {
    if exists f :: f in files && IsPython(f) then StageResult(Lint, runs.lint, runs.lintTime) else StageResult(Lint, Skipped, 0.0)
  }

  function TestResult(runs: Runs): StageResult {
    if runs.hasTests then StageResult(TargetedTest, runs.tests, runs.testTime) else StageResult(TargetedTest, Skipped, 0.0)
  }

  function RegressionResult(files: seq<string>, runs: Runs): StageResult {
    if (exists f :: f in files && IsPython(f)) && runs.pytestAvailable
    then StageResult(Regression, runs.regression, runs.regressionTime) else StageResult(Regression, Skipped, 0.0)
  }

  /** The stages appear in order, each with its verdict, up to the first hard failure of the first two. */
  predicate IsReport(files: seq<string>, runs: Runs, stages: seq<StageResult>) {
    && 1 <= |stages| <= 3
    && stages[0] == LintResult(files, runs)
    && (|stages| == 1 <==> stages[0].verdict == Fail)
    && (|stages| > 1 ==> stages[1] == TestResult(runs))
    && (|stages| == 2 ==> stages[1].verdict == Fail)
    && (|stages| == 3 ==> stages[1].verdict != Fail && stages[2] == RegressionResult(files, runs))
  }

  method Verify(files: seq<string>, runs: Runs) returns (report: Report)
    ensures IsReport(files, runs, report.stages)
  {
    var stages: seq<StageResult> := [];
    var python := exists f :: f in files && IsPython(f);
    if python {
      stages := stages + [StageResult(Lint, runs.lint, runs.lintTime)];
      if runs.lint == Fail {
        return Report(stages);
      }
    } else {
      stages := stages + [StageResult(Lint, Skipped, 0.0)];
    }
    if runs.hasTests {
      stages := stages + [StageResult(TargetedTest, runs.tests, runs.testTime)];
      if runs.tests == Fail {
        return Report(stages);
      }
    } else {
      stages := stages + [StageResult(TargetedTest, Skipped, 0.0)];
    }
    if python && runs.pytestAvailable {
      stages := stages + [StageResult(Regression, runs.regression, runs.regressionTime)];
    } else {
      stages := stages + [StageResult(Regression, Skipped, 0.0)];
    }
    return Report(stages);
  }

  predicate WentWell(verdict: Verdict) {
    verdict == Pass || verdict == Skipped
  }

  /** A report passes exactly when each check that there was anything for came out well: lint if a Python
      file has changed, the tests that were found, and the regression run if a Python file has changed and
      pytest is there. An early stop is never mistaken for success. */
  lemma PassedExactlyWhenAllThreeDo(files: seq<string>, runs: Runs, report: Report)
    requires IsReport(files, runs, report.stages)
    ensures var python := exists f :: f in files && IsPython(f);
      report.Passed() <==>
        && (python ==> WentWell(runs.lint))
        && (runs.hasTests ==> WentWell(runs.tests))
        && (python && runs.pytestAvailable ==> WentWell(runs.regression))
    ensures report.Passed() ==> |report.stages| == 3
  {
    assert forall i :: 0 <= i < |report.stages| ==> report.stages[i] in report.stages;
  }

  /** The last stage listed is the first hard failure of the first two, if there is one, and each stage
      before it was not one. */
  lemma StopsAtFirstHardFailure(files: seq<string>, runs: Runs, report: Report)
    requires IsReport(files, runs, report.stages)
    ensures var python := exists f :: f in files && IsPython(f);
      |report.stages| == if python && runs.lint == Fail then 1 else if runs.hasTests && runs.tests == Fail then 2 else 3
    ensures forall i :: 0 <= i < |report.stages| ==> report.stages[i].stage == [Lint, TargetedTest, Regression][i]
    ensures forall i :: 0 <= i < |report.stages| - 1 ==> report.stages[i].verdict != Fail
  {
  }
}
