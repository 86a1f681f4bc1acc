/** Runs of the auto-dev pipeline on which a promise fails, for all policies and limits that let them
    start: the exact conditions of `AutoDevPromises` are not vacuous. */
module AutoDevWitnesses {
  import opened Common
  import SM = SelfModifier
  import VG = VerificationGate
  import RR = ResidualRisk
  import AQ = ApprovalQueue
  import RB = RateBudget
  import SW = SandboxWorktree
  import WD = WorktreeDiff
  import opened AutoDevSpec
  import opened AutoDevSafety
  import opened AutoDevPromises

  // ----- reaching worlds step by step

  lemma StartIsReached(b: SM.Boundaries, limits: RB.Limits)
    ensures Reached(Start(0, false), b, limits)
  {
    assert LeadsTo(b, limits, 0, false, [], Start(0, false));
  }

  lemma {:induction false} AllowedRunLast(w: World, b: SM.Boundaries, limits: RB.Limits, events: seq<Event>, e: Event)
    requires AllowedRun(w, b, limits, events) && Allowed(RunAll(w, limits, events), b, e)
    ensures AllowedRun(w, b, limits, events + [e])
    decreases |events|
  {
    if events == [] {
      assert events + [e] == [e] && [e][1..] == [];
      assert AllowedRun(After(w, limits, e), b, limits, []);
    } else {
      assert (events + [e])[0] == events[0] && (events + [e])[1..] == events[1..] + [e];
      AllowedRunLast(After(w, limits, events[0]), b, limits, events[1..], e);
    }
  }

  lemma StepIsReached(w: World, b: SM.Boundaries, limits: RB.Limits, e: Event)
    requires Reached(w, b, limits) && Allowed(w, b, e)
    ensures Reached(After(w, limits, e), b, limits)
  {
    var today, halted, events :| LeadsTo(b, limits, today, halted, events, w);
    AllowedRunLast(Start(today, halted), b, limits, events, e);
    RunAllLast(Start(today, halted), limits, events, e);
    assert LeadsTo(b, limits, today, halted, events + [e], After(w, limits, e));
  }

  // ----- one build that goes well with nothing captured

  function MadeAssessment(b: SM.Boundaries, lines: int): RR.Assessment {
    var score := RR.Clamp(RR.RawScore(b, false, [], lines));
    RR.Assessment(score, RR.LevelOf(score), RR.RecommendationOf(RR.LevelOf(score)),
                  RR.Listing(RR.ProfileOf(b, false, [], lines), |RR.CATEGORIES|))
  }

  /** With nothing captured only the size of the diff counts. */
  lemma NothingCapturedScores(b: SM.Boundaries, lines: int)
    ensures RR.IsAssessment(b, false, [], lines, MadeAssessment(b, lines))
    ensures MadeAssessment(b, lines).level == if lines > RR.LARGE_DIFF_THRESHOLD_LINES then RR.Medium else RR.Low
    ensures MadeAssessment(b, lines).recommendation != RR.Reject
  {
    RR.PointsAreRawScore(b, false, [], lines);
    RR.ListingWeighs(RR.ProfileOf(b, false, [], lines), |RR.CATEGORIES|);
    assert RR.PathsOf(b, [], SM.Immutable) == {} && RR.PathsOf(b, [], SM.HumanReviewRequired) == {};
    assert RR.PathsOf(b, [], SM.Unknown) == {};
  }

  function AllSkipped(): VG.Report {
    VG.Report([VG.StageResult(VG.Lint, VG.Skipped, 0.0), VG.StageResult(VG.TargetedTest, VG.Skipped, 0.0),
               VG.StageResult(VG.Regression, VG.Skipped, 0.0)])
  }

  function SampleBuild(b: SM.Boundaries, lines: int, changes: seq<WD.Change>): Build {
    Build(true, true, changes, true, Some(AllSkipped()), Some(MadeAssessment(b, lines)), 0)
  }

  /** The desk of a new run before its decision. */
  function SampleVerified(d: Desk, id: string, b: SM.Boundaries, lines: int, changes: seq<WD.Change>): Desk {
    var run := Moved(Moved(d.run, Building).(hasWorktree := true, changes := changes, files := []), Verifying);
    d.(run := run.(report := Some(AllSkipped()), risk := Some(MadeAssessment(b, lines))),
       worktrees := d.worktrees[id := SW.Handle(SW.BranchOf(id), [], false, false, [])])
  }

  lemma SampleIsVerified(d: Desk, id: string, b: SM.Boundaries, lines: int, changes: seq<WD.Change>)
    requires id !in d.worktrees && WD.FilesOf(WD.DiffLines(changes)) == []
    ensures var build := SampleBuild(b, lines, changes);
      && Built(d, id, true, true, changes, Some(WD.DiffLines(changes))).1
      && Verified(Built(d, id, true, true, changes, Some(WD.DiffLines(changes))).0, id, build.report, build.risk)
         == (SampleVerified(d, id, b, lines, changes), true)
  {
    var handle := SW.Handle(SW.BranchOf(id), [], false, false, []);
    assert d.worktrees[id := handle][id := handle.(files := [])] == d.worktrees[id := handle];
  }

  /** What a sample build leaves: low risk is approved at once, a large diff awaits an answer. */
  ghost predicate SampleRunIn(w: World, id: string, b: SM.Boundaries, lines: int, changes: seq<WD.Change>) {
    && id in w.runs && ApprovalId(id) in w.queue
    && w.runs[id].files == [] && w.runs[id].changes == changes && w.runs[id].risk == Some(MadeAssessment(b, lines))
    && At(w.worktrees, id) == Some(SW.Handle(SW.BranchOf(id), [], false, false, []))
    && w.queue[ApprovalId(id)].expiresAt == 0
    && (if lines > RR.LARGE_DIFF_THRESHOLD_LINES
        then w.runs[id].state == AwaitingApproval && w.queue[ApprovalId(id)].state == AQ.Pending
        else w.runs[id].state == Approved && w.queue[ApprovalId(id)].state == AQ.AutoApproved)
  }

  lemma SampleBuildIn(w: World, b: SM.Boundaries, limits: RB.Limits, id: string, lines: int, changes: seq<WD.Change>)
    requires id in w.runs && w.runs[id] == NewRun(lines) && !w.halted && WD.FilesOf(WD.DiffLines(changes)) == []
    requires id !in w.worktrees && ApprovalId(id) !in w.queue
    requires lines > RR.LARGE_DIFF_THRESHOLD_LINES ==> RB.Available(w.budget, limits, RB.MediumPlus, 0)
    ensures var h := After(w, limits, Execute(id, SampleBuild(b, lines, changes), 0));
      && SampleRunIn(h, id, b, lines, changes) && !h.halted && h.runs.Keys == w.runs.Keys
      && (lines <= RR.LARGE_DIFF_THRESHOLD_LINES ==> h.budget == w.budget)
  {
    SampleIsVerified(DeskOf(w, id), id, b, lines, changes);
    NothingCapturedScores(b, lines);
  }

  lemma FreshIdIsFree(w: World, b: SM.Boundaries, limits: RB.Limits, id: string)
    requires Reached(w, b, limits) && id !in w.runs
    ensures id !in w.worktrees && ApprovalId(id) !in w.queue
  {
    ReachedIsGood(w, b, limits);
    assert At(w.queue, ApprovalId(id)) == None && At(w.worktrees, id) == None;
  }

  lemma SampleProposal(w: World, b: SM.Boundaries, limits: RB.Limits, id: string, lines: int) returns (h: World)
    requires Reached(w, b, limits) && !w.halted && id !in w.runs && w.budget.date == 0 && w.budget.runs < limits.runs
    ensures Reached(h, b, limits)
    ensures h == w.(runs := w.runs[id := NewRun(lines)], budget := w.budget.(runs := w.budget.runs + 1))
    ensures id !in h.worktrees && ApprovalId(id) !in h.queue
  {
    FreshIdIsFree(w, b, limits, id);
    StepIsReached(w, b, limits, Propose(id, false, lines, 0));
    h := After(w, limits, Propose(id, false, lines, 0));
  }

  lemma SampleBuildIsAllowed(w: World, b: SM.Boundaries, id: string, lines: int, changes: seq<WD.Change>)
    requires id in w.runs && w.runs[id].diffLines == lines && WD.FilesOf(WD.DiffLines(changes)) == []
    ensures Allowed(w, b, Execute(id, SampleBuild(b, lines, changes), 0))
  {
    NothingCapturedScores(b, lines);
  }

  /** From any reached world with budget left, a proposal and its sample build. */
  lemma SampleRun(w: World, b: SM.Boundaries, limits: RB.Limits, id: string, lines: int, changes: seq<WD.Change>) returns (h: World)
    requires Reached(w, b, limits) && !w.halted && id !in w.runs && w.budget.date == 0
    requires w.budget.runs < limits.runs && WD.FilesOf(WD.DiffLines(changes)) == []
    requires lines > RR.LARGE_DIFF_THRESHOLD_LINES ==> w.budget.mediumPlus < limits.mediumPlus
    ensures Reached(h, b, limits) && !h.halted && h.runs.Keys == w.runs.Keys + {id}
    ensures SampleRunIn(h, id, b, lines, changes)
    ensures lines <= RR.LARGE_DIFF_THRESHOLD_LINES ==> h.budget == w.budget.(runs := w.budget.runs + 1)
  {
    var proposed := SampleProposal(w, b, limits, id, lines);
    SampleBuildIsAllowed(proposed, b, id, lines, changes);
    SampleBuildIn(proposed, b, limits, id, lines, changes);
    StepIsReached(proposed, b, limits, Execute(id, SampleBuild(b, lines, changes), 0));
    h := After(proposed, limits, Execute(id, SampleBuild(b, lines, changes), 0));
  }

  /** And its merge, when the build was approved at once. */
  lemma SampleMerge(w: World, b: SM.Boundaries, limits: RB.Limits, id: string, lines: int, changes: seq<WD.Change>)
    requires lines <= RR.LARGE_DIFF_THRESHOLD_LINES
    requires Reached(w, b, limits) && SampleRunIn(w, id, b, lines, changes) && !w.halted && w.budget.date == 0
    ensures var h := After(w, limits, FinalizeMerge(id, 0));
      && Reached(h, b, limits) && !h.halted && h.runs.Keys == w.runs.Keys && h.runs[id].state == Merged
      && h.budget == w.budget.(lowRiskMerges := w.budget.lowRiskMerges + 1)
  {
    NothingCapturedScores(b, lines);
    StepIsReached(w, b, limits, FinalizeMerge(id, 0));
    LowMergeGoesThrough(w, limits, FinalizeMerge(id, 0));
  }

  // ----- the runs

  /** A run waits on a request that has timed out. */
  lemma TimedOutWaitIsReached(b: SM.Boundaries, limits: RB.Limits, id: string, lines: int, c: WD.Change) returns (w: World)
    requires limits.runs >= 1 && limits.mediumPlus >= 1 && lines > RR.LARGE_DIFF_THRESHOLD_LINES && WD.Silent(c)
    ensures Reached(w, b, limits) && id in w.runs && w.runs[id].state == AwaitingApproval
    ensures ApprovalId(id) in w.queue && w.queue[ApprovalId(id)].state == AQ.TimedOut
  {
    StartIsReached(b, limits);
    WD.SilentIsNotCaptured(c);
    var waiting := SampleRun(Start(0, false), b, limits, id, lines, [c]);
    StepIsReached(waiting, b, limits, ExpireApprovals(0));
    w := After(waiting, limits, ExpireApprovals(0));
  }

  /** The kill switch is active, and yet an answer moves a run to APPROVED. */
  lemma HaltedRunIsApproved(b: SM.Boundaries, limits: RB.Limits, id: string, lines: int, c: WD.Change) returns (w: World)
    requires limits.runs >= 1 && limits.mediumPlus >= 1 && lines > RR.LARGE_DIFF_THRESHOLD_LINES && WD.Silent(c)
    ensures Reached(w, b, limits) && w.halted && id in w.runs && w.runs[id].state == AwaitingApproval
    ensures id in After(w, limits, Resolve(id, true)).runs && After(w, limits, Resolve(id, true)).runs[id].state == Approved
  {
    StartIsReached(b, limits);
    WD.SilentIsNotCaptured(c);
    var waiting := SampleRun(Start(0, false), b, limits, id, lines, [c]);
    StepIsReached(waiting, b, limits, SetHalt(true));
    w := After(waiting, limits, SetHalt(true));
    ReachedIsGood(w, b, limits);
    assert DeskOk(b, limits, id, DeskOf(w, id));
    AnswerIsTakenExactlyWhenPending(w, b, limits, id, true);
    AnswerMoves(w, id, true);
  }

  lemma KilledAtMerge(w: World, limits: RB.Limits, id: string)
    requires id in w.runs
    ensures var h := After(After(w, limits, SetHalt(true)), limits, FinalizeMerge(id, 0));
      id in h.runs && h.runs[id].state == Cancelled && h.worktrees == w.worktrees
  {
  }

  /** A merged run becomes CANCELLED. */
  lemma MergedRunIsCancelled(b: SM.Boundaries, limits: RB.Limits, id: string, lines: int, c: WD.Change) returns (w: World)
    requires limits.runs >= 1 && lines <= RR.LARGE_DIFF_THRESHOLD_LINES && WD.Silent(c)
    ensures Reached(w, b, limits) && id in w.runs && w.runs[id].state == Merged
    ensures var h := After(w, limits, SetHalt(true));
      id in After(h, limits, FinalizeMerge(id, 0)).runs && After(h, limits, FinalizeMerge(id, 0)).runs[id].state == Cancelled
  {
    StartIsReached(b, limits);
    WD.SilentIsNotCaptured(c);
    var approved := SampleRun(Start(0, false), b, limits, id, lines, [c]);
    SampleMerge(approved, b, limits, id, lines, [c]);
    w := After(approved, limits, FinalizeMerge(id, 0));
    KilledAtMerge(w, limits, id);
  }

  /** A cancelled run still holds its live worktree. */
  lemma CancelledRunHoldsWorktree(b: SM.Boundaries, limits: RB.Limits, id: string, lines: int, c: WD.Change) returns (w: World)
    requires limits.runs >= 1 && lines <= RR.LARGE_DIFF_THRESHOLD_LINES && WD.Silent(c)
    ensures Reached(w, b, limits) && id in w.runs && w.runs[id].state == Cancelled
    ensures id in w.worktrees && !w.worktrees[id].cleanedUp
  {
    StartIsReached(b, limits);
    WD.SilentIsNotCaptured(c);
    var approved := SampleRun(Start(0, false), b, limits, id, lines, [c]);
    StepIsReached(approved, b, limits, SetHalt(true));
    var halted := After(approved, limits, SetHalt(true));
    StepIsReached(halted, b, limits, FinalizeMerge(id, 0));
    w := After(halted, limits, FinalizeMerge(id, 0));
  }

  /** A change that is not shown is approved without a human when the diff is small, also when it is to
      an immutable path: creating a file there, deleting an empty one, changing a mode, a binary patch,
      a name git quotes. */
  lemma UnshownImmutableIsApproved(b: SM.Boundaries, limits: RB.Limits, id: string, lines: int, c: WD.Change) returns (w: World)
    requires limits.runs >= 1 && lines <= RR.LARGE_DIFF_THRESHOLD_LINES && WD.Silent(c) && HitsImmutable(b, c)
    ensures Reached(w, b, limits) && id in w.runs && w.runs[id].state == Approved && w.runs[id].changes == [c]
    ensures ApprovalId(id) in w.queue && w.queue[ApprovalId(id)].state == AQ.AutoApproved
  {
    StartIsReached(b, limits);
    WD.SilentIsNotCaptured(c);
    w := SampleRun(Start(0, false), b, limits, id, lines, [c]);
  }

  // ----- more low-risk merges than the cap

  /** The id of the `n`-th run. */
  function Nth(n: nat): (id: string)
    ensures |id| == n
  {
    seq(n, _ => 'x')
  }

  /** `n` low-risk runs have been proposed, built and merged on day 0. */
  ghost predicate HasMerged(w: World, b: SM.Boundaries, limits: RB.Limits, n: nat) {
    && Reached(w, b, limits) && !w.halted && w.budget == RB.Usage(0, n, n, 0)
    && forall id :: id in w.runs ==> |id| < n
  }

  lemma OneMoreLowMerge(w: World, b: SM.Boundaries, limits: RB.Limits, lines: int, c: WD.Change, n: nat) returns (h: World)
    requires HasMerged(w, b, limits, n) && n < limits.runs && lines <= RR.LARGE_DIFF_THRESHOLD_LINES && WD.Silent(c)
    ensures HasMerged(h, b, limits, n + 1)
  {
    WD.SilentIsNotCaptured(c);
    assert Nth(n) !in w.runs;
    var approved := SampleRun(w, b, limits, Nth(n), lines, [c]);
    SampleMerge(approved, b, limits, Nth(n), lines, [c]);
    h := After(approved, limits, FinalizeMerge(Nth(n), 0));
  }

  lemma {:induction false} ManyLowMerges(b: SM.Boundaries, limits: RB.Limits, lines: int, c: WD.Change, n: nat) returns (w: World)
    requires n <= limits.runs && lines <= RR.LARGE_DIFF_THRESHOLD_LINES && WD.Silent(c)
    ensures HasMerged(w, b, limits, n)
  {
    if n == 0 {
      StartIsReached(b, limits);
      w := Start(0, false);
    } else {
      w := ManyLowMerges(b, limits, lines, c, n - 1);
      w := OneMoreLowMerge(w, b, limits, lines, c, n - 1);
    }
  }

  /** With more runs a day than low-risk merges, the cap on the merges is exceeded on one day. */
  lemma LowMergeCapIsExceeded(b: SM.Boundaries, limits: RB.Limits, lines: int, c: WD.Change) returns (w: World)
    requires 0 <= limits.lowRiskMerges < limits.runs && lines <= RR.LARGE_DIFF_THRESHOLD_LINES && WD.Silent(c)
    ensures Reached(w, b, limits) && w.budget.lowRiskMerges == limits.lowRiskMerges + 1
  {
    w := ManyLowMerges(b, limits, lines, c, limits.lowRiskMerges + 1);
  }
}
