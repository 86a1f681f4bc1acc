/** What every run of the auto-dev pipeline keeps. */
module AutoDevSafety {
  import opened Common
  import SM = SelfModifier
  import RR = ResidualRisk
  import AQ = ApprovalQueue
  import RB = RateBudget
  import SW = SandboxWorktree
  import WD = WorktreeDiff
  import opened AutoDevSpec

  // ----- transition logs

  /** The edges a log may have after its first entry. Out of a terminal state leads only the kill
      switch, and only to CANCELLED. */
  predicate Permitted(t: Transition) {
    if t.byKillSwitch then t.to == Cancelled
    else if t.to == Cancelled then !IsTerminal(t.from)
    else match t.from
      case Proposed => t.to == Building
      case Building => t.to == Verifying || t.to == Failed
      case Verifying => t.to == Failed || t.to == Rejected || t.to == Approved || t.to == AwaitingApproval
      case AwaitingApproval => t.to == Approved || t.to == Rejected
      case Approved => t.to == Merging
      case Merging => t.to == Merged
      case _ => false
  }

  /** The entries not written by the kill switch. */
  function Own(log: seq<Transition>): nat {
    if log == [] then 0
    else Own(log[..|log| - 1]) + if log[|log| - 1].byKillSwitch then 0 else 1
  }

  /** How many own entries a run can have when it stands in a state. */
  function Bound(s: RunState): nat {
    match s
    case Proposed => 1
    case Building => 2
    case Verifying => 3
    case AwaitingApproval => 4
    case Approved => 5
    case Merging => 6
    case Merged => 7
    case Failed => 4
    case Rejected => 5
    case Cancelled => 7
  }

  /** A connected path of permitted edges from the submission to a state. */
  predicate IsPath(log: seq<Transition>, to: RunState)
    decreases |log|
  {
    && log != []
    && log[|log| - 1].to == to
    && (if |log| == 1 then log[0] == Transition(Proposed, Proposed, false)
        else Permitted(log[|log| - 1]) && IsPath(log[..|log| - 1], log[|log| - 1].from))
  }

  /** The kill switch hit the run while its worktree was waiting for the merge. */
  predicate KilledInFlight(log: seq<Transition>)
    decreases |log|
  {
    log != [] && (
      (log[|log| - 1].byKillSwitch && (log[|log| - 1].from == AwaitingApproval || log[|log| - 1].from == Approved))
      || KilledInFlight(log[..|log| - 1]))
  }

  /** The log leads to where the run is, and apart from kill-switch entries its length is bounded. */
  predicate LogOk(run: Run) {
    && IsPath(run.transitions, run.state)
    && Own(run.transitions) <= Bound(run.state)
    && (run.state != Cancelled ==> !KilledInFlight(run.transitions))
  }

  lemma MovedKeepsLog(run: Run, to: RunState)
    requires LogOk(run) && Permitted(Transition(run.state, to, false)) && Bound(run.state) < Bound(to)
    ensures LogOk(Moved(run, to)) && (KilledInFlight(Moved(run, to).transitions) <==> KilledInFlight(run.transitions))
  {
    var log := Moved(run, to).transitions;
    assert log[..|log| - 1] == run.transitions;
  }

  lemma KilledKeepsLog(run: Run)
    requires LogOk(run)
    ensures LogOk(Killed(run))
    ensures KilledInFlight(Killed(run).transitions)
       <==> run.state == AwaitingApproval || run.state == Approved || KilledInFlight(run.transitions)
  {
    var log := Killed(run).transitions;
    assert log[..|log| - 1] == run.transitions;
  }

  // ----- one run

  function At<K, V>(m: map<K, V>, k: K): Option<V> {
    if k in m then Some(m[k]) else None
  }

  /** The files are those read out of the diff of the worktree. */
  predicate CapturedOk(run: Run) {
    run.files == WD.FilesOf(WD.DiffLines(run.changes))
  }

  /** The run has been verified, assessed and let through, and its request says the same. */
  predicate Vetted(b: SM.Boundaries, run: Run, request: Option<AQ.Request>) {
    && CapturedOk(run) && run.report.Some? && run.report.value.Passed()
    && run.risk.Some? && RR.IsAssessment(b, false, run.files, run.diffLines, run.risk.value)
    && run.risk.value.recommendation != RR.Reject
    && request.Some? && request.value.level == run.risk.value.level
  }

  /** Approved by a human, or automatically and then at low risk. */
  predicate Approves(r: AQ.Request) {
    r.state == AQ.Approved || (r.state == AQ.AutoApproved && r.level == RR.Low)
  }

  predicate WorktreeOk(id: string, run: Run, handle: Option<SW.Handle>) {
    && (run.hasWorktree <==> handle.Some?)
    && (run.state == Proposed ==> handle.None?)
    && (run.state == Failed || run.state == Rejected ==> handle.Some? ==> handle.value.cleanedUp && handle.value.branchDeleted)
    && (run.state == Cancelled ==> (handle.Some? && !handle.value.cleanedUp <==> KilledInFlight(run.transitions)))
    && (run.state == AwaitingApproval || run.state == Approved ==>
          handle == Some(SW.Handle(SW.BranchOf(id), run.files, false, false, [])))
    && (run.state == Merged ==>
          handle == Some(SW.Handle(SW.BranchOf(id), run.files, true, false, [])) && run.mergeBranch == Some(SW.BranchOf(id)))
  }

  predicate ApprovalOk(b: SM.Boundaries, id: string, run: Run, request: Option<AQ.Request>) {
    && run.approvalId == (if request.Some? then Some(ApprovalId(id)) else None)
    && (request.Some? ==> request.value.runId == id)
    && (run.state == Proposed ==> request.None?)
    && (run.state == AwaitingApproval ==>
          Vetted(b, run, request) && (request.value.state == AQ.Pending || request.value.state == AQ.TimedOut))
    && (run.state == Approved || run.state == Merged ==> Vetted(b, run, request) && Approves(request.value))
  }

  predicate RunOk(b: SM.Boundaries, id: string, run: Run, request: Option<AQ.Request>, handle: Option<SW.Handle>) {
    && run.state != Building && run.state != Verifying && run.state != Merging
    && LogOk(run)
    && WorktreeOk(id, run, handle)
    && ApprovalOk(b, id, run, request)
  }

  // ----- the world

  ghost predicate RunsOk(b: SM.Boundaries, runs: map<string, Run>, queue: AQ.Queue, worktrees: SW.Handles) {
    && (forall id :: id in runs ==> RunOk(b, id, runs[id], At(queue, ApprovalId(id)), At(worktrees, id)))
    && (forall id :: id !in runs ==> At(queue, ApprovalId(id)) == None && At(worktrees, id) == None)
  }

  ghost predicate Good(w: World, b: SM.Boundaries, limits: RB.Limits) {
    RunsOk(b, w.runs, w.queue, w.worktrees) && BudgetOk(w.budget, limits)
  }

  /** Calls one at a time never pass the daily caps on runs and on medium and higher proposals. */
  predicate BudgetOk(u: RB.Usage, limits: RB.Limits) {
    (u.runs > 0 ==> u.runs <= limits.runs) && (u.mediumPlus > 0 ==> u.mediumPlus <= limits.mediumPlus)
  }

  ghost predicate DeskOk(b: SM.Boundaries, limits: RB.Limits, id: string, d: Desk) {
    RunOk(b, id, d.run, At(d.queue, ApprovalId(id)), At(d.worktrees, id)) && BudgetOk(d.budget, limits)
  }

  /** A step on the desk of one run leaves the requests and worktrees of the others alone. */
  ghost predicate OnlyTouches(id: string, before: Desk, after: Desk) {
    && (forall q :: q != ApprovalId(id) ==> At(after.queue, q) == At(before.queue, q))
    && (forall i :: i != id ==> At(after.worktrees, i) == At(before.worktrees, i))
  }

  lemma DeskStepKeepsGood(w: World, b: SM.Boundaries, limits: RB.Limits, id: string, d: Desk)
    requires RunsOk(b, w.runs, w.queue, w.worktrees)
    requires DeskOk(b, limits, id, d) && OnlyTouches(id, d.(queue := w.queue, worktrees := w.worktrees), d)
    ensures Good(Back(w, id, d), b, limits)
  {
    forall i | i != id
      ensures At(d.queue, ApprovalId(i)) == At(w.queue, ApprovalId(i)) && At(d.worktrees, i) == At(w.worktrees, i)
    {
      assert ApprovalId(i)[5..] == i && ApprovalId(id)[5..] == id;
    }
    var h := Back(w, id, d);
    forall i | i in h.runs
      ensures RunOk(b, i, h.runs[i], At(h.queue, ApprovalId(i)), At(h.worktrees, i))
    {
      if i != id {
        assert RunOk(b, i, w.runs[i], At(w.queue, ApprovalId(i)), At(w.worktrees, i));
      }
    }
  }

  // ----- execute_build_and_verify

  /** A run on its way from the worktree to the decision. */
  ghost predicate Underway(id: string, d: Desk) {
    && d.run.state == Verifying && LogOk(d.run) && CapturedOk(d.run)
    && d.run.hasWorktree && At(d.worktrees, id) == Some(SW.Handle(SW.BranchOf(id), d.run.files, false, false, []))
    && d.run.approvalId == None && ApprovalId(id) !in d.queue
  }

  /** Dropping a run with a worktree ends it with the worktree cleaned up. */
  lemma DroppedIsOk(b: SM.Boundaries, limits: RB.Limits, id: string, d: Desk, to: RunState)
    requires LogOk(d.run) && d.run.hasWorktree && id in d.worktrees && !d.worktrees[id].cleanedUp
    requires d.run.state == Building || d.run.state == Verifying || d.run.state == AwaitingApproval
    requires to == Failed || to == Rejected
    requires Permitted(Transition(d.run.state, to, false)) && Bound(d.run.state) < Bound(to)
    requires d.run.approvalId == if ApprovalId(id) in d.queue then Some(ApprovalId(id)) else None
    requires ApprovalId(id) in d.queue ==> d.queue[ApprovalId(id)].runId == id
    requires BudgetOk(d.budget, limits)
    ensures DeskOk(b, limits, id, Dropped(d, id, to)) && OnlyTouches(id, d, Dropped(d, id, to))
  {
    MovedKeepsLog(d.run, to);
  }

  /** The desk once the worktree exists. */
  function WithWorktree(d: Desk, id: string): Desk {
    d.(run := Moved(d.run, Building).(hasWorktree := true),
       worktrees := d.worktrees[id := SW.Handle(SW.BranchOf(id), [], false, false, [])])
  }

  lemma CapturedIsUnderway(b: SM.Boundaries, limits: RB.Limits, id: string, d: Desk, changes: seq<WD.Change>)
    requires DeskOk(b, limits, id, d) && d.run.state == Proposed
    ensures var d2 := WithWorktree(d, id); var captured := SW.Captured(d2.worktrees, id, Some(WD.DiffLines(changes)));
      captured.Ok? && captured.value[id].files == WD.FilesOf(WD.DiffLines(changes))
      && Underway(id, d2.(run := Moved(d2.run.(changes := changes, files := captured.value[id].files), Verifying), worktrees := captured.value))
  {
    var files := WD.FilesOf(WD.DiffLines(changes));
    MovedKeepsLog(d.run, Building);
    MovedKeepsLog(Moved(d.run, Building).(hasWorktree := true, changes := changes, files := files), Verifying);
  }

  lemma UnbuiltIsOk(b: SM.Boundaries, limits: RB.Limits, id: string, d: Desk, changes: seq<WD.Change>)
    requires DeskOk(b, limits, id, d) && d.run.state == Proposed
    ensures DeskOk(b, limits, id, d.(run := Moved(Moved(d.run, Building), Failed)))
    ensures DeskOk(b, limits, id, Dropped(WithWorktree(d, id), id, Failed)) && OnlyTouches(id, d, Dropped(WithWorktree(d, id), id, Failed))
    ensures var applied := WithWorktree(d, id).(run := WithWorktree(d, id).run.(changes := changes));
      DeskOk(b, limits, id, Dropped(applied, id, Failed)) && OnlyTouches(id, d, Dropped(applied, id, Failed))
  {
    MovedKeepsLog(d.run, Building);
    MovedKeepsLog(Moved(d.run, Building), Failed);
    DroppedIsOk(b, limits, id, WithWorktree(d, id), Failed);
    DroppedIsOk(b, limits, id, WithWorktree(d, id).(run := WithWorktree(d, id).run.(changes := changes)), Failed);
  }

  predicate BuildsWell(build: Build) {
    build.worktreeOk && build.applyOk && build.diffOk
  }

  lemma BuiltWellIsOk(b: SM.Boundaries, limits: RB.Limits, id: string, d: Desk, build: Build)
    requires DeskOk(b, limits, id, d) && d.run.state == Proposed && BuildsWell(build)
    ensures var (h, toVerify) := Built(d, id, build.worktreeOk, build.applyOk, build.changes, build.Diff());
      && toVerify && Underway(id, h) && h.run.files == WD.FilesOf(WD.DiffLines(build.changes)) && h.run.diffLines == d.run.diffLines
      && OnlyTouches(id, d, h) && h.queue == d.queue && h.budget == d.budget
  {
    CapturedIsUnderway(b, limits, id, d, build.changes);
  }

  lemma BuiltBadlyIsOk(b: SM.Boundaries, limits: RB.Limits, id: string, d: Desk, build: Build)
    requires DeskOk(b, limits, id, d) && d.run.state == Proposed && !BuildsWell(build)
    ensures var (h, toVerify) := Built(d, id, build.worktreeOk, build.applyOk, build.changes, build.Diff());
      && !toVerify && DeskOk(b, limits, id, h) && h.run.state == Failed && OnlyTouches(id, d, h)
  {
    UnbuiltIsOk(b, limits, id, d, build.changes);
  }

  lemma VerifiedIsOk(b: SM.Boundaries, limits: RB.Limits, id: string, d: Desk, build: Build)
    requires Underway(id, d) && BudgetOk(d.budget, limits)
    ensures var (h, toDecide) := Verified(d, id, build.report, build.risk);
      && (if toDecide then Underway(id, h) && build.report.Some? && build.report.value.Passed() && build.risk.Some?
                           && h.run == d.run.(report := build.report, risk := build.risk)
          else DeskOk(b, limits, id, h) && h.run.state == Failed)
      && OnlyTouches(id, d, h) && h.queue == d.queue && h.budget == d.budget
  {
    var d1 := if build.report.None? then d else d.(run := d.run.(report := build.report));
    var d2 := if build.report.None? || build.risk.None? then d1 else d1.(run := d1.run.(risk := build.risk));
    DroppedIsOk(b, limits, id, d2, Failed);
  }

  /** Not rejected: the request is new in the queue, and what it says agrees with the run. */
  lemma SubmittedIsOk(b: SM.Boundaries, id: string, d: Desk, a: RR.Assessment, expiresAt: int)
    requires Underway(id, d) && d.run.risk == Some(a) && a.recommendation != RR.Reject
    requires d.run.report.Some? && d.run.report.value.Passed()
    requires RR.IsAssessment(b, false, d.run.files, d.run.diffLines, a)
    ensures var s := AQ.Submitted(d.queue, ApprovalId(id), id, a.level, expiresAt);
      && s.Ok? && OnlyTouches(id, d, d.(queue := s.value))
      && RunOk(b, id, Entered(d.run, id, a.level), At(s.value, ApprovalId(id)), At(d.worktrees, id))
  {
    MovedKeepsLog(d.run.(approvalId := Some(ApprovalId(id))), if a.level == RR.Low then Approved else AwaitingApproval);
  }

  /** Risk and budget let the run through. */
  predicate LetThrough(a: RR.Assessment, u: RB.Usage, limits: RB.Limits, today: int) {
    a.recommendation != RR.Reject && Charged(u, a.level, limits, today).1
  }

  lemma ChargedIsOk(u: RB.Usage, level: RR.Level, limits: RB.Limits, today: int)
    requires BudgetOk(u, limits)
    ensures BudgetOk(Charged(u, level, limits, today).0, limits)
  {
  }

  lemma DecidedAgainstIsOk(b: SM.Boundaries, id: string, d: Desk, a: RR.Assessment, limits: RB.Limits, today: int, expiresAt: int)
    requires Underway(id, d) && BudgetOk(d.budget, limits) && !LetThrough(a, d.budget, limits, today)
    ensures var (h, e) := Decided(d, id, a, limits, today, expiresAt);
      e == None && OnlyTouches(id, d, h) && DeskOk(b, limits, id, h) && h.run.state == Rejected
  {
    ChargedIsOk(d.budget, a.level, limits, today);
    DroppedIsOk(b, limits, id, d, Rejected);
    DroppedIsOk(b, limits, id, d.(budget := Charged(d.budget, a.level, limits, today).0), Rejected);
  }

  lemma DecidedForIsOk(b: SM.Boundaries, id: string, d: Desk, a: RR.Assessment, limits: RB.Limits, today: int, expiresAt: int)
    requires Underway(id, d) && BudgetOk(d.budget, limits) && d.run.risk == Some(a) && LetThrough(a, d.budget, limits, today)
    requires d.run.report.Some? && d.run.report.value.Passed()
    requires RR.IsAssessment(b, false, d.run.files, d.run.diffLines, a)
    ensures var (h, e) := Decided(d, id, a, limits, today, expiresAt);
      e == None && OnlyTouches(id, d, h) && DeskOk(b, limits, id, h) && h.run.state in {Approved, AwaitingApproval}
  {
    ChargedIsOk(d.budget, a.level, limits, today);
    SubmittedIsOk(b, id, d, a, expiresAt);
  }

  lemma ExecutedIsOk(b: SM.Boundaries, id: string, d: Desk, build: Build, limits: RB.Limits, today: int)
    requires DeskOk(b, limits, id, d) && d.run.state == Proposed
    requires build.diffOk && build.report.Some? && build.risk.Some? ==>
      RR.IsAssessment(b, !build.report.value.Passed(), WD.FilesOf(WD.DiffLines(build.changes)), d.run.diffLines, build.risk.value)
    ensures var (h, e) := Executed(d, id, build, limits, today);
      && e == None && OnlyTouches(id, d, h)
      && DeskOk(b, limits, id, h)
      && h.run.state in {Failed, Rejected, Approved, AwaitingApproval}
  {
    if BuildsWell(build) {
      BuiltWellIsOk(b, limits, id, d, build);
    } else {
      BuiltBadlyIsOk(b, limits, id, d, build);
    }
    var (built, toVerify) := Built(d, id, build.worktreeOk, build.applyOk, build.changes, build.Diff());
    if toVerify {
      VerifiedIsOk(b, limits, id, built, build);
      var (verified, toDecide) := Verified(built, id, build.report, build.risk);
      if toDecide {
        if LetThrough(build.risk.value, verified.budget, limits, today) {
          DecidedForIsOk(b, id, verified, build.risk.value, limits, today, build.expiresAt);
        } else {
          DecidedAgainstIsOk(b, id, verified, build.risk.value, limits, today, build.expiresAt);
        }
      }
    }
  }

  // ----- every call keeps the world good

  lemma NewRunIsOk(b: SM.Boundaries, id: string, diffLines: int)
    ensures RunOk(b, id, NewRun(diffLines), None, None)
  {
    var log := NewRun(diffLines).transitions;
    assert log == [Transition(Proposed, Proposed, false)] && Own(log[..0]) == 0;
  }

  lemma RecordKeepsBudgetOk(u: RB.Usage, limits: RB.Limits, kind: RB.Kind, today: int)
    requires BudgetOk(u, limits) && (kind != RB.LowRiskMerges ==> RB.Available(u, limits, kind, today))
    ensures BudgetOk(RB.Rolled(u, today), limits) && BudgetOk(RB.Recorded(u, kind, today), limits)
  {
  }

  lemma ProposingKeepsGood(w: World, b: SM.Boundaries, limits: RB.Limits, id: string, blank: bool, diffLines: int, today: int)
    requires Good(w, b, limits) && id !in w.runs
    ensures Good(Proposing(w, limits, id, blank, diffLines, today).0, b, limits)
  {
    if !w.halted && !blank {
      if RB.Available(w.budget, limits, RB.Runs, today) {
        NewRunIsOk(b, id, diffLines);
        RecordKeepsBudgetOk(w.budget, limits, RB.Runs, today);
        DeskStepKeepsGood(w, b, limits, id, Desk(NewRun(diffLines), w.queue, RB.Recorded(w.budget, RB.Runs, today), w.worktrees));
      }
    }
  }

  lemma KillingKeepsGood(w: World, b: SM.Boundaries, limits: RB.Limits, id: string)
    requires Good(w, b, limits) && id in w.runs
    ensures Good(w.(runs := w.runs[id := Killed(w.runs[id])]), b, limits)
  {
    KilledKeepsLog(w.runs[id]);
    DeskStepKeepsGood(w, b, limits, id, DeskOf(w, id).(run := Killed(w.runs[id])));
  }

  lemma ExecutingKeepsGood(w: World, b: SM.Boundaries, limits: RB.Limits, id: string, build: Build, today: int)
    requires Good(w, b, limits) && Allowed(w, b, Execute(id, build, today))
    ensures Good(Executing(w, limits, id, build, today).0, b, limits)
  {
    if id in w.runs {
      if w.halted {
        KillingKeepsGood(w, b, limits, id);
      } else if w.runs[id].state == Proposed {
        ExecutedIsOk(b, id, DeskOf(w, id), build, limits, today);
        DeskStepKeepsGood(w, b, limits, id, Executed(DeskOf(w, id), id, build, limits, today).0);
      }
    }
  }

  /** The desk after a human has answered a pending request. */
  lemma AnsweredIsOk(b: SM.Boundaries, limits: RB.Limits, id: string, d: Desk, approved: bool)
    requires DeskOk(b, limits, id, d) && d.run.state == AwaitingApproval
    requires d.queue[ApprovalId(id)].state == AQ.Pending
    ensures var queue := d.queue[ApprovalId(id) := d.queue[ApprovalId(id)].(state := if approved then AQ.Approved else AQ.Rejected)];
      var h := Settled(d.(queue := queue), id, approved);
      DeskOk(b, limits, id, h) && OnlyTouches(id, d, h)
  {
    var queue := d.queue[ApprovalId(id) := d.queue[ApprovalId(id)].(state := if approved then AQ.Approved else AQ.Rejected)];
    if approved {
      MovedKeepsLog(d.run, Approved);
    } else {
      DroppedIsOk(b, limits, id, d.(queue := queue), Rejected);
    }
  }

  lemma ResolvingKeepsGood(w: World, b: SM.Boundaries, limits: RB.Limits, id: string, approved: bool)
    requires Good(w, b, limits)
    ensures Good(Resolving(w, id, approved).0, b, limits)
  {
    if id in w.runs && w.runs[id].state == AwaitingApproval {
      assert DeskOk(b, limits, id, DeskOf(w, id));
      var key := ApprovalId(id);
      if w.queue[key].state == AQ.Pending {
        AnsweredIsOk(b, limits, id, DeskOf(w, id), approved);
        var d := DeskOf(w, id).(queue := w.queue[key := w.queue[key].(state := if approved then AQ.Approved else AQ.Rejected)]);
        DeskStepKeepsGood(w, b, limits, id, Settled(d, id, approved));
      }
    }
  }

  lemma MergedRunIsOk(b: SM.Boundaries, id: string, run: Run, request: Option<AQ.Request>, handle: Option<SW.Handle>)
    requires RunOk(b, id, run, request, handle) && run.state == Approved
    ensures RunOk(b, id, Moved(Moved(run, Merging).(mergeBranch := Some(SW.BranchOf(id))), Merged), request,
                  Some(SW.Handle(SW.BranchOf(id), run.files, true, false, [])))
  {
    MovedKeepsLog(run, Merging);
    MovedKeepsLog(Moved(run, Merging).(mergeBranch := Some(SW.BranchOf(id))), Merged);
  }

  lemma MergedIsOk(b: SM.Boundaries, limits: RB.Limits, id: string, d: Desk, today: int)
    requires DeskOk(b, limits, id, d) && d.run.state == Approved
    ensures var h := MergedDesk(d, id, today);
      DeskOk(b, limits, id, h) && OnlyTouches(id, d, h)
  {
    MergedRunIsOk(b, id, d.run, At(d.queue, ApprovalId(id)), At(d.worktrees, id));
    RecordKeepsBudgetOk(d.budget, limits, RB.LowRiskMerges, today);
  }

  lemma FinalizingKeepsGood(w: World, b: SM.Boundaries, limits: RB.Limits, id: string, today: int)
    requires Good(w, b, limits)
    ensures Good(Finalizing(w, id, today).0, b, limits)
  {
    if id in w.runs {
      if w.halted {
        KillingKeepsGood(w, b, limits, id);
      } else if w.runs[id].state == Approved {
        assert DeskOk(b, limits, id, DeskOf(w, id));
        MergedIsOk(b, limits, id, DeskOf(w, id), today);
        DeskStepKeepsGood(w, b, limits, id, MergedDesk(DeskOf(w, id), id, today));
      }
    }
  }

  lemma CancelledIsOk(b: SM.Boundaries, limits: RB.Limits, id: string, d: Desk)
    requires DeskOk(b, limits, id, d) && !IsTerminal(d.run.state)
    ensures DeskOk(b, limits, id, CancelledDesk(d, id)) && OnlyTouches(id, d, CancelledDesk(d, id))
  {
    MovedKeepsLog(d.run, Cancelled);
  }

  lemma CancellingKeepsGood(w: World, b: SM.Boundaries, limits: RB.Limits, id: string)
    requires Good(w, b, limits)
    ensures Good(Cancelling(w, id).0, b, limits)
  {
    if id in w.runs && !IsTerminal(w.runs[id].state) {
      CancelledIsOk(b, limits, id, DeskOf(w, id));
      DeskStepKeepsGood(w, b, limits, id, CancelledDesk(DeskOf(w, id), id));
    }
  }

  lemma ExpiringKeepsGood(w: World, b: SM.Boundaries, limits: RB.Limits, now: int)
    requires Good(w, b, limits)
    ensures Good(w.(queue := AQ.Expired(w.queue, now)), b, limits)
  {
    var queue := AQ.Expired(w.queue, now);
    forall id | id in w.runs
      ensures RunOk(b, id, w.runs[id], At(queue, ApprovalId(id)), At(w.worktrees, id))
    {
      assert RunOk(b, id, w.runs[id], At(w.queue, ApprovalId(id)), At(w.worktrees, id));
    }
  }

  lemma BuildingKeepsGood(w: World, b: SM.Boundaries, limits: RB.Limits, e: Event)
    requires Good(w, b, limits) && Allowed(w, b, e) && (e.Propose? || e.Execute?)
    ensures Good(After(w, limits, e), b, limits)
  {
    if e.Propose? {
      ProposingKeepsGood(w, b, limits, e.id, e.blank, e.diffLines, e.today);
    } else {
      ExecutingKeepsGood(w, b, limits, e.id, e.build, e.today);
    }
  }

  lemma DecidingKeepsGood(w: World, b: SM.Boundaries, limits: RB.Limits, e: Event)
    requires Good(w, b, limits) && (e.Resolve? || e.FinalizeMerge? || e.Cancel?)
    ensures Good(After(w, limits, e), b, limits)
  {
    if e.Resolve? {
      ResolvingKeepsGood(w, b, limits, e.id, e.approved);
    } else if e.FinalizeMerge? {
      FinalizingKeepsGood(w, b, limits, e.id, e.today);
    } else {
      CancellingKeepsGood(w, b, limits, e.id);
    }
  }

  lemma StepKeepsGood(w: World, b: SM.Boundaries, limits: RB.Limits, e: Event)
    requires Good(w, b, limits) && Allowed(w, b, e)
    ensures Good(After(w, limits, e), b, limits)
  {
    if e.Propose? || e.Execute? {
      BuildingKeepsGood(w, b, limits, e);
    } else if e.ExpireApprovals? {
      ExpiringKeepsGood(w, b, limits, e.now);
    } else if !e.SetHalt? {
      DecidingKeepsGood(w, b, limits, e);
    }
  }

  lemma {:induction false} RunKeepsGood(w: World, b: SM.Boundaries, limits: RB.Limits, events: seq<Event>)
    requires Good(w, b, limits) && AllowedRun(w, b, limits, events)
    ensures Good(RunAll(w, limits, events), b, limits)
    decreases |events|
  {
    if events != [] {
      StepKeepsGood(w, b, limits, events[0]);
      RunKeepsGood(After(w, limits, events[0]), b, limits, events[1..]);
    }
  }
}
