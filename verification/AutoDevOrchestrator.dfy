/** The auto-dev objects (`AutoDevRun`, `AutoDevOrchestrator`): runs, worktree handles and requests are
    shared and updated in place; every method does what the pipeline of values says. */
module AutoDevOrchestrator {
  import opened Common
  import SM = SelfModifier
  import VG = VerificationGate
  import RR = ResidualRisk
  import AQ = ApprovalQueue
  import RB = RateBudget
  import SW = SandboxWorktree
  import WD = WorktreeDiff
  import KS = KillSwitch
  import opened AutoDevSpec

  class AutoDevRun {
    const diffLines: int
    var state: RunState
    var worktreeHandle: SW.WorktreeHandle?
    var files: seq<string>
    ghost var changes: seq<WD.Change>
    var report: Option<VG.Report>
    var risk: Option<RR.Assessment>
    var approvalId: Option<string>
    var mergeBranch: Option<string>
    var transitions: seq<Transition>

    ghost function View(): Run
      reads this
    {
      Run(state, diffLines, worktreeHandle != null, files, changes, report, risk, approvalId, mergeBranch, transitions)
    }

    /** The handle of the run is the one the sandbox keeps under its id. */
    ghost predicate Shares(sandbox: SW.SandboxWorktree, id: string)
      reads this, sandbox
    {
      worktreeHandle != null ==>
        id in sandbox.active && sandbox.active[id] == worktreeHandle && worktreeHandle.branch == SW.BranchOf(id)
    }

    constructor (diffLines: int)
      ensures View() == Run(Proposed, diffLines, false, [], [], None, None, None, None, [])
    {
      this.diffLines := diffLines;
      state, worktreeHandle, files, changes, report, risk := Proposed, null, [], [], None, None;
      approvalId, mergeBranch, transitions := None, None, [];
    }

    method RecordTransition(to: RunState, byKillSwitch: bool)
      modifies this`state, this`transitions
      ensures View() == if byKillSwitch then old(View()).(state := to, transitions := old(transitions) + [Transition(old(state), to, true)])
                        else Moved(old(View()), to)
    {
      transitions := transitions + [Transition(state, to, byKillSwitch)];
      state := to;
    }
  }

  // ----- the phases of a build, on one run and the objects it uses

  method Drop(run: AutoDevRun, sandbox: SW.SandboxWorktree, id: string, to: RunState, ghost q: AQ.Queue, ghost u: RB.Usage)
    requires sandbox.Valid() && run.Shares(sandbox, id)
    modifies run`state, run`transitions, sandbox.active.Values
    ensures sandbox.Valid() && run.Shares(sandbox, id)
    ensures Desk(run.View(), q, u, sandbox.View()) == Dropped(Desk(old(run.View()), q, u, old(sandbox.View())), id, to)
  {
    sandbox.Cleanup(id, false);
    run.RecordTransition(to, false);
  }

  method StartBuild(run: AutoDevRun, sandbox: SW.SandboxWorktree, id: string, worktreeOk: bool) returns (ok: bool)
    requires sandbox.Valid() && run.worktreeHandle == null
    modifies run, sandbox
    ensures forall i :: i in old(sandbox.active) ==> i in sandbox.active && sandbox.active[i] == old(sandbox.active)[i]
    ensures sandbox.Valid() && run.Shares(sandbox, id) && fresh(sandbox.active.Values - old(sandbox.active.Values))
    ensures var s := SW.Created(old(sandbox.View()), id, worktreeOk);
      if s.Ok? then ok && sandbox.View() == s.value && run.View() == Moved(old(run.View()), Building).(hasWorktree := true)
      else !ok && sandbox.View() == old(sandbox.View()) && run.View() == Moved(Moved(old(run.View()), Building), Failed)
  {
    run.RecordTransition(Building, false);
    var created := sandbox.Create(id, worktreeOk);
    ok := created.Ok?;
    if ok {
      run.worktreeHandle := created.value;
      assert sandbox.View()[id].branch == SW.BranchOf(id);
    } else {
      run.RecordTransition(Failed, false);
    }
  }

  /** Worktree, diff, modified files. */
  method BuildPhase(run: AutoDevRun, sandbox: SW.SandboxWorktree, id: string, worktreeOk: bool, applyOk: bool,
                    ghost changes: seq<WD.Change>, diff: Option<seq<string>>, ghost q: AQ.Queue, ghost u: RB.Usage) returns (ok: bool)
    requires sandbox.Valid() && run.worktreeHandle == null
    modifies run, sandbox, sandbox.active.Values
    ensures forall i :: i in old(sandbox.active) ==> i in sandbox.active && sandbox.active[i] == old(sandbox.active)[i]
    ensures sandbox.Valid() && run.Shares(sandbox, id) && fresh(sandbox.active.Values - old(sandbox.active.Values))
    ensures (Desk(run.View(), q, u, sandbox.View()), ok)
         == Built(Desk(old(run.View()), q, u, old(sandbox.View())), id, worktreeOk, applyOk, changes, diff)
  {
    ok := StartBuild(run, sandbox, id, worktreeOk);
    if ok {
      if applyOk {
        run.changes := changes;
        ok := CapturePhase(run, sandbox, id, diff, q, u);
      } else {
        Drop(run, sandbox, id, Failed, q, u);
        ok := false;
      }
    }
  }

  method CapturePhase(run: AutoDevRun, sandbox: SW.SandboxWorktree, id: string, diff: Option<seq<string>>,
                      ghost q: AQ.Queue, ghost u: RB.Usage) returns (ok: bool)
    requires sandbox.Valid() && run.worktreeHandle != null && run.Shares(sandbox, id)
    modifies run, sandbox.active.Values
    ensures sandbox.Valid() && run.Shares(sandbox, id)
    ensures (Desk(run.View(), q, u, sandbox.View()), ok)
         == FilesCaptured(Desk(old(run.View()), q, u, old(sandbox.View())), id, diff)
  {
    var captured := sandbox.CaptureDiff(id, diff);
    if captured.Err? {
      Drop(run, sandbox, id, Failed, q, u);
      return false;
    }
    run.files := run.worktreeHandle.files;
    run.RecordTransition(Verifying, false);
    ok := true;
  }

  /** The assessment is stored in the run; the worktrees are not touched. */
  method StoreAssessment(run: AutoDevRun, ghost sandbox: SW.SandboxWorktree, modifier: SM.SelfModifier, report: VG.Report)
    returns (a: RR.Assessment)
    requires modifier.Valid()
    modifies run`risk, modifier
    ensures modifier.Valid() && run.View() == old(run.View()).(risk := Some(a)) && sandbox.View() == old(sandbox.View())
    ensures RR.IsAssessment(modifier.data, !report.Passed(), run.files, run.diffLines, a)
  {
    a := RR.Assess(modifier, Some(report), run.files, run.diffLines);
    run.risk := Some(a);
  }

  /** The assessment of a report; it may raise. */
  method AssessPhase(run: AutoDevRun, sandbox: SW.SandboxWorktree, modifier: SM.SelfModifier, id: string,
                     report: VG.Report, riskOk: bool, ghost q: AQ.Queue, ghost u: RB.Usage)
    returns (ok: bool, ghost risk: Option<RR.Assessment>)
    requires sandbox.Valid() && modifier.Valid() && run.Shares(sandbox, id)
    modifies run`risk, run`state, run`transitions, sandbox.active.Values, modifier
    ensures sandbox.Valid() && modifier.Valid() && run.Shares(sandbox, id)
    ensures (Desk(run.View(), q, u, sandbox.View()), ok)
         == Assessed(Desk(old(run.View()), q, u, old(sandbox.View())), id, report.Passed(), risk)
    ensures risk.Some? == riskOk
    ensures risk.Some? ==> RR.IsAssessment(modifier.data, !report.Passed(), old(run.files), run.diffLines, risk.value)
  {
    risk, ok := None, false;
    if riskOk {
      var assessed := StoreAssessment(run, sandbox, modifier, report);
      risk, ok := Some(assessed), report.Passed();
    }
    if !ok {
      Drop(run, sandbox, id, Failed, q, u);
    }
  }

  /** Verification report and risk assessment. `runs` is what the stages would say, or nothing when
      verification raises. */
  method VerifyPhase(run: AutoDevRun, sandbox: SW.SandboxWorktree, modifier: SM.SelfModifier, id: string,
                     runs: Option<VG.Runs>, riskOk: bool, ghost q: AQ.Queue, ghost u: RB.Usage)
    returns (ok: bool, ghost report: Option<VG.Report>, ghost risk: Option<RR.Assessment>)
    requires sandbox.Valid() && modifier.Valid() && run.Shares(sandbox, id)
    modifies run`report, run`risk, run`state, run`transitions, sandbox.active.Values, modifier
    ensures sandbox.Valid() && modifier.Valid() && run.Shares(sandbox, id)
    ensures (Desk(run.View(), q, u, sandbox.View()), ok)
         == Verified(Desk(old(run.View()), q, u, old(sandbox.View())), id, report, risk)
    ensures report.Some? == runs.Some? && risk.Some? == (runs.Some? && riskOk)
    ensures report.Some? ==> VG.IsReport(old(run.files), runs.value, report.value.stages)
    ensures report.Some? && risk.Some? ==>
      RR.IsAssessment(modifier.data, !report.value.Passed(), old(run.files), run.diffLines, risk.value)
  {
    if runs.None? {
      report, risk, ok := None, None, false;
      Drop(run, sandbox, id, Failed, q, u);
    } else {
      var verified := VG.Verify(run.files, runs.value);
      report := Some(verified);
      run.report := Some(verified);
      ok, risk := AssessPhase(run, sandbox, modifier, id, verified, riskOk, q, u);
    }
  }

  /** Rejection by risk, the budget of medium and higher proposals, and the approval queue. */
  method DecidePhase(run: AutoDevRun, sandbox: SW.SandboxWorktree, queue: AQ.ApprovalQueue, budget: RB.RateBudgetTracker,
                     id: string, a: RR.Assessment, today: int, expiresAt: int) returns (e: Option<Error>)
    requires sandbox.Valid() && queue.Valid() && run.Shares(sandbox, id)
    modifies run`state, run`transitions, run`approvalId, sandbox.active.Values, queue, budget
    ensures sandbox.Valid() && queue.Valid() && run.Shares(sandbox, id)
    ensures fresh(queue.requests.Values - old(queue.requests.Values))
    ensures (Desk(run.View(), queue.View(), budget.current, sandbox.View()), e)
         == Decided(Desk(old(run.View()), old(queue.View()), old(budget.current), old(sandbox.View())), id, a, budget.limits, today, expiresAt)
  {
    var accepted := a.recommendation != RR.Reject;
    if accepted {
      accepted := ChargeBudget(budget, a.level, today);
    }
    if accepted {
      e := SubmitPhase(run, sandbox, queue, id, a, expiresAt);
    } else {
      e := None;
      RejectPhase(run, sandbox, queue, id);
    }
  }

  /** The check and the record of a medium or higher proposal. Low risk costs nothing here. */
  method ChargeBudget(budget: RB.RateBudgetTracker, level: RR.Level, today: int) returns (within: bool)
    modifies budget
    ensures (budget.current, within) == Charged(old(budget.current), level, budget.limits, today)
  {
    within := true;
    if level != RR.Low {
      within := budget.CheckCan(RB.MediumPlus, today);
      if within {
        budget.RecordOne(RB.MediumPlus, today);
      }
    }
  }

  method RejectPhase(run: AutoDevRun, sandbox: SW.SandboxWorktree, ghost queue: AQ.ApprovalQueue, id: string)
    requires sandbox.Valid() && queue.Valid() && run.Shares(sandbox, id)
    modifies run`state, run`transitions, sandbox.active.Values
    ensures sandbox.Valid() && queue.Valid() && run.Shares(sandbox, id) && queue.View() == old(queue.View())
    ensures sandbox.View() == SW.Cleaned(old(sandbox.View()), id, false) && run.View() == Moved(old(run.View()), Rejected)
  {
    sandbox.Cleanup(id, false);
    run.RecordTransition(Rejected, false);
  }

  method SubmitRequest(ghost sandbox: SW.SandboxWorktree, queue: AQ.ApprovalQueue, id: string, level: RR.Level, expiresAt: int)
    returns (r: Result<AQ.State, AQ.Error>)
    requires queue.Valid()
    modifies queue
    ensures queue.Valid() && fresh(queue.requests.Values - old(queue.requests.Values)) && sandbox.View() == old(sandbox.View())
    ensures var s := AQ.Submitted(old(queue.View()), ApprovalId(id), id, level, expiresAt);
      if s.Ok? then queue.View() == s.value && r == Ok(if level == RR.Low then AQ.AutoApproved else AQ.Pending)
      else r == Err(s.error) && queue.View() == old(queue.View())
  {
    r := queue.Submit(ApprovalId(id), id, level, expiresAt);
  }

  /** The request and the state it gives the run. */
  method SubmitPhase(run: AutoDevRun, ghost sandbox: SW.SandboxWorktree, queue: AQ.ApprovalQueue, id: string,
                     a: RR.Assessment, expiresAt: int) returns (e: Option<Error>)
    requires queue.Valid()
    modifies run`state, run`transitions, run`approvalId, queue
    ensures queue.Valid() && fresh(queue.requests.Values - old(queue.requests.Values))
    ensures sandbox.View() == old(sandbox.View())
    ensures var s := AQ.Submitted(old(queue.View()), ApprovalId(id), id, a.level, expiresAt);
      if s.Ok? then e == None && queue.View() == s.value && run.View() == Entered(old(run.View()), id, a.level)
      else e == Some(QueueError(s.error)) && queue.View() == old(queue.View()) && run.View() == old(run.View())
  {
    var submitted := SubmitRequest(sandbox, queue, id, a.level, expiresAt);
    if submitted.Err? {
      return Some(QueueError(submitted.error));
    }
    e := None;
    run.approvalId := Some(ApprovalId(id));
    run.RecordTransition(if submitted.value == AQ.AutoApproved then Approved else AwaitingApproval, false);
  }

  // ----- a whole build

  ghost function DeskNow(run: AutoDevRun, sandbox: SW.SandboxWorktree, queue: AQ.ApprovalQueue, budget: RB.RateBudgetTracker): Desk
    reads run, sandbox, sandbox.active.Values, queue, queue.requests.Values, budget
  {
    Desk(run.View(), queue.View(), budget.current, sandbox.View())
  }

  method BuildOnDesk(run: AutoDevRun, sandbox: SW.SandboxWorktree, ghost queue: AQ.ApprovalQueue, ghost budget: RB.RateBudgetTracker,
                     id: string, worktreeOk: bool, applyOk: bool, ghost changes: seq<WD.Change>, diff: Option<seq<string>>) returns (ok: bool)
    requires sandbox.Valid() && queue.Valid() && run.worktreeHandle == null
    modifies run, sandbox, sandbox.active.Values
    ensures forall i :: i in old(sandbox.active) ==> i in sandbox.active && sandbox.active[i] == old(sandbox.active)[i]
    ensures sandbox.Valid() && queue.Valid() && run.Shares(sandbox, id) && fresh(sandbox.active.Values - old(sandbox.active.Values))
    ensures (DeskNow(run, sandbox, queue, budget), ok)
         == Built(old(DeskNow(run, sandbox, queue, budget)), id, worktreeOk, applyOk, changes, diff)
  {
    ok := BuildPhase(run, sandbox, id, worktreeOk, applyOk, changes, diff, queue.View(), budget.current);
    assert queue.View() == old(queue.View());
  }

  method VerifyOnDesk(run: AutoDevRun, sandbox: SW.SandboxWorktree, ghost queue: AQ.ApprovalQueue, ghost budget: RB.RateBudgetTracker,
                      modifier: SM.SelfModifier, id: string, runs: Option<VG.Runs>, riskOk: bool)
    returns (ok: bool, ghost report: Option<VG.Report>, ghost risk: Option<RR.Assessment>)
    requires sandbox.Valid() && queue.Valid() && modifier.Valid() && run.Shares(sandbox, id)
    modifies run`report, run`risk, run`state, run`transitions, sandbox.active.Values, modifier
    ensures sandbox.Valid() && queue.Valid() && modifier.Valid() && run.Shares(sandbox, id)
    ensures (DeskNow(run, sandbox, queue, budget), ok) == Verified(old(DeskNow(run, sandbox, queue, budget)), id, report, risk)
    ensures report.Some? == runs.Some? && risk.Some? == (runs.Some? && riskOk)
    ensures report.Some? ==> VG.IsReport(old(run.files), runs.value, report.value.stages)
    ensures report.Some? && risk.Some? ==>
      RR.IsAssessment(modifier.data, !report.value.Passed(), old(run.files), run.diffLines, risk.value)
  {
    ok, report, risk := VerifyPhase(run, sandbox, modifier, id, runs, riskOk, queue.View(), budget.current);
    assert queue.View() == old(queue.View());
  }

  /** What the outside does during a build: git, the subprocesses of the stages, a failing assessment. */
  datatype Outside = Outside(worktreeOk: bool, applyOk: bool, changes: seq<WD.Change>, diffOk: bool,
                             runs: Option<VG.Runs>, riskOk: bool, expiresAt: int)
  {
    /** The diff git prints of the worktree, if it does. */
    function Diff(): Option<seq<string>> {
      if diffOk then Some(WD.DiffLines(changes)) else None
    }
  }

  /** A build as the pipeline of values sees it, when the outside is this: the report is one of the
      stages, the assessment the one of the report and the captured files. */
  ghost predicate Describes(build: Build, outside: Outside, b: SM.Boundaries, diffLines: int) {
    && build.worktreeOk == outside.worktreeOk && build.applyOk == outside.applyOk
    && build.changes == outside.changes && build.diffOk == outside.diffOk
    && build.expiresAt == outside.expiresAt
    && (if build.worktreeOk && build.applyOk && build.diffOk
        then DescribesReview(build.report, build.risk, outside, b, WD.FilesOf(WD.DiffLines(build.changes)), diffLines)
        else build.report == None && build.risk == None)
  }

  ghost predicate DescribesReview(report: Option<VG.Report>, risk: Option<RR.Assessment>, outside: Outside, b: SM.Boundaries,
                                  files: seq<string>, diffLines: int) {
    && report.Some? == outside.runs.Some? && risk.Some? == (outside.runs.Some? && outside.riskOk)
    && (report.Some? ==> VG.IsReport(files, outside.runs.value, report.value.stages))
    && (report.Some? && risk.Some? ==> RR.IsAssessment(b, !report.value.Passed(), files, diffLines, risk.value))
  }

  /** What the objects do in a build is allowed in the pipeline of values. */
  lemma DescribedIsAllowed(w: World, b: SM.Boundaries, id: string, build: Build, outside: Outside, today: int)
    requires id in w.runs && Describes(build, outside, b, w.runs[id].diffLines)
    ensures Allowed(w, b, Execute(id, build, today))
  {
  }

  method ReviewOnDesk(run: AutoDevRun, sandbox: SW.SandboxWorktree, queue: AQ.ApprovalQueue, budget: RB.RateBudgetTracker,
                      modifier: SM.SelfModifier, id: string, outside: Outside, today: int)
    returns (e: Option<Error>, ghost report: Option<VG.Report>, ghost risk: Option<RR.Assessment>)
    requires sandbox.Valid() && queue.Valid() && modifier.Valid() && run.Shares(sandbox, id)
    modifies run`report, run`risk, run`state, run`transitions, run`approvalId, sandbox.active.Values, queue, budget, modifier
    ensures sandbox.Valid() && queue.Valid() && modifier.Valid() && run.Shares(sandbox, id)
    ensures fresh(queue.requests.Values - old(queue.requests.Values))
    ensures (DeskNow(run, sandbox, queue, budget), e)
         == Reviewed(old(DeskNow(run, sandbox, queue, budget)), id, report, risk, outside.expiresAt, budget.limits, today)
    ensures DescribesReview(report, risk, outside, modifier.data, old(run.files), run.diffLines)
  {
    e := None;
    var ok;
    ok, report, risk := VerifyOnDesk(run, sandbox, queue, budget, modifier, id, outside.runs, outside.riskOk);
    if ok {
      e := DecidePhase(run, sandbox, queue, budget, id, run.risk.value, today, outside.expiresAt);
    }
  }

  /** A build that reaches verification has captured the files of its diff. */
  lemma BuiltCaptures(d: Desk, id: string, worktreeOk: bool, applyOk: bool, changes: seq<WD.Change>, diff: Option<seq<string>>)
    ensures var (h, toVerify) := Built(d, id, worktreeOk, applyOk, changes, diff);
      toVerify ==> worktreeOk && applyOk && diff.Some? && h.run.files == WD.FilesOf(diff.value)
    ensures id !in d.worktrees ==> Built(d, id, worktreeOk, applyOk, changes, diff).1 == (worktreeOk && applyOk && diff.Some?)
  {
  }

  /** The phases in turn; `reviewed` says that the build went as far as the review. */
  method RunPhases(run: AutoDevRun, sandbox: SW.SandboxWorktree, queue: AQ.ApprovalQueue, budget: RB.RateBudgetTracker,
                   modifier: SM.SelfModifier, id: string, outside: Outside, today: int)
    returns (e: Option<Error>, reviewed: bool, ghost report: Option<VG.Report>, ghost risk: Option<RR.Assessment>)
    requires sandbox.Valid() && queue.Valid() && modifier.Valid() && run.worktreeHandle == null
    modifies run, sandbox, sandbox.active.Values, queue, budget, modifier
    ensures forall i :: i in old(sandbox.active) ==> i in sandbox.active && sandbox.active[i] == old(sandbox.active)[i]
    ensures sandbox.Valid() && queue.Valid() && modifier.Valid() && run.Shares(sandbox, id)
    ensures fresh(sandbox.active.Values - old(sandbox.active.Values)) && fresh(queue.requests.Values - old(queue.requests.Values))
    ensures var (h, ok) := Built(old(DeskNow(run, sandbox, queue, budget)), id, outside.worktreeOk, outside.applyOk,
                                 outside.changes, outside.Diff());
      && reviewed == ok
      && (DeskNow(run, sandbox, queue, budget), e)
         == (if ok then Reviewed(h, id, report, risk, outside.expiresAt, budget.limits, today) else (h, None))
      && (if ok then DescribesReview(report, risk, outside, modifier.data, h.run.files, run.diffLines) else report == None && risk == None)
  {
    e, report, risk := None, None, None;
    reviewed := BuildOnDesk(run, sandbox, queue, budget, id, outside.worktreeOk, outside.applyOk, outside.changes, outside.Diff());
    assert queue.requests == old(queue.requests);
    ghost var active := sandbox.active;
    if reviewed {
      e, report, risk := ReviewOnDesk(run, sandbox, queue, budget, modifier, id, outside, today);
    }
    assert sandbox.active == active;
  }

  method ExecuteOnDesk(run: AutoDevRun, sandbox: SW.SandboxWorktree, queue: AQ.ApprovalQueue, budget: RB.RateBudgetTracker,
                       modifier: SM.SelfModifier, id: string, outside: Outside, today: int)
    returns (e: Option<Error>, ghost build: Build)
    requires sandbox.Valid() && queue.Valid() && modifier.Valid() && run.worktreeHandle == null
    modifies run, sandbox, sandbox.active.Values, queue, budget, modifier
    ensures forall i :: i in old(sandbox.active) ==> i in sandbox.active && sandbox.active[i] == old(sandbox.active)[i]
    ensures sandbox.Valid() && queue.Valid() && modifier.Valid() && run.Shares(sandbox, id)
    ensures fresh(sandbox.active.Values - old(sandbox.active.Values)) && fresh(queue.requests.Values - old(queue.requests.Values))
    ensures (DeskNow(run, sandbox, queue, budget), e) == Executed(old(DeskNow(run, sandbox, queue, budget)), id, build, budget.limits, today)
    ensures id !in old(sandbox.active) ==> Describes(build, outside, modifier.data, run.diffLines)
  {
    BuiltCaptures(DeskNow(run, sandbox, queue, budget), id, outside.worktreeOk, outside.applyOk, outside.changes, outside.Diff());
    var reviewed;
    ghost var report, risk;
    e, reviewed, report, risk := RunPhases(run, sandbox, queue, budget, modifier, id, outside, today);
    build := Build(outside.worktreeOk, outside.applyOk, outside.changes, outside.diffOk, report, risk, outside.expiresAt);
    assert build.Diff() == outside.Diff();
  }

  lemma ExecutedLeavesProposed(d: Desk, id: string, build: Build, limits: RB.Limits, today: int)
    ensures Executed(d, id, build, limits, today).0.run.state != Proposed
  {
  }

  // ----- answers, merges, cancellations

  method CleanUpOwn(run: AutoDevRun, sandbox: SW.SandboxWorktree, ghost queue: AQ.ApprovalQueue, id: string, keepBranch: bool)
    requires sandbox.Valid() && queue.Valid() && run.Shares(sandbox, id)
    modifies sandbox.active.Values
    ensures sandbox.Valid() && queue.Valid() && run.Shares(sandbox, id) && queue.View() == old(queue.View())
    ensures sandbox.View() == if run.worktreeHandle != null then SW.Cleaned(old(sandbox.View()), id, keepBranch) else old(sandbox.View())
  {
    if run.worktreeHandle != null {
      sandbox.Cleanup(id, keepBranch);
    }
  }

  method SettleOnDesk(run: AutoDevRun, sandbox: SW.SandboxWorktree, ghost queue: AQ.ApprovalQueue, ghost budget: RB.RateBudgetTracker,
                      id: string, approved: bool)
    requires sandbox.Valid() && queue.Valid() && run.Shares(sandbox, id)
    modifies run`state, run`transitions, sandbox.active.Values
    ensures sandbox.Valid() && queue.Valid() && run.Shares(sandbox, id)
    ensures DeskNow(run, sandbox, queue, budget) == Settled(old(DeskNow(run, sandbox, queue, budget)), id, approved)
  {
    if !approved {
      CleanUpOwn(run, sandbox, queue, id, false);
    }
    run.RecordTransition(if approved then Approved else Rejected, false);
  }

  method AnswerRequest(ghost sandbox: SW.SandboxWorktree, queue: AQ.ApprovalQueue, request: string, approved: bool)
    returns (r: Result<(), AQ.Error>)
    requires queue.Valid()
    modifies queue.requests.Values
    ensures queue.Valid() && sandbox.View() == old(sandbox.View())
    ensures var s := AQ.Resolved(old(queue.View()), request, if approved then AQ.Approved else AQ.Rejected);
      if s.Ok? then r == Ok(()) && queue.View() == s.value else r == Err(s.error) && queue.View() == old(queue.View())
  {
    r := queue.Resolve(request, if approved then AQ.Approved else AQ.Rejected);
  }

  method AnswerOnDesk(run: AutoDevRun, sandbox: SW.SandboxWorktree, queue: AQ.ApprovalQueue, ghost budget: RB.RateBudgetTracker,
                      id: string, request: string, approved: bool) returns (e: Option<Error>)
    requires sandbox.Valid() && queue.Valid() && run.Shares(sandbox, id) && run.state != Proposed
    modifies run`state, run`transitions, sandbox.active.Values, queue.requests.Values
    ensures sandbox.Valid() && queue.Valid() && run.Shares(sandbox, id) && run.state != Proposed
    ensures var d := old(DeskNow(run, sandbox, queue, budget));
      var s := AQ.Resolved(d.queue, request, if approved then AQ.Approved else AQ.Rejected);
      if s.Ok? then e == None && DeskNow(run, sandbox, queue, budget) == Settled(d.(queue := s.value), id, approved)
      else e == Some(QueueError(s.error)) && DeskNow(run, sandbox, queue, budget) == d
  {
    e := None;
    var resolved := AnswerRequest(sandbox, queue, request, approved);
    if resolved.Err? {
      e := Some(QueueError(resolved.error));
    } else {
      SettleOnDesk(run, sandbox, queue, budget, id, approved);
    }
  }

  method CancelOnDesk(run: AutoDevRun, sandbox: SW.SandboxWorktree, ghost queue: AQ.ApprovalQueue, ghost budget: RB.RateBudgetTracker, id: string)
    requires sandbox.Valid() && queue.Valid() && run.Shares(sandbox, id)
    modifies run`state, run`transitions, sandbox.active.Values
    ensures sandbox.Valid() && queue.Valid() && run.Shares(sandbox, id)
    ensures DeskNow(run, sandbox, queue, budget) == CancelledDesk(old(DeskNow(run, sandbox, queue, budget)), id)
  {
    if run.worktreeHandle != null && !run.worktreeHandle.cleanedUp {
      CleanUpOwn(run, sandbox, queue, id, false);
    }
    assert run.worktreeHandle != null ==> old(sandbox.View())[id] == old(run.worktreeHandle.View());
    run.RecordTransition(Cancelled, false);
  }

  /** The branch is kept for a human to merge. */
  method PrepareBranch(run: AutoDevRun, sandbox: SW.SandboxWorktree, ghost queue: AQ.ApprovalQueue, id: string)
    requires sandbox.Valid() && queue.Valid() && run.Shares(sandbox, id)
    modifies run`mergeBranch, sandbox.active.Values
    ensures sandbox.Valid() && queue.Valid() && run.Shares(sandbox, id) && queue.View() == old(queue.View())
    ensures run.View() == if run.worktreeHandle != null then old(run.View()).(mergeBranch := Some(SW.BranchOf(id))) else old(run.View())
    ensures sandbox.View() == if run.worktreeHandle != null then SW.Cleaned(old(sandbox.View()), id, true) else old(sandbox.View())
  {
    if run.worktreeHandle != null {
      run.mergeBranch := Some(run.worktreeHandle.branch);
    }
    CleanUpOwn(run, sandbox, queue, id, true);
  }

  method MergeOnDesk(run: AutoDevRun, sandbox: SW.SandboxWorktree, ghost queue: AQ.ApprovalQueue, budget: RB.RateBudgetTracker,
                     id: string, today: int)
    requires sandbox.Valid() && queue.Valid() && run.Shares(sandbox, id)
    modifies run`state, run`transitions, run`mergeBranch, sandbox.active.Values, budget
    ensures sandbox.Valid() && queue.Valid() && run.Shares(sandbox, id)
    ensures DeskNow(run, sandbox, queue, budget) == MergedDesk(old(DeskNow(run, sandbox, queue, budget)), id, today)
  {
    run.RecordTransition(Merging, false);
    PrepareBranch(run, sandbox, queue, id);
    RecordMerged(run, sandbox, queue, budget, today);
  }

  method RecordMerged(run: AutoDevRun, ghost sandbox: SW.SandboxWorktree, ghost queue: AQ.ApprovalQueue,
                      budget: RB.RateBudgetTracker, today: int)
    modifies run`state, run`transitions, budget
    ensures sandbox.View() == old(sandbox.View()) && queue.View() == old(queue.View())
    ensures run.View() == Moved(old(run.View()), Merged)
    ensures budget.current == if run.risk.Some? && run.risk.value.level == RR.Low
                              then RB.Recorded(old(budget.current), RB.LowRiskMerges, today) else old(budget.current)
  {
    if run.risk.Some? && run.risk.value.level == RR.Low {
      budget.RecordOne(RB.LowRiskMerges, today);
    }
    run.RecordTransition(Merged, false);
  }

  lemma BackAsItWas(w: World, id: string)
    requires id in w.runs
    ensures Back(w, id, DeskOf(w, id)) == w
  {
  }

  // ----- the orchestrator

  class AutoDevOrchestrator {
    const sandbox: SW.SandboxWorktree
    const queue: AQ.ApprovalQueue
    const budget: RB.RateBudgetTracker
    const modifier: SM.SelfModifier
    const killSwitch: KS.KillSwitch
    var runs: map<string, AutoDevRun>

    /** No two ids share a run, and each run shares its handle with the sandbox. */
    ghost predicate Valid()
      reads this, runs.Values, sandbox, queue, modifier
    {
      && sandbox.Valid() && queue.Valid() && modifier.Valid()
      && (forall i, j :: i in runs && j in runs && runs[i] == runs[j] ==> i == j)
      && (forall i :: i in runs ==> runs[i].Shares(sandbox, i) && (runs[i].state == Proposed ==> runs[i].worktreeHandle == null))
    }

    ghost function RunViews(): map<string, Run>
      reads this, runs.Values
    {
      map id | id in runs :: runs[id].View()
    }

    ghost function View(): World
      reads this, runs.Values, sandbox, sandbox.active.Values, queue, queue.requests.Values, budget, killSwitch
    {
      World(RunViews(), queue.View(), budget.current, sandbox.View(), killSwitch.IsActive())
    }

    constructor (sandbox: SW.SandboxWorktree, queue: AQ.ApprovalQueue, budget: RB.RateBudgetTracker,
                 modifier: SM.SelfModifier, killSwitch: KS.KillSwitch)
      requires sandbox.Valid() && queue.Valid() && modifier.Valid()
      ensures Valid() && runs == map[]
      ensures this.sandbox == sandbox && this.queue == queue && this.budget == budget
      ensures this.modifier == modifier && this.killSwitch == killSwitch
    {
      this.sandbox, this.queue, this.budget, this.modifier, this.killSwitch := sandbox, queue, budget, modifier, killSwitch;
      runs := map[];
    }

    /** When only the run under one id has changed, the world is that desk put back. */
    twostate lemma OneRunChanged(id: string)
      requires old(Valid()) && runs == old(runs) && id in runs
      requires forall i :: i in runs && i != id ==> unchanged(runs[i])
      requires killSwitch.IsActive() == old(killSwitch.IsActive())
      ensures View() == Back(old(View()), id, DeskNow(runs[id], sandbox, queue, budget))
    {
      assert RunViews() == old(RunViews())[id := runs[id].View()];
    }

    method Propose(id: string, blank: bool, diffLines: int, today: int) returns (e: Option<Error>)
      requires Valid()
      modifies this`runs, budget
      ensures Valid() && fresh(runs.Values - old(runs.Values))
      ensures (View(), e) == Proposing(old(View()), budget.limits, id, blank, diffLines, today)
    {
      e := None;
      if killSwitch.IsActive() {
        e := Some(KillSwitchActive);
      } else if blank {
        e := Some(EmptyDiff);
      } else {
        var within := CheckRunBudget(today);
        if within {
          StartRun(id, diffLines);
          RecordRunStarted(today);
        } else {
          e := Some(BudgetExhausted);
        }
      }
    }

    method CheckRunBudget(today: int) returns (within: bool)
      requires Valid()
      modifies budget
      ensures Valid() && View() == old(View()).(budget := RB.Rolled(old(View()).budget, today))
      ensures within == RB.Available(old(View()).budget, budget.limits, RB.Runs, today)
    {
      within := budget.CheckCan(RB.Runs, today);
    }

    method RecordRunStarted(today: int)
      requires Valid()
      modifies budget
      ensures Valid() && View() == old(View()).(budget := RB.Recorded(old(View()).budget, RB.Runs, today))
    {
      budget.RecordOne(RB.Runs, today);
    }

    method StartRun(id: string, diffLines: int)
      requires Valid()
      modifies this`runs
      ensures Valid() && fresh(runs.Values - old(runs.Values))
      ensures View() == old(View()).(runs := old(View()).runs[id := NewRun(diffLines)])
    {
      var run := SubmittedRun(diffLines);
      AddRun(id, run);
    }

    static method SubmittedRun(diffLines: int) returns (run: AutoDevRun)
      ensures fresh(run) && run.View() == NewRun(diffLines) && run.worktreeHandle == null
    {
      run := new AutoDevRun(diffLines);
      run.RecordTransition(Proposed, false);
    }

    method AddRun(id: string, run: AutoDevRun)
      requires Valid() && run !in runs.Values && run.worktreeHandle == null
      modifies this`runs
      ensures Valid() && runs == old(runs)[id := run]
      ensures View() == old(View()).(runs := old(View()).runs[id := run.View()])
    {
      assert forall i :: i in runs ==> runs[i] != run;
      runs := runs[id := run];
      assert RunViews() == old(RunViews())[id := run.View()];
    }

    /** A run that shares its handle, next to others that have not changed, keeps the whole valid. */
    twostate lemma OneRunKeepsValid(id: string)
      requires old(Valid()) && runs == old(runs) && id in runs
      requires forall i :: i in runs && i != id ==> unchanged(runs[i])
      requires sandbox.Valid() && queue.Valid() && modifier.Valid()
      requires forall i :: i in old(sandbox.active) ==> i in sandbox.active && sandbox.active[i] == old(sandbox.active)[i]
      requires runs[id].Shares(sandbox, id) && runs[id].state != Proposed
      ensures Valid()
    {
    }

    /** The kill-switch branch. */
    method Kill(id: string)
      requires Valid() && id in runs
      modifies runs.Values
      ensures Valid() && runs == old(runs)
      ensures View() == Back(old(View()), id, DeskOf(old(View()), id).(run := Killed(old(View()).runs[id])))
    {
      var run := runs[id];
      assert forall i :: i in runs && i != id ==> runs[i] != run;
      run.RecordTransition(Cancelled, true);
      OneRunChanged(id);
      OneRunKeepsValid(id);
    }

    method BuildRun(id: string, outside: Outside, today: int) returns (e: Option<Error>, ghost build: Build)
      requires Valid() && id in runs && runs[id].state == Proposed
      modifies runs.Values, sandbox, sandbox.active.Values, queue, budget, modifier
      ensures Valid() && runs == old(runs)
      ensures var (d, error) := Executed(DeskOf(old(View()), id), id, build, budget.limits, today);
        e == error && View() == Back(old(View()), id, d)
      ensures id !in old(sandbox.active) ==> Describes(build, outside, modifier.data, runs[id].diffLines)
    {
      var run := runs[id];
      e, build := ExecuteOnDesk(run, sandbox, queue, budget, modifier, id, outside, today);
      ExecutedLeavesProposed(old(DeskNow(run, sandbox, queue, budget)), id, build, budget.limits, today);
      OneRunChanged(id);
      OneRunKeepsValid(id);
    }

    method ExecuteBuildAndVerify(id: string, outside: Outside, today: int) returns (e: Option<Error>, ghost build: Build)
      requires Valid()
      modifies runs.Values, sandbox, sandbox.active.Values, queue, budget, modifier
      ensures Valid() && runs == old(runs)
      ensures (View(), e) == Executing(old(View()), budget.limits, id, build, today)
      ensures id in runs && old(runs[id].state) == Proposed && id !in old(sandbox.active) && !killSwitch.IsActive() ==>
        Describes(build, outside, modifier.data, runs[id].diffLines)
    {
      e, build := None, Build(false, false, [], false, None, None, 0);
      if id !in runs {
        e := Some(UnknownRun);
      } else if killSwitch.IsActive() {
        Kill(id);
      } else if runs[id].state != Proposed {
        e := Some(WrongState);
      } else {
        e, build := BuildRun(id, outside, today);
      }
    }

    method ResolveApproval(id: string, approved: bool) returns (e: Option<Error>)
      requires Valid()
      modifies runs.Values, sandbox.active.Values, queue.requests.Values
      ensures Valid() && runs == old(runs)
      ensures (View(), e) == Resolving(old(View()), id, approved)
    {
      if id !in runs {
        e := Some(UnknownRun);
      } else if runs[id].state != AwaitingApproval {
        e := Some(WrongState);
      } else if runs[id].approvalId.None? {
        e := Some(NoApprovalId);
      } else {
        e := AnswerRun(id, approved);
      }
    }

    method FinalizeMerge(id: string, today: int) returns (e: Option<Error>)
      requires Valid()
      modifies runs.Values, sandbox.active.Values, budget
      ensures Valid() && runs == old(runs)
      ensures (View(), e) == Finalizing(old(View()), id, today)
    {
      e := None;
      if id !in runs {
        e := Some(UnknownRun);
      } else if killSwitch.IsActive() {
        Kill(id);
      } else if runs[id].state != Approved {
        e := Some(WrongState);
      } else {
        MergeOnDesk(runs[id], sandbox, queue, budget, id, today);
        OneRunChanged(id);
        OneRunKeepsValid(id);
      }
    }

    method Cancel(id: string) returns (e: Option<Error>)
      requires Valid()
      modifies runs.Values, sandbox.active.Values
      ensures Valid() && runs == old(runs)
      ensures (View(), e) == Cancelling(old(View()), id)
    {
      e := None;
      if id !in runs {
        e := Some(UnknownRun);
      } else if !IsTerminal(runs[id].state) {
        CancelOnDesk(runs[id], sandbox, queue, budget, id);
        OneRunChanged(id);
        OneRunKeepsValid(id);
      }
    }

    method AnswerRun(id: string, approved: bool) returns (e: Option<Error>)
      requires Valid() && id in runs && runs[id].state == AwaitingApproval && runs[id].approvalId.Some?
      modifies runs.Values, sandbox.active.Values, queue.requests.Values
      ensures Valid() && runs == old(runs)
      ensures (View(), e) == Resolving(old(View()), id, approved)
    {
      e := AnswerOnDesk(runs[id], sandbox, queue, budget, id, runs[id].approvalId.value, approved);
      OneRunChanged(id);
      OneRunKeepsValid(id);
      BackAsItWas(old(View()), id);
    }
  }
}
