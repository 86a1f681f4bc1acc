/** The auto-dev pipeline as a value: runs, approval queue, budget, worktrees and kill switch, with one
    step for each orchestrator call. Every call is taken as atomic. */
module AutoDevSpec {
  import opened Common
  import SM = SelfModifier
  import VG = VerificationGate
  import RR = ResidualRisk
  import AQ = ApprovalQueue
  import RB = RateBudget
  import SW = SandboxWorktree
  import WD = WorktreeDiff

  datatype RunState = Proposed | Building | Verifying | AwaitingApproval | Approved | Merging | Merged | Rejected | Failed | Cancelled

  predicate IsTerminal(s: RunState) {
    s == Merged || s == Rejected || s == Failed || s == Cancelled
  }

  /** `byKillSwitch` stands for the reason text of the entries the kill switch writes. */
  datatype Transition = Transition(from: RunState, to: RunState, byKillSwitch: bool)

  /** `changes` is what the applied diff has done to the worktree; the program has no field for it.
      `files` is what it has captured of that. */
  datatype Run = Run(state: RunState, diffLines: int, hasWorktree: bool, files: seq<string>, changes: seq<WD.Change>,
                     report: Option<VG.Report>, risk: Option<RR.Assessment>, approvalId: Option<string>,
                     mergeBranch: Option<string>, transitions: seq<Transition>)

  function Moved(run: Run, to: RunState): Run {
    run.(state := to, transitions := run.transitions + [Transition(run.state, to, false)])
  }

  /** The kill-switch branches: any run, also a finished one, goes to CANCELLED. */
  function Killed(run: Run): Run {
    run.(state := Cancelled, transitions := run.transitions + [Transition(run.state, Cancelled, true)])
  }

  datatype World = World(runs: map<string, Run>, queue: AQ.Queue, budget: RB.Usage, worktrees: SW.Handles, halted: bool)

  datatype Error = KillSwitchActive | EmptyDiff | BudgetExhausted | UnknownRun | WrongState | NoApprovalId
                 | QueueError(error: AQ.Error)

  /** Different runs have different requests. */
  function ApprovalId(runId: string): (id: string)
    ensures |id| >= 5 && id[5..] == runId
  {
    "appr-" + runId
  }

  /** What the outside does during a build: git, the verification stages, the risk calculation. */
  datatype Build = Build(worktreeOk: bool, applyOk: bool, changes: seq<WD.Change>, diffOk: bool,
                         report: Option<VG.Report>, risk: Option<RR.Assessment>, expiresAt: int)
  {
    /** The diff git prints of the worktree, if it does. */
    function Diff(): Option<seq<string>> {
      if diffOk then Some(WD.DiffLines(changes)) else None
    }
  }

  // ----- the pieces one run works on

  datatype Desk = Desk(run: Run, queue: AQ.Queue, budget: RB.Usage, worktrees: SW.Handles)

  /** A failure after the worktree exists: clean it up, then record where the run ends. */
  function Dropped(d: Desk, id: string, to: RunState): Desk {
    d.(run := Moved(d.run, to), worktrees := SW.Cleaned(d.worktrees, id, false))
  }

  /** Worktree, diff, modified files. The second part says whether verification is reached. */
  function Built(d: Desk, id: string, worktreeOk: bool, applyOk: bool, changes: seq<WD.Change>, diff: Option<seq<string>>): (Desk, bool) {
    var d1 := d.(run := Moved(d.run, Building));
    match SW.Created(d1.worktrees, id, worktreeOk)
    case Err(_) => (d1.(run := Moved(d1.run, Failed)), false)
    case Ok(worktrees) =>
      var d2 := d1.(run := d1.run.(hasWorktree := true), worktrees := worktrees);
      if !applyOk then (Dropped(d2, id, Failed), false)
      else FilesCaptured(d2.(run := d2.run.(changes := changes)), id, diff)
  }

  function FilesCaptured(d: Desk, id: string, diff: Option<seq<string>>): (Desk, bool) {
    match SW.Captured(d.worktrees, id, diff)
    case Err(_) => (Dropped(d, id, Failed), false)
    case Ok(captured) => (d.(run := Moved(d.run.(files := captured[id].files), Verifying), worktrees := captured), true)
  }

  /** Verification report and risk assessment. */
  function Verified(d: Desk, id: string, report: Option<VG.Report>, risk: Option<RR.Assessment>): (Desk, bool) {
    if report.None? then (Dropped(d, id, Failed), false)
    else Assessed(d.(run := d.run.(report := report)), id, report.value.Passed(), risk)
  }

  /** The assessment is made, and kept, even when verification failed. */
  function Assessed(d: Desk, id: string, passed: bool, risk: Option<RR.Assessment>): (Desk, bool) {
    if risk.None? then (Dropped(d, id, Failed), false)
    else
      var d1 := d.(run := d.run.(risk := risk));
      if passed then (d1, true) else (Dropped(d1, id, Failed), false)
  }

  /** The run once its request is in the queue. */
  function Entered(run: Run, id: string, level: RR.Level): Run {
    Moved(run.(approvalId := Some(ApprovalId(id))), if level == RR.Low then Approved else AwaitingApproval)
  }

  /** The check and the record of a medium or higher proposal. Low risk costs nothing here. */
  function Charged(u: RB.Usage, level: RR.Level, limits: RB.Limits, today: int): (RB.Usage, bool) {
    if level == RR.Low then (u, true)
    else if RB.Available(u, limits, RB.MediumPlus, today) then (RB.Recorded(u, RB.MediumPlus, today), true)
    else (RB.Rolled(u, today), false)
  }

  /** Rejection by risk, the budget of medium and higher proposals, and the approval queue. */
  function Decided(d: Desk, id: string, a: RR.Assessment, limits: RB.Limits, today: int, expiresAt: int): (Desk, Option<Error>) {
    if a.recommendation == RR.Reject then (Dropped(d, id, Rejected), None)
    else
      var (budget, within) := Charged(d.budget, a.level, limits, today);
      if !within then (Dropped(d.(budget := budget), id, Rejected), None)
      else match AQ.Submitted(d.queue, ApprovalId(id), id, a.level, expiresAt)
        case Err(e) => (d.(budget := budget), Some(QueueError(e)))
        case Ok(queue) => (d.(run := Entered(d.run, id, a.level), budget := budget, queue := queue), None)
  }

  /** Everything after the build. */
  function Reviewed(d: Desk, id: string, report: Option<VG.Report>, risk: Option<RR.Assessment>, expiresAt: int,
                    limits: RB.Limits, today: int): (Desk, Option<Error>) {
    var (verified, toDecide) := Verified(d, id, report, risk);
    if !toDecide then (verified, None) else Decided(verified, id, risk.value, limits, today, expiresAt)
  }

  function Executed(d: Desk, id: string, build: Build, limits: RB.Limits, today: int): (Desk, Option<Error>) {
    var (built, toVerify) := Built(d, id, build.worktreeOk, build.applyOk, build.changes, build.Diff());
    if !toVerify then (built, None) else Reviewed(built, id, build.report, build.risk, build.expiresAt, limits, today)
  }

  // ----- orchestrator calls

  datatype Event =
    | Propose(id: string, blank: bool, diffLines: int, today: int)
    | Execute(id: string, build: Build, today: int)
    | Resolve(id: string, approved: bool)
    | FinalizeMerge(id: string, today: int)
    | Cancel(id: string)
    | SetHalt(halted: bool)
    | ExpireApprovals(now: int)

  function DeskOf(w: World, id: string): Desk
    requires id in w.runs
  {
    Desk(w.runs[id], w.queue, w.budget, w.worktrees)
  }

  function Back(w: World, id: string, d: Desk): World {
    World(w.runs[id := d.run], d.queue, d.budget, d.worktrees, w.halted)
  }

  function NewRun(diffLines: int): Run {
    Moved(Run(Proposed, diffLines, false, [], [], None, None, None, None, []), Proposed)
  }

  function Proposing(w: World, limits: RB.Limits, id: string, blank: bool, diffLines: int, today: int): (World, Option<Error>) {
    if w.halted then (w, Some(KillSwitchActive))
    else if blank then (w, Some(EmptyDiff))
    else if !RB.Available(w.budget, limits, RB.Runs, today) then (w.(budget := RB.Rolled(w.budget, today)), Some(BudgetExhausted))
    else (w.(runs := w.runs[id := NewRun(diffLines)], budget := RB.Recorded(w.budget, RB.Runs, today)), None)
  }

  function Executing(w: World, limits: RB.Limits, id: string, build: Build, today: int): (World, Option<Error>) {
    if id !in w.runs then (w, Some(UnknownRun))
    else if w.halted then (w.(runs := w.runs[id := Killed(w.runs[id])]), None)
    else if w.runs[id].state != Proposed then (w, Some(WrongState))
    else
      var (d, e) := Executed(DeskOf(w, id), id, build, limits, today);
      (Back(w, id, d), e)
  }

  /** What a decided answer does to its run. */
  function Settled(d: Desk, id: string, approved: bool): Desk {
    if approved then d.(run := Moved(d.run, Approved))
    else if d.run.hasWorktree then Dropped(d, id, Rejected)
    else d.(run := Moved(d.run, Rejected))
  }

  function Resolving(w: World, id: string, approved: bool): (World, Option<Error>) {
    if id !in w.runs then (w, Some(UnknownRun))
    else if w.runs[id].state != AwaitingApproval then (w, Some(WrongState))
    else if w.runs[id].approvalId.None? then (w, Some(NoApprovalId))
    else match AQ.Resolved(w.queue, w.runs[id].approvalId.value, if approved then AQ.Approved else AQ.Rejected)
      case Err(e) => (w, Some(QueueError(e)))
      case Ok(queue) => (Back(w, id, Settled(DeskOf(w, id).(queue := queue), id, approved)), None)
  }

  /** The merge itself is left to a human; the branch is kept for it. */
  function MergedDesk(d: Desk, id: string, today: int): Desk {
    var d1 := d.(run := Moved(d.run, Merging));
    var d2 := if d1.run.hasWorktree
              then d1.(run := d1.run.(mergeBranch := Some(SW.BranchOf(id))), worktrees := SW.Cleaned(d1.worktrees, id, true))
              else d1;
    var d3 := if d2.run.risk.Some? && d2.run.risk.value.level == RR.Low
              then d2.(budget := RB.Recorded(d2.budget, RB.LowRiskMerges, today)) else d2;
    d3.(run := Moved(d3.run, Merged))
  }

  function Finalizing(w: World, id: string, today: int): (World, Option<Error>) {
    if id !in w.runs then (w, Some(UnknownRun))
    else if w.halted then (w.(runs := w.runs[id := Killed(w.runs[id])]), None)
    else if w.runs[id].state != Approved then (w, Some(WrongState))
    else (Back(w, id, MergedDesk(DeskOf(w, id), id, today)), None)
  }

  function CancelledDesk(d: Desk, id: string): Desk {
    d.(run := Moved(d.run, Cancelled),
       worktrees := if d.run.hasWorktree then SW.Cleaned(d.worktrees, id, false) else d.worktrees)
  }

  function Cancelling(w: World, id: string): (World, Option<Error>) {
    if id !in w.runs then (w, Some(UnknownRun))
    else if IsTerminal(w.runs[id].state) then (w, None)
    else (Back(w, id, CancelledDesk(DeskOf(w, id), id)), None)
  }

  function After(w: World, limits: RB.Limits, e: Event): World {
    match e
    case Propose(id, blank, diffLines, today) => Proposing(w, limits, id, blank, diffLines, today).0
    case Execute(id, build, today) => Executing(w, limits, id, build, today).0
    case Resolve(id, approved) => Resolving(w, id, approved).0
    case FinalizeMerge(id, today) => Finalizing(w, id, today).0
    case Cancel(id) => Cancelling(w, id).0
    case SetHalt(halted) => w.(halted := halted)
    case ExpireApprovals(now) => w.(queue := AQ.Expired(w.queue, now))
  }

  /** Run ids are unique, and an assessment that is made is the one the risk calculation prescribes for
      the report, the captured files and the size of the diff. */
  ghost predicate Allowed(w: World, b: SM.Boundaries, e: Event) {
    match e
    case Propose(id, _, _, _) => id !in w.runs
    case Execute(id, build, _) =>
      id in w.runs && build.diffOk && build.report.Some? && build.risk.Some? ==>
        RR.IsAssessment(b, !build.report.value.Passed(), WD.FilesOf(WD.DiffLines(build.changes)), w.runs[id].diffLines, build.risk.value)
    case _ => true
  }

  ghost predicate AllowedRun(w: World, b: SM.Boundaries, limits: RB.Limits, events: seq<Event>)
    decreases |events|
  {
    events == [] || (Allowed(w, b, events[0]) && AllowedRun(After(w, limits, events[0]), b, limits, events[1..]))
  }

  function RunAll(w: World, limits: RB.Limits, events: seq<Event>): World
    decreases |events|
  {
    if events == [] then w else RunAll(After(w, limits, events[0]), limits, events[1..])
  }

  function Start(today: int, halted: bool): World {
    World(map[], map[], RB.Usage(today, 0, 0, 0), map[], halted)
  }
}
