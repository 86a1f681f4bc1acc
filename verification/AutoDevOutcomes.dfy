/** Where each call of the auto-dev pipeline takes its run, said without the functions that compute it, and
    how many builds a day lets through. */
module AutoDevOutcomes {
  import opened Common
  import SM = SelfModifier
  import RR = ResidualRisk
  import AQ = ApprovalQueue
  import RB = RateBudget
  import SW = SandboxWorktree
  import WD = WorktreeDiff
  import opened AutoDevSpec
  import opened AutoDevSafety
  import opened AutoDevPromises

  // ----- builds

  /** Everything up to the decision succeeds: the worktree, the diff, a passing report, an assessment. */
  predicate Reviewable(build: Build) {
    && build.worktreeOk && build.applyOk && build.diffOk
    && build.report.Some? && build.report.value.Passed() && build.risk.Some?
  }

  /** Fewer medium and higher proposals than allowed have been counted on that day. */
  predicate HasRoom(u: RB.Usage, limits: RB.Limits, today: int) {
    (if u.date == today then u.mediumPlus else 0) < limits.mediumPlus
  }

  /** The budget on that day, with so many medium and higher proposals more. */
  predicate Counted(before: RB.Usage, after: RB.Usage, today: int, more: nat) {
    && (after.date == before.date || after.date == today)
    && (more > 0 ==> after.date == today)
    && after.mediumPlus == (if after.date == before.date then before.mediumPlus else 0) + more
  }

  /** Where a build ends. A medium or higher proposal that is let through, and no other build, is counted. */
  predicate EndsRight(build: Build, before: RB.Usage, limits: RB.Limits, today: int, end: RunState, after: RB.Usage) {
    if !Reviewable(build) then end == Failed && Counted(before, after, today, 0)
    else if build.risk.value.recommendation == RR.Reject then end == Rejected && Counted(before, after, today, 0)
    else if build.risk.value.level == RR.Low then end == Approved && Counted(before, after, today, 0)
    else if !HasRoom(before, limits, today) then end == Rejected && Counted(before, after, today, 0)
    else end == AwaitingApproval && Counted(before, after, today, 1)
  }

  lemma DecisionEndsRight(id: string, d: Desk, build: Build, limits: RB.Limits, today: int)
    requires Underway(id, d) && Reviewable(build)
    ensures var (h, _) := Decided(d, id, build.risk.value, limits, today, build.expiresAt);
      EndsRight(build, d.budget, limits, today, h.run.state, h.budget)
  {
  }

  lemma ReviewEndsRight(b: SM.Boundaries, id: string, d: Desk, build: Build, limits: RB.Limits, today: int)
    requires Underway(id, d) && BudgetOk(d.budget, limits) && BuildsWell(build)
    ensures var (h, _) := Reviewed(d, id, build.report, build.risk, build.expiresAt, limits, today);
      EndsRight(build, d.budget, limits, today, h.run.state, h.budget)
  {
    VerifiedIsOk(b, limits, id, d, build);
    if Reviewable(build) {
      DecisionEndsRight(id, Verified(d, id, build.report, build.risk).0, build, limits, today);
    }
  }

  lemma BuildEndsRight(b: SM.Boundaries, id: string, d: Desk, build: Build, limits: RB.Limits, today: int)
    requires DeskOk(b, limits, id, d) && d.run.state == Proposed
    ensures var (h, _) := Executed(d, id, build, limits, today);
      EndsRight(build, d.budget, limits, today, h.run.state, h.budget)
  {
    if BuildsWell(build) {
      BuiltWellIsOk(b, limits, id, d, build);
      ReviewEndsRight(b, id, Built(d, id, build.worktreeOk, build.applyOk, build.changes, build.Diff()).0, build, limits, today);
    } else {
      UnbuiltEndsRight(id, d, build, limits, today);
    }
  }

  lemma UnbuiltEndsRight(id: string, d: Desk, build: Build, limits: RB.Limits, today: int)
    requires !BuildsWell(build) && d.run.state == Proposed && At(d.worktrees, id) == None
    ensures var (h, _) := Executed(d, id, build, limits, today); h.run.state == Failed && h.budget == d.budget
  {
  }

  /** What a build leaves behind: what was found out on the way, also when it fails, and for a run that is
      let through a request that says what the assessment says. */
  predicate LeavesRight(id: string, before: Run, build: Build, after: Run, request: Option<AQ.Request>) {
    && after.diffLines == before.diffLines
    && (build.worktreeOk && build.applyOk ==> after.changes == build.changes)
    && (BuildsWell(build) ==> after.files == WD.FilesOf(WD.DiffLines(build.changes)))
    && (BuildsWell(build) && build.report.Some? ==> after.report == build.report)
    && (BuildsWell(build) && build.report.Some? && build.risk.Some? ==> after.risk == build.risk)
    && (if after.state == Approved || after.state == AwaitingApproval
        then build.risk.Some? && request == Some(AQ.Request(id, build.risk.value.level,
                                                   if after.state == Approved then AQ.AutoApproved else AQ.Pending, build.expiresAt))
        else request == None)
  }

  lemma DecisionLeavesRight(id: string, before: Run, d: Desk, build: Build, limits: RB.Limits, today: int)
    requires Underway(id, d) && build.report.Some? && build.risk.Some? && before.diffLines == d.run.diffLines
    requires d.run.changes == build.changes && d.run.files == WD.FilesOf(WD.DiffLines(build.changes))
    requires d.run.report == build.report && d.run.risk == build.risk
    ensures var (h, _) := Decided(d, id, build.risk.value, limits, today, build.expiresAt);
      LeavesRight(id, before, build, h.run, At(h.queue, ApprovalId(id)))
  {
  }

  lemma ReviewLeavesRight(b: SM.Boundaries, id: string, d: Desk, build: Build, limits: RB.Limits, today: int)
    requires Underway(id, d) && BudgetOk(d.budget, limits) && BuildsWell(build)
    requires d.run.changes == build.changes && d.run.files == WD.FilesOf(WD.DiffLines(build.changes))
    ensures var (h, _) := Reviewed(d, id, build.report, build.risk, build.expiresAt, limits, today);
      LeavesRight(id, d.run, build, h.run, At(h.queue, ApprovalId(id)))
  {
    if Reviewable(build) {
      VerifiedIsOk(b, limits, id, d, build);
      DecisionLeavesRight(id, d.run, Verified(d, id, build.report, build.risk).0, build, limits, today);
    } else {
      FailureLeavesRight(id, d, build, limits, today);
    }
  }

  lemma FailureLeavesRight(id: string, d: Desk, build: Build, limits: RB.Limits, today: int)
    requires Underway(id, d) && BuildsWell(build) && !Reviewable(build)
    requires d.run.changes == build.changes && d.run.files == WD.FilesOf(WD.DiffLines(build.changes))
    ensures var (h, _) := Reviewed(d, id, build.report, build.risk, build.expiresAt, limits, today);
      LeavesRight(id, d.run, build, h.run, At(h.queue, ApprovalId(id)))
  {
  }

  lemma BuildLeavesRight(b: SM.Boundaries, id: string, d: Desk, build: Build, limits: RB.Limits, today: int)
    requires DeskOk(b, limits, id, d) && d.run.state == Proposed
    ensures var (h, _) := Executed(d, id, build, limits, today);
      LeavesRight(id, d.run, build, h.run, At(h.queue, ApprovalId(id)))
  {
    if BuildsWell(build) {
      BuiltWellIsOk(b, limits, id, d, build);
      ReviewLeavesRight(b, id, Built(d, id, build.worktreeOk, build.applyOk, build.changes, build.Diff()).0, build, limits, today);
    }
  }

  // ----- the builds of a day that go to a human

  /** The event is a build that leaves its run awaiting approval. */
  predicate EntersReview(w: World, limits: RB.Limits, e: Event) {
    && e.Execute? && e.id in w.runs && w.runs[e.id].state != AwaitingApproval
    && var h := After(w, limits, e); e.id in h.runs && h.runs[e.id].state == AwaitingApproval
  }

  /** How many of those there are on a day. */
  function EnteredOn(w: World, limits: RB.Limits, events: seq<Event>, day: int): nat
    decreases |events|
  {
    if events == [] then 0
    else
      var n := |events| - 1;
      EnteredOn(w, limits, events[..n], day)
        + if DayOf(events[n]) == Some(day) && EntersReview(RunAll(w, limits, events[..n]), limits, events[n]) then 1 else 0
  }

  /** What one event does to the counter. */
  predicate CountsRight(before: RB.Usage, after: RB.Usage, limits: RB.Limits, day: Option<int>, enters: bool) {
    && (after.date == before.date || day == Some(after.date))
    && (enters ==> day == Some(after.date) && after.mediumPlus <= limits.mediumPlus)
    && after.mediumPlus == (if after.date == before.date then before.mediumPlus else 0) + (if enters then 1 else 0)
  }

  /** Only builds touch the counter; the others at most start a new day. */
  lemma OthersDoNotCount(w: World, limits: RB.Limits, e: Event)
    requires !e.Execute?
    ensures CountsRight(w.budget, After(w, limits, e).budget, limits, DayOf(e), false)
  {
  }

  lemma BuildEndsRightInWorld(w: World, b: SM.Boundaries, limits: RB.Limits, id: string, build: Build, today: int)
    requires Good(w, b, limits) && id in w.runs && !w.halted && w.runs[id].state == Proposed
    ensures var h := After(w, limits, Execute(id, build, today));
      id in h.runs && EndsRight(build, w.budget, limits, today, h.runs[id].state, h.budget)
  {
    var d := DeskOf(w, id);
    assert DeskOk(b, limits, id, d);
    BuildEndsRight(b, id, d, build, limits, today);
    BuildIsOnDesk(w, limits, id, build, today, Executed(d, id, build, limits, today).0);
  }

  lemma BuildIsOnDesk(w: World, limits: RB.Limits, id: string, build: Build, today: int, d: Desk)
    requires id in w.runs && !w.halted && w.runs[id].state == Proposed
    requires d == Executed(DeskOf(w, id), id, build, limits, today).0
    ensures var h := After(w, limits, Execute(id, build, today)); id in h.runs && h.runs[id] == d.run && h.budget == d.budget
  {
  }

  lemma NoBuild(w: World, limits: RB.Limits, id: string, build: Build, today: int)
    requires !(id in w.runs && !w.halted && w.runs[id].state == Proposed)
    ensures var h := After(w, limits, Execute(id, build, today));
      h.budget == w.budget && (id in w.runs ==> id in h.runs && h.runs[id].state in {w.runs[id].state, Cancelled})
  {
  }

  lemma BuildCounts(w: World, b: SM.Boundaries, limits: RB.Limits, e: Event)
    requires Good(w, b, limits) && e.Execute?
    ensures CountsRight(w.budget, After(w, limits, e).budget, limits, Some(e.today), EntersReview(w, limits, e))
  {
    if e.id in w.runs && !w.halted && w.runs[e.id].state == Proposed {
      BuildEndsRightInWorld(w, b, limits, e.id, e.build, e.today);
    } else {
      NoBuild(w, limits, e.id, e.build, e.today);
    }
  }

  lemma EntryStep(w: World, b: SM.Boundaries, limits: RB.Limits, e: Event)
    requires Good(w, b, limits)
    ensures CountsRight(w.budget, After(w, limits, e).budget, limits, DayOf(e), EntersReview(w, limits, e))
  {
    if e.Execute? {
      BuildCounts(w, b, limits, e);
    } else {
      OthersDoNotCount(w, limits, e);
    }
  }

  lemma {:induction false} AllowedFront(w: World, b: SM.Boundaries, limits: RB.Limits, events: seq<Event>, e: Event)
    requires AllowedRun(w, b, limits, events + [e])
    ensures AllowedRun(w, b, limits, events) && Allowed(RunAll(w, limits, events), b, e)
    decreases |events|
  {
    if events == [] {
      assert events + [e] == [e];
    } else {
      assert (events + [e])[0] == events[0] && (events + [e])[1..] == events[1..] + [e];
      AllowedFront(After(w, limits, events[0]), b, limits, events[1..], e);
    }
  }

  /** After so many entries on its own day and on another the counter says the same and the cap holds. */
  predicate Tallies(u: RB.Usage, limits: RB.Limits, today: nat, day: int, entered: nat) {
    && today == u.mediumPlus
    && (day > u.date ==> entered == 0)
    && (entered == 0 || entered <= limits.mediumPlus)
  }

  lemma EnteredOneMore(w: World, limits: RB.Limits, before: seq<Event>, e: Event, day: int)
    ensures EnteredOn(w, limits, before + [e], day)
         == EnteredOn(w, limits, before, day) + if DayOf(e) == Some(day) && EntersReview(RunAll(w, limits, before), limits, e) then 1 else 0
  {
    assert (before + [e])[..|before|] == before;
  }

  /** With a clock that never goes back the counter is the number of the day's builds that went to a human,
      later days have none yet, and no day has more than the cap. */
  lemma {:induction false} EntriesAreCounted(w: World, b: SM.Boundaries, limits: RB.Limits, events: seq<Event>, day: int)
    requires Good(w, b, limits) && AllowedRun(w, b, limits, events)
    requires w.budget.mediumPlus == 0 && ClockAscends(events, w.budget.date)
    ensures var u := RunAll(w, limits, events).budget;
      Tallies(u, limits, EnteredOn(w, limits, events, u.date), day, EnteredOn(w, limits, events, day))
    decreases |events|, 0
  {
    if events == [] {
      NothingEnteredYet(w, limits, day);
    } else {
      var before, e := events[..|events| - 1], events[|events| - 1];
      assert before + [e] == events;
      FrontIsAllowed(w, b, limits, before, e);
      EntryIsCounted(w, b, limits, before, e, day);
    }
  }

  lemma NothingEnteredYet(w: World, limits: RB.Limits, day: int)
    requires w.budget.mediumPlus == 0
    ensures RunAll(w, limits, []) == w && EnteredOn(w, limits, [], w.budget.date) == EnteredOn(w, limits, [], day) == 0
  {
  }

  lemma FrontIsAllowed(w: World, b: SM.Boundaries, limits: RB.Limits, before: seq<Event>, e: Event)
    requires AllowedRun(w, b, limits, before + [e]) && ClockAscends(before + [e], w.budget.date)
    ensures AllowedRun(w, b, limits, before) && ClockAscends(before, w.budget.date)
    ensures DayOf(e).Some? ==> RunAll(w, limits, before).budget.date <= DayOf(e).value
  {
    AllowedFront(w, b, limits, before, e);
    FrontAscends(before, e, w.budget.date);
    if DayOf(e).Some? {
      LastIsNotBehind(w, limits, before, e);
    }
  }

  lemma EntryIsCounted(w: World, b: SM.Boundaries, limits: RB.Limits, before: seq<Event>, e: Event, day: int)
    requires Good(w, b, limits) && AllowedRun(w, b, limits, before)
    requires w.budget.mediumPlus == 0 && ClockAscends(before, w.budget.date)
    requires DayOf(e).Some? ==> RunAll(w, limits, before).budget.date <= DayOf(e).value
    ensures var events := before + [e]; var u := RunAll(w, limits, events).budget;
      Tallies(u, limits, EnteredOn(w, limits, events, u.date), day, EnteredOn(w, limits, events, day))
    decreases |before|, 1
  {
    var mid := RunAll(w, limits, before);
    var u := After(mid, limits, e).budget;
    RunAllLast(w, limits, before, e);
    RunKeepsGood(w, b, limits, before);
    EntryStep(mid, b, limits, e);
    EnteredOneMore(w, limits, before, e, day);
    EnteredOneMore(w, limits, before, e, u.date);
    EntriesAreCounted(w, b, limits, before, day);
    EntriesAreCounted(w, b, limits, before, u.date);
  }

  /** No day ever sends more builds to a human than the cap on medium and higher proposals. */
  lemma ReviewsOfADayKeepTheCap(b: SM.Boundaries, limits: RB.Limits, today: int, halted: bool, events: seq<Event>, day: int)
    requires AllowedRun(Start(today, halted), b, limits, events) && ClockAscends(events, today)
    ensures var entered := EnteredOn(Start(today, halted), limits, events, day); entered == 0 || entered <= limits.mediumPlus
  {
    EntriesAreCounted(Start(today, halted), b, limits, events, day);
  }

  /** The counter leaves room exactly when fewer than the cap have gone to a human on that day. */
  lemma RoomExactly(b: SM.Boundaries, limits: RB.Limits, s: World, events: seq<Event>, day: int)
    requires Good(s, b, limits) && AllowedRun(s, b, limits, events) && s.budget.mediumPlus == 0
    requires ClockAscends(events, s.budget.date) && RunAll(s, limits, events).budget.date <= day
    ensures HasRoom(RunAll(s, limits, events).budget, limits, day) <==> EnteredOn(s, limits, events, day) < limits.mediumPlus
  {
    EntriesAreCounted(s, b, limits, events, day);
  }

  /** A reviewable build of more than low risk goes to a human exactly when fewer than the cap have gone
      there on that day; else it is rejected. */
  lemma RejectedExactlyWhenDayIsFull(b: SM.Boundaries, limits: RB.Limits, today: int, halted: bool, events: seq<Event>, e: Event)
    requires AllowedRun(Start(today, halted), b, limits, events) && ClockAscends(events + [e], today)
    requires e.Execute? && Reviewable(e.build) && e.build.risk.value.recommendation != RR.Reject && e.build.risk.value.level != RR.Low
    requires var w := RunAll(Start(today, halted), limits, events); !w.halted && e.id in w.runs && w.runs[e.id].state == Proposed
    ensures var h := After(RunAll(Start(today, halted), limits, events), limits, e);
      && e.id in h.runs
      && h.runs[e.id].state == if EnteredOn(Start(today, halted), limits, events, e.today) < limits.mediumPlus then AwaitingApproval else Rejected
  {
    var s := Start(today, halted);
    RunKeepsGood(s, b, limits, events);
    FrontAscends(events, e, today);
    LastIsNotBehind(s, limits, events, e);
    RoomExactly(b, limits, s, events, e.today);
    BuildEndsRightInWorld(RunAll(s, limits, events), b, limits, e.id, e.build, e.today);
  }

  lemma LastIsNotBehind(w: World, limits: RB.Limits, events: seq<Event>, e: Event)
    requires ClockAscends(events + [e], w.budget.date) && DayOf(e).Some?
    ensures RunAll(w, limits, events).budget.date <= DayOf(e).value
  {
    assert (events + [e])[..|events|] == events;
    NotAheadOfLast(w, limits, events + [e]);
  }

  lemma FrontAscends(events: seq<Event>, e: Event, from: int)
    requires ClockAscends(events + [e], from)
    ensures ClockAscends(events, from)
  {
    assert forall i :: 0 <= i < |events| ==> (events + [e])[i] == events[i];
  }

  // ----- every call

  /** Where a build ends in every world that calls lead to, and what it leaves behind. */
  lemma BuildEndsExactly(w: World, b: SM.Boundaries, limits: RB.Limits, id: string, build: Build, today: int)
    requires Reached(w, b, limits) && id in w.runs && !w.halted && w.runs[id].state == Proposed
    ensures var h := After(w, limits, Execute(id, build, today));
      && id in h.runs
      && EndsRight(build, w.budget, limits, today, h.runs[id].state, h.budget)
      && LeavesRight(id, w.runs[id], build, h.runs[id], At(h.queue, ApprovalId(id)))
  {
    ReachedIsGood(w, b, limits);
    BuildEndsRightInWorld(w, b, limits, id, build, today);
    var d := DeskOf(w, id);
    assert DeskOk(b, limits, id, d);
    BuildLeavesRight(b, id, d, build, limits, today);
    var h := Executed(d, id, build, limits, today).0;
    BuildIsOnDesk(w, limits, id, build, today, h);
    assert After(w, limits, Execute(id, build, today)).queue == h.queue;
  }

  /** A proposal succeeds exactly when the kill switch is off, the diff is not blank and the day has runs
      left; then there is a proposed run with its diff size, and nothing else has changed but the budget. */
  lemma ProposalSucceedsExactlyWhen(w: World, limits: RB.Limits, id: string, blank: bool, diffLines: int, today: int)
    requires id !in w.runs
    ensures var h := After(w, limits, Propose(id, blank, diffLines, today));
      && (id in h.runs <==> !w.halted && !blank && (if w.budget.date == today then w.budget.runs else 0) < limits.runs)
      && (id in h.runs ==> h.runs[id].state == Proposed && h.runs[id].diffLines == diffLines && !h.runs[id].hasWorktree)
      && h.runs - {id} == w.runs && h.queue == w.queue && h.worktrees == w.worktrees
  {
  }

  /** An answer to a pending request settles the run and the request together; a refusal cleans the
      worktree up. */
  lemma AnswerSettlesBoth(w: World, b: SM.Boundaries, limits: RB.Limits, id: string, approved: bool)
    requires Reached(w, b, limits) && id in w.runs && w.runs[id].state == AwaitingApproval
    requires At(w.queue, ApprovalId(id)).Some? && w.queue[ApprovalId(id)].state == AQ.Pending
    ensures var h := After(w, limits, Resolve(id, approved));
      && id in h.runs && ApprovalId(id) in h.queue && id in h.worktrees
      && (if approved then h.runs[id].state == Approved && h.queue[ApprovalId(id)].state == AQ.Approved && h.worktrees == w.worktrees
          else h.runs[id].state == Rejected && h.queue[ApprovalId(id)].state == AQ.Rejected
               && h.worktrees[id].cleanedUp && h.worktrees[id].branchDeleted)
  {
    ReachedIsGood(w, b, limits);
    assert DeskOk(b, limits, id, DeskOf(w, id));
  }

  /** A cancellation ends every unfinished run in CANCELLED, with its worktree and its branch gone. */
  lemma CancelEndsUnfinished(w: World, b: SM.Boundaries, limits: RB.Limits, id: string)
    requires Reached(w, b, limits) && id in w.runs && !IsTerminal(w.runs[id].state)
    ensures var h := After(w, limits, Cancel(id));
      && id in h.runs && h.runs[id].state == Cancelled && h.queue == w.queue && h.budget == w.budget
      && (id in h.worktrees <==> id in w.worktrees)
      && (id in h.worktrees ==> h.worktrees[id].cleanedUp && h.worktrees[id].branchDeleted)
  {
    ReachedIsGood(w, b, limits);
    assert DeskOk(b, limits, id, DeskOf(w, id));
  }

  /** A merge ends an approved run in MERGED: the worktree goes, the branch stays, and the budget has one
      more low-risk merge exactly when the run is of low risk. */
  lemma MergeEndsApproved(w: World, b: SM.Boundaries, limits: RB.Limits, id: string, today: int)
    requires Reached(w, b, limits) && id in w.runs && w.runs[id].state == Approved && !w.halted
    ensures var h := After(w, limits, FinalizeMerge(id, today));
      && id in h.runs && h.runs[id].state == Merged && h.queue == w.queue
      && id in h.worktrees && h.worktrees[id].cleanedUp && !h.worktrees[id].branchDeleted
      && h.runs[id].mergeBranch == Some(h.worktrees[id].branch)
      && w.runs[id].risk.Some?
      && (if w.runs[id].risk.value.level == RR.Low
          then h.budget.date == today && h.budget.lowRiskMerges == 1 + if w.budget.date == today then w.budget.lowRiskMerges else 0
          else h.budget == w.budget)
  {
    ReachedIsGood(w, b, limits);
    assert DeskOk(b, limits, id, DeskOf(w, id));
  }

  /** While the kill switch is active a build or a merge cancels its run, whatever state that is in. */
  lemma HaltedCallCancels(w: World, limits: RB.Limits, e: Event)
    requires w.halted && (e.Execute? || e.FinalizeMerge?) && e.id in w.runs
    ensures var h := After(w, limits, e);
      && e.id in h.runs && h.runs[e.id].state == Cancelled
      && h.queue == w.queue && h.worktrees == w.worktrees && h.budget == w.budget
  {
  }

  /** The call finds its run in the state it asks for. */
  predicate Fits(w: World, e: Event) {
    match e
    case Execute(id, _, _) => id in w.runs && (w.halted || w.runs[id].state == Proposed)
    case Resolve(id, _) =>
      && id in w.runs && w.runs[id].state == AwaitingApproval
      && ApprovalId(id) in w.queue && w.queue[ApprovalId(id)].state == AQ.Pending
    case FinalizeMerge(id, _) => id in w.runs && (w.halted || w.runs[id].state == Approved)
    case Cancel(id) => id in w.runs && !IsTerminal(w.runs[id].state)
    case _ => true
  }

  /** A call that does not find its run in the right state changes nothing at all. */
  lemma MisplacedCallsChangeNothing(w: World, b: SM.Boundaries, limits: RB.Limits, e: Event)
    requires Reached(w, b, limits) && !Fits(w, e)
    ensures After(w, limits, e) == w
  {
    ReachedIsGood(w, b, limits);
    if e.Resolve? && e.id in w.runs && w.runs[e.id].state == AwaitingApproval {
      AnswerIsTakenExactlyWhenPending(w, b, limits, e.id, e.approved);
      assert DeskOk(b, limits, e.id, DeskOf(w, e.id));
    }
  }

  predicate SameFor(w: World, h: World, id: string)
    requires id in w.runs
  {
    && id in h.runs && h.runs[id] == w.runs[id]
    && At(h.queue, ApprovalId(id)) == At(w.queue, ApprovalId(id)) && At(h.worktrees, id) == At(w.worktrees, id)
  }

  lemma BuildStaysAway(w: World, b: SM.Boundaries, limits: RB.Limits, e: Event, id: string)
    requires Good(w, b, limits) && Allowed(w, b, e) && e.Execute? && id in w.runs && e.id != id
    ensures SameFor(w, After(w, limits, e), id)
  {
    if e.id in w.runs && !w.halted && w.runs[e.id].state == Proposed {
      var d := DeskOf(w, e.id);
      assert DeskOk(b, limits, e.id, d);
      ExecutedIsOk(b, e.id, d, e.build, limits, e.today);
      var h := Executed(d, e.id, e.build, limits, e.today).0;
      DeskStaysAway(w, e.id, h, id);
      assert After(w, limits, e) == Back(w, e.id, h);
    }
  }

  lemma DeskStaysAway(w: World, id: string, d: Desk, other: string)
    requires OnlyTouches(id, DeskOf(w.(runs := w.runs[id := d.run]), id), d) && other in w.runs && other != id
    ensures SameFor(w, Back(w, id, d), other)
  {
    assert ApprovalId(other)[5..] == other && ApprovalId(id)[5..] == id;
  }

  lemma AnswerStaysAway(w: World, b: SM.Boundaries, limits: RB.Limits, e: Event, id: string)
    requires Good(w, b, limits) && e.Resolve? && id in w.runs && e.id != id
    ensures SameFor(w, After(w, limits, e), id)
  {
    if e.id in w.runs {
      assert ApprovalId(id)[5..] == id && ApprovalId(e.id)[5..] == e.id;
      assert DeskOk(b, limits, e.id, DeskOf(w, e.id));
    }
  }

  lemma RestStaysAway(w: World, limits: RB.Limits, e: Event, id: string)
    requires (e.Propose? || e.FinalizeMerge? || e.Cancel?) && id in w.runs && e.id != id
    ensures SameFor(w, After(w, limits, e), id)
  {
  }

  /** No call touches the run, the worktree or the request of another run. */
  lemma OtherRunsStay(w: World, b: SM.Boundaries, limits: RB.Limits, e: Event, id: string)
    requires Reached(w, b, limits) && Allowed(w, b, e) && id in w.runs
    requires !e.SetHalt? && !e.ExpireApprovals? && e.id != id
    ensures SameFor(w, After(w, limits, e), id)
  {
    ReachedIsGood(w, b, limits);
    if e.Execute? {
      BuildStaysAway(w, b, limits, e, id);
    } else if e.Resolve? {
      AnswerStaysAway(w, b, limits, e, id);
    } else {
      RestStaysAway(w, limits, e, id);
    }
  }
}
