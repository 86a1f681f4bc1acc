/** What the auto-dev pipeline promises, said of every run of calls from an empty start. */
module AutoDevPromises {
  import opened Common
  import SM = SelfModifier
  import RR = ResidualRisk
  import AQ = ApprovalQueue
  import RB = RateBudget
  import SW = SandboxWorktree
  import WD = WorktreeDiff
  import opened AutoDevSpec
  import opened AutoDevSafety

  ghost predicate LeadsTo(b: SM.Boundaries, limits: RB.Limits, today: int, halted: bool, events: seq<Event>, w: World) {
    AllowedRun(Start(today, halted), b, limits, events) && w == RunAll(Start(today, halted), limits, events)
  }

  /** Worlds that calls, expiries and kill-switch flips lead to. */
  ghost predicate Reached(w: World, b: SM.Boundaries, limits: RB.Limits) {
    exists today, halted, events :: LeadsTo(b, limits, today, halted, events, w)
  }

  lemma ReachedIsGood(w: World, b: SM.Boundaries, limits: RB.Limits)
    requires Reached(w, b, limits)
    ensures Good(w, b, limits)
  {
    var today, halted, events :| LeadsTo(b, limits, today, halted, events, w);
    RunKeepsGood(Start(today, halted), b, limits, events);
  }

  /** A run that is approved, merging or merged has passed verification, was not rejected by risk, and
      has a request that a human approved, or the queue by itself at low risk. */
  lemma ApprovedIsVetted(w: World, b: SM.Boundaries, limits: RB.Limits, id: string)
    requires Reached(w, b, limits)
    requires id in w.runs && w.runs[id].state in {Approved, Merging, Merged}
    ensures var run := w.runs[id];
      && run.report.Some? && run.report.value.Passed()
      && run.risk.Some? && run.risk.value.recommendation != RR.Reject
      && ApprovalId(id) in w.queue && run.approvalId == Some(ApprovalId(id))
      && (w.queue[ApprovalId(id)].state == AQ.Approved
          || (w.queue[ApprovalId(id)].state == AQ.AutoApproved && run.risk.value.level == RR.Low))
  {
    ReachedIsGood(w, b, limits);
    assert RunOk(b, id, w.runs[id], At(w.queue, ApprovalId(id)), At(w.worktrees, id));
  }

  /** Hence the captured diff of no such run shows a file of tier immutable; and without a human it
      shows nothing under review or sensitive either. */
  lemma ApprovedTouchesNothingImmutable(w: World, b: SM.Boundaries, limits: RB.Limits, id: string)
    requires Reached(w, b, limits)
    requires id in w.runs && w.runs[id].state in {Approved, Merging, Merged}
    ensures forall p :: p in w.runs[id].files ==> SM.TierOf(b, p) != SM.Immutable
    ensures ApprovalId(id) in w.queue && w.queue[ApprovalId(id)].state == AQ.AutoApproved ==>
      forall p :: p in w.runs[id].files ==> SM.TierOf(b, p) != SM.HumanReviewRequired && !RR.Sensitive(p)
  {
    ReachedIsGood(w, b, limits);
    var run := w.runs[id];
    assert RunOk(b, id, run, At(w.queue, ApprovalId(id)), At(w.worktrees, id));
    if exists p :: p in run.files && SM.TierOf(b, p) == SM.Immutable {
      RR.ImmutableOrFailedIsRejected(b, false, run.files, run.diffLines, run.risk.value);
    }
    RR.AutoMergeExactlyWhen(b, false, run.files, run.diffLines, run.risk.value);
  }

  /** The change is to a path of tier immutable. */
  predicate HitsImmutable(b: SM.Boundaries, c: WD.Change) {
    SM.TierOf(b, c.path) == SM.Immutable
  }

  /** Only changes that git's diff shows under their own names are ever looked at: an approved run leaves
      every immutable path alone exactly when none of its other changes is to one. */
  lemma ImmutableIsSafeExactlyWhenUnshownIsNot(w: World, b: SM.Boundaries, limits: RB.Limits, id: string)
    requires Reached(w, b, limits)
    requires id in w.runs && w.runs[id].state in {Approved, Merging, Merged}
    ensures (forall c :: c in w.runs[id].changes ==> !HitsImmutable(b, c))
       <==> (forall c :: c in w.runs[id].changes && !WD.Shown(c) ==> !HitsImmutable(b, c))
  {
    ReachedIsGood(w, b, limits);
    var run := w.runs[id];
    assert RunOk(b, id, run, At(w.queue, ApprovalId(id)), At(w.worktrees, id));
    ApprovedTouchesNothingImmutable(w, b, limits, id);
    forall c | c in run.changes && WD.Shown(c)
      ensures !HitsImmutable(b, c)
    {
      WD.ShownIsCaptured(run.changes, c);
    }
  }

  // ----- transition logs

  lemma {:induction false} PathByIndex(log: seq<Transition>, to: RunState)
    requires IsPath(log, to)
    ensures log[0] == Transition(Proposed, Proposed, false) && log[|log| - 1].to == to
    ensures forall i :: 0 < i < |log| ==> log[i].from == log[i - 1].to && Permitted(log[i])
    ensures forall i :: 0 <= i < |log| && IsTerminal(log[i].from) ==> log[i].byKillSwitch && log[i].to == Cancelled
    decreases |log|
  {
    if |log| > 1 {
      var n := |log| - 1;
      PathByIndex(log[..n], log[n].from);
      assert forall i :: 0 <= i < n ==> log[..n][i] == log[i];
    }
  }

  /** The log of every run is a connected path of permitted edges from PROPOSED to where the run is, with
      at most seven entries that are not the kill switch's. Out of a terminal state leads only the kill
      switch, and only to CANCELLED. */
  lemma LogIsConnectedPath(w: World, b: SM.Boundaries, limits: RB.Limits, id: string)
    requires Reached(w, b, limits) && id in w.runs
    ensures var log := w.runs[id].transitions;
      && log != [] && log[0] == Transition(Proposed, Proposed, false) && log[|log| - 1].to == w.runs[id].state
      && (forall i :: 0 < i < |log| ==> log[i].from == log[i - 1].to && Permitted(log[i]))
      && (forall i :: 0 <= i < |log| && IsTerminal(log[i].from) ==> log[i].byKillSwitch && log[i].to == Cancelled)
      && Own(log) <= 7
  {
    ReachedIsGood(w, b, limits);
    assert RunOk(b, id, w.runs[id], At(w.queue, ApprovalId(id)), At(w.worktrees, id));
    PathByIndex(w.runs[id].transitions, w.runs[id].state);
  }

  // ----- shared handles

  /** With unique run ids a build never meets a request or a worktree under its id, so it never raises,
      and it ends outside the working states. */
  lemma BuildNeverMeetsOldIds(w: World, b: SM.Boundaries, limits: RB.Limits, id: string, build: Build, today: int)
    requires Reached(w, b, limits) && Allowed(w, b, Execute(id, build, today))
    requires id in w.runs && w.runs[id].state == Proposed && !w.halted
    ensures ApprovalId(id) !in w.queue && SW.Created(w.worktrees, id, true).Ok?
    ensures var (h, e) := Executing(w, limits, id, build, today);
      e == None && h.runs[id].state in {Failed, Rejected, Approved, AwaitingApproval}
  {
    ReachedIsGood(w, b, limits);
    assert DeskOk(b, limits, id, DeskOf(w, id));
    ExecutedIsOk(b, id, DeskOf(w, id), build, limits, today);
  }

  /** A failed or rejected run has no worktree or one cleaned up with its branch; a merged one keeps its branch. */
  lemma EndedRunsHoldNoWorktree(w: World, b: SM.Boundaries, limits: RB.Limits, id: string)
    requires Reached(w, b, limits) && id in w.runs
    ensures w.runs[id].hasWorktree <==> id in w.worktrees
    ensures w.runs[id].state in {Failed, Rejected} ==> id !in w.worktrees || (w.worktrees[id].cleanedUp && w.worktrees[id].branchDeleted)
    ensures w.runs[id].state == Merged ==>
      && id in w.worktrees && w.worktrees[id].cleanedUp && !w.worktrees[id].branchDeleted
      && w.runs[id].mergeBranch == Some(w.worktrees[id].branch)
  {
    ReachedIsGood(w, b, limits);
    assert RunOk(b, id, w.runs[id], At(w.queue, ApprovalId(id)), At(w.worktrees, id));
  }

  /** The changes a human finds for a run: those in its worktree while that exists, else what has been
      committed to its branch. */
  function Recoverable(run: Run, handle: SW.Handle): seq<WD.Change> {
    if handle.cleanedUp then handle.committed else run.changes
  }

  /** A merge is to leave the changes for a human, and they are there until the run is merged. But
      nothing commits them and the worktree is removed, so the kept branch holds them exactly when there
      are none. */
  lemma MergedBranchHoldsChangesExactlyWhenNone(w: World, b: SM.Boundaries, limits: RB.Limits, id: string)
    requires Reached(w, b, limits) && id in w.runs && w.runs[id].state in {Approved, Merged}
    ensures id in w.worktrees
    ensures w.runs[id].state == Approved ==> Recoverable(w.runs[id], w.worktrees[id]) == w.runs[id].changes
    ensures w.runs[id].state == Merged ==>
      (Recoverable(w.runs[id], w.worktrees[id]) == w.runs[id].changes <==> w.runs[id].changes == [])
  {
    ReachedIsGood(w, b, limits);
    assert RunOk(b, id, w.runs[id], At(w.queue, ApprovalId(id)), At(w.worktrees, id));
  }

  lemma {:induction false} KilledInFlightByIndex(log: seq<Transition>)
    ensures KilledInFlight(log)
       <==> exists i :: 0 <= i < |log| && log[i].byKillSwitch && log[i].from in {AwaitingApproval, Approved}
    decreases |log|
  {
    if log != [] {
      var n := |log| - 1;
      KilledInFlightByIndex(log[..n]);
      assert forall i :: 0 <= i < n ==> log[..n][i] == log[i];
    }
  }

  /** A cancelled run, though, still holds a live worktree exactly when the kill switch caught it
      waiting for an answer or for its merge: that branch never cleans up. */
  lemma CancelledHoldsWorktreeExactlyWhenKilledInFlight(w: World, b: SM.Boundaries, limits: RB.Limits, id: string)
    requires Reached(w, b, limits) && id in w.runs && w.runs[id].state == Cancelled
    ensures id in w.worktrees && !w.worktrees[id].cleanedUp
       <==> exists i :: 0 <= i < |w.runs[id].transitions| && w.runs[id].transitions[i].byKillSwitch
                        && w.runs[id].transitions[i].from in {AwaitingApproval, Approved}
  {
    ReachedIsGood(w, b, limits);
    assert RunOk(b, id, w.runs[id], At(w.queue, ApprovalId(id)), At(w.worktrees, id));
    KilledInFlightByIndex(w.runs[id].transitions);
  }

  // ----- budgets

  /** The counters of runs and of medium and higher proposals never pass their daily caps. */
  lemma CheckedCapsHold(w: World, b: SM.Boundaries, limits: RB.Limits)
    requires Reached(w, b, limits)
    ensures w.budget.runs == 0 || w.budget.runs <= limits.runs
    ensures w.budget.mediumPlus == 0 || w.budget.mediumPlus <= limits.mediumPlus
  {
    ReachedIsGood(w, b, limits);
  }

  /** The day an event is handled on, if it looks at the budget. */
  function DayOf(e: Event): Option<int> {
    match e
    case Propose(_, _, _, today) => Some(today)
    case Execute(_, _, today) => Some(today)
    case FinalizeMerge(_, today) => Some(today)
    case _ => None
  }

  /** No day before `from`, and the clock never goes back. */
  ghost predicate ClockAscends(events: seq<Event>, from: int) {
    && (forall i :: 0 <= i < |events| && DayOf(events[i]).Some? ==> from <= DayOf(events[i]).value)
    && (forall i, j :: 0 <= i < j < |events| && DayOf(events[i]).Some? && DayOf(events[j]).Some? ==>
          DayOf(events[i]).value <= DayOf(events[j]).value)
  }

  /** The event is a proposal that succeeds, on that day. */
  predicate IsProposal(w: World, limits: RB.Limits, e: Event, day: int) {
    e.Propose? && e.today == day && Proposing(w, limits, e.id, e.blank, e.diffLines, e.today).1 == None
  }

  /** The successful proposals of a day. */
  function ProposalsOn(w: World, limits: RB.Limits, events: seq<Event>, day: int): nat
    decreases |events|
  {
    if events == [] then 0
    else
      var n := |events| - 1;
      ProposalsOn(w, limits, events[..n], day) + if IsProposal(RunAll(w, limits, events[..n]), limits, events[n], day) then 1 else 0
  }

  /** What one event does to the counter of the day. */
  lemma BudgetStep(w: World, limits: RB.Limits, e: Event)
    ensures var u, h := w.budget, After(w, limits, e).budget;
      && (h.date == u.date || DayOf(e) == Some(h.date))
      && h.runs == (if h.date == u.date then u.runs else 0) + (if IsProposal(w, limits, e, h.date) then 1 else 0)
      && (IsProposal(w, limits, e, h.date) ==> h.runs <= limits.runs)
      && (forall day :: IsProposal(w, limits, e, day) ==> day == h.date)
  {
    if e.Execute? && e.id in w.runs {
      BuildLeavesRuns(DeskOf(w, e.id), e.id, e.build, limits, e.today);
    }
  }

  lemma BuildLeavesRuns(d: Desk, id: string, build: Build, limits: RB.Limits, today: int)
    ensures var u := Executed(d, id, build, limits, today).0.budget;
      u == d.budget || (u.date == today && u.runs == if d.budget.date == today then d.budget.runs else 0)
  {
  }

  lemma {:induction false} BudgetIsNotAhead(w: World, limits: RB.Limits, events: seq<Event>, day: int)
    requires w.budget.date <= day && forall e :: e in events && DayOf(e).Some? ==> DayOf(e).value <= day
    ensures RunAll(w, limits, events).budget.date <= day
    decreases |events|
  {
    if events != [] {
      assert events[0] in events && forall e :: e in events[1..] ==> e in events;
      BudgetStep(w, limits, events[0]);
      BudgetIsNotAhead(After(w, limits, events[0]), limits, events[1..], day);
    }
  }

  /** With a clock that never goes back the counter is the number of the day's proposals, later days have
      none yet, and no day ever has more than the cap. */
  lemma {:induction false} ProposalsAreCounted(w: World, limits: RB.Limits, events: seq<Event>, day: int)
    requires w.budget.runs == 0 && ClockAscends(events, w.budget.date)
    ensures var u := RunAll(w, limits, events).budget;
      && ProposalsOn(w, limits, events, u.date) == u.runs
      && (day > u.date ==> ProposalsOn(w, limits, events, day) == 0)
      && (ProposalsOn(w, limits, events, day) == 0 || ProposalsOn(w, limits, events, day) <= limits.runs)
    decreases |events|
  {
    if events != [] {
      var n := |events| - 1;
      var before, e := events[..n], events[n];
      assert events == before + [e];
      var mid := RunAll(w, limits, before);
      RunAllLast(w, limits, before, e);
      BudgetStep(mid, limits, e);
      var u := After(mid, limits, e).budget;
      ProposalsAreCounted(w, limits, before, day);
      ProposalsAreCounted(w, limits, before, u.date);
      if DayOf(e).Some? {
        NotAheadOfLast(w, limits, events);
      }
    }
  }

  lemma NotAheadOfLast(w: World, limits: RB.Limits, events: seq<Event>)
    requires events != [] && ClockAscends(events, w.budget.date) && DayOf(events[|events| - 1]).Some?
    ensures RunAll(w, limits, events[..|events| - 1]).budget.date <= DayOf(events[|events| - 1]).value
  {
    BudgetIsNotAhead(w, limits, events[..|events| - 1], DayOf(events[|events| - 1]).value);
  }

  /** No day ever sees more successful proposals than the cap. */
  lemma ProposalsOfADayKeepTheCap(limits: RB.Limits, today: int, halted: bool, events: seq<Event>, day: int)
    requires ClockAscends(events, today)
    ensures var made := ProposalsOn(Start(today, halted), limits, events, day); made == 0 || made <= limits.runs
  {
    ProposalsAreCounted(Start(today, halted), limits, events, day);
  }

  /** The merge of an approved run of low risk. */
  predicate IsLowMerge(w: World, e: Event) {
    && e.FinalizeMerge? && e.id in w.runs && !w.halted && w.runs[e.id].state == Approved
    && w.runs[e.id].risk.Some? && w.runs[e.id].risk.value.level == RR.Low
  }

  predicate WithinLowCap(u: RB.Usage, limits: RB.Limits) {
    u.lowRiskMerges == 0 || u.lowRiskMerges <= limits.lowRiskMerges
  }

  /** After `k` events the counter is within the cap. */
  predicate WithinAt(w: World, limits: RB.Limits, events: seq<Event>, k: nat)
    requires k <= |events|
  {
    WithinLowCap(RunAll(w, limits, events[..k]).budget, limits)
  }

  /** If event `k` is a low-risk merge, the check that nobody makes would have passed before it. */
  predicate AvailableAt(w: World, limits: RB.Limits, events: seq<Event>, k: nat)
    requires k < |events|
  {
    var h := RunAll(w, limits, events[..k]);
    IsLowMerge(h, events[k]) ==> RB.Available(h.budget, limits, RB.LowRiskMerges, events[k].today)
  }

  /** Whatever the budget says, a low-risk merge goes through and is counted. */
  lemma LowMergeGoesThrough(w: World, limits: RB.Limits, e: Event)
    requires IsLowMerge(w, e)
    ensures var (h, error) := Finalizing(w, e.id, e.today);
      && error == None && h.runs[e.id].state == Merged && h.budget == RB.Recorded(w.budget, RB.LowRiskMerges, e.today)
  {
  }

  lemma BuildLeavesLowMerges(d: Desk, id: string, build: Build, limits: RB.Limits, today: int)
    ensures var u := Executed(d, id, build, limits, today).0.budget;
      u.lowRiskMerges == 0 || u.lowRiskMerges == d.budget.lowRiskMerges
  {
  }

  lemma LowCapStep(w: World, limits: RB.Limits, e: Event)
    requires WithinLowCap(w.budget, limits)
    ensures WithinLowCap(After(w, limits, e).budget, limits)
       <==> (IsLowMerge(w, e) ==> RB.Available(w.budget, limits, RB.LowRiskMerges, e.today))
  {
    if IsLowMerge(w, e) {
      LowMergeGoesThrough(w, limits, e);
    } else if e.Execute? && e.id in w.runs {
      BuildLeavesLowMerges(DeskOf(w, e.id), e.id, e.build, limits, e.today);
    }
  }

  lemma {:induction false} RunAllLast(w: World, limits: RB.Limits, events: seq<Event>, e: Event)
    ensures RunAll(w, limits, events + [e]) == After(RunAll(w, limits, events), limits, e)
    decreases |events|
  {
    if events == [] {
      assert [e][1..] == [];
      assert events + [e] == [e];
    } else {
      assert (events + [e])[0] == events[0] && (events + [e])[1..] == events[1..] + [e];
      RunAllLast(After(w, limits, events[0]), limits, events[1..], e);
    }
  }

  lemma LowCapAt(w: World, limits: RB.Limits, events: seq<Event>, k: nat)
    requires k < |events| && WithinAt(w, limits, events, k)
    ensures WithinAt(w, limits, events, k + 1) <==> AvailableAt(w, limits, events, k)
  {
    assert events[..k + 1] == events[..k] + [events[k]];
    RunAllLast(w, limits, events[..k], events[k]);
    LowCapStep(RunAll(w, limits, events[..k]), limits, events[k]);
  }

  lemma {:induction false} LowCapUpTo(w: World, limits: RB.Limits, events: seq<Event>, n: nat)
    requires WithinLowCap(w.budget, limits) && n <= |events|
    ensures (forall k :: 0 <= k <= n ==> WithinAt(w, limits, events, k))
       <==> (forall k :: 0 <= k < n ==> AvailableAt(w, limits, events, k))
  {
    if n == 0 {
      assert events[..0] == [] && WithinAt(w, limits, events, 0);
    } else {
      LowCapUpTo(w, limits, events, n - 1);
      if WithinAt(w, limits, events, n - 1) {
        LowCapAt(w, limits, events, n - 1);
      }
    }
  }

  /** The cap on low-risk merges is recorded but never checked. In a run it holds at every moment
      exactly when a check before each low-risk merge would have passed. */
  lemma LowMergeCapHoldsExactlyWhenAvailable(limits: RB.Limits, today: int, halted: bool, events: seq<Event>)
    ensures (forall k :: 0 <= k <= |events| ==> WithinAt(Start(today, halted), limits, events, k))
       <==> (forall k :: 0 <= k < |events| ==> AvailableAt(Start(today, halted), limits, events, k))
  {
    LowCapUpTo(Start(today, halted), limits, events, |events|);
  }

  // ----- what stays

  /** A run waits on a request that timed out, or is cancelled. */
  predicate Stuck(run: Run, request: Option<AQ.Request>) {
    run.state == Cancelled || (run.state == AwaitingApproval && request.Some? && request.value.state == AQ.TimedOut)
  }

  lemma BuildLeavesOthers(w: World, b: SM.Boundaries, limits: RB.Limits, e: Event, id: string)
    requires Good(w, b, limits) && Allowed(w, b, e) && e.Execute? && e.id != id && id in w.runs
    ensures var h := After(w, limits, e);
      id in h.runs && h.runs[id] == w.runs[id] && At(h.queue, ApprovalId(id)) == At(w.queue, ApprovalId(id))
  {
    if e.id in w.runs && !w.halted && w.runs[e.id].state == Proposed {
      assert ApprovalId(id)[5..] == id && ApprovalId(e.id)[5..] == e.id;
      assert DeskOk(b, limits, e.id, DeskOf(w, e.id));
      ExecutedIsOk(b, e.id, DeskOf(w, e.id), e.build, limits, e.today);
    }
  }

  lemma AnswerIsRefused(w: World, b: SM.Boundaries, limits: RB.Limits, id: string, approved: bool)
    requires Good(w, b, limits) && id in w.runs && w.runs[id].state == AwaitingApproval
    requires Stuck(w.runs[id], At(w.queue, ApprovalId(id)))
    ensures Resolving(w, id, approved) == (w, Some(QueueError(AQ.AlreadyTerminal)))
  {
    assert DeskOk(b, limits, id, DeskOf(w, id));
  }

  /** The documented way out of AWAITING_APPROVAL, an answer, is open exactly while the request is
      pending; once it has timed out, it is closed. */
  lemma AnswerIsTakenExactlyWhenPending(w: World, b: SM.Boundaries, limits: RB.Limits, id: string, approved: bool)
    requires Reached(w, b, limits) && id in w.runs && w.runs[id].state == AwaitingApproval
    ensures ApprovalId(id) in w.queue
    ensures Resolving(w, id, approved).1 == None <==> w.queue[ApprovalId(id)].state == AQ.Pending
    ensures Resolving(w, id, approved).1 != None ==> w.queue[ApprovalId(id)].state == AQ.TimedOut
  {
    ReachedIsGood(w, b, limits);
    assert DeskOk(b, limits, id, DeskOf(w, id));
  }

  lemma AnswerLeavesOthers(w: World, b: SM.Boundaries, limits: RB.Limits, e: Event, id: string)
    requires Good(w, b, limits) && e.Resolve? && e.id != id && id in w.runs
    ensures var h := After(w, limits, e);
      id in h.runs && h.runs[id] == w.runs[id] && At(h.queue, ApprovalId(id)) == At(w.queue, ApprovalId(id))
  {
    if e.id in w.runs {
      assert ApprovalId(id)[5..] == id && ApprovalId(e.id)[5..] == e.id;
      assert DeskOk(b, limits, e.id, DeskOf(w, e.id));
    }
  }

  lemma OtherStepKeepsStuck(w: World, b: SM.Boundaries, limits: RB.Limits, e: Event, id: string)
    requires Allowed(w, b, e) && !e.Resolve? && !e.Execute?
    requires id in w.runs && Stuck(w.runs[id], At(w.queue, ApprovalId(id)))
    ensures var h := After(w, limits, e); id in h.runs && Stuck(h.runs[id], At(h.queue, ApprovalId(id)))
  {
  }

  lemma StepKeepsStuck(w: World, b: SM.Boundaries, limits: RB.Limits, e: Event, id: string)
    requires Good(w, b, limits) && Allowed(w, b, e) && id in w.runs && Stuck(w.runs[id], At(w.queue, ApprovalId(id)))
    ensures var h := After(w, limits, e); id in h.runs && Stuck(h.runs[id], At(h.queue, ApprovalId(id)))
  {
    if e.Resolve? {
      if e.id != id {
        AnswerLeavesOthers(w, b, limits, e, id);
      } else if w.runs[id].state == AwaitingApproval {
        AnswerIsRefused(w, b, limits, id, e.approved);
      }
    } else if e.Execute? {
      if e.id != id {
        BuildLeavesOthers(w, b, limits, e, id);
      }
    } else {
      OtherStepKeepsStuck(w, b, limits, e, id);
    }
  }

  /** A timeout never becomes a state of the run: whatever is called afterwards, the run goes on waiting
      or is cancelled, and an answer to it is refused. */
  lemma {:induction false} TimedOutRunIsStuck(w: World, b: SM.Boundaries, limits: RB.Limits, events: seq<Event>, id: string)
    requires Good(w, b, limits) && AllowedRun(w, b, limits, events)
    requires id in w.runs && Stuck(w.runs[id], At(w.queue, ApprovalId(id)))
    ensures var h := RunAll(w, limits, events);
      && id in h.runs && Stuck(h.runs[id], At(h.queue, ApprovalId(id)))
      && (h.runs[id].state == AwaitingApproval ==>
            forall approved :: Resolving(h, id, approved) == (h, Some(QueueError(AQ.AlreadyTerminal))))
    decreases |events|
  {
    if events == [] {
      if w.runs[id].state == AwaitingApproval {
        AnswerIsRefused(w, b, limits, id, true);
        AnswerIsRefused(w, b, limits, id, false);
      }
    } else {
      StepKeepsStuck(w, b, limits, events[0], id);
      StepKeepsGood(w, b, limits, events[0]);
      TimedOutRunIsStuck(After(w, limits, events[0]), b, limits, events[1..], id);
    }
  }

  /** What may happen to a run while the kill switch is active. */
  predicate HaltedMove(from: RunState, to: RunState) {
    to == from || to == Cancelled || (from == AwaitingApproval && (to == Approved || to == Rejected))
  }

  lemma HaltedStep(w: World, limits: RB.Limits, e: Event, id: string)
    requires w.halted && !e.SetHalt?
    ensures var h := After(w, limits, e);
      && h.halted && h.runs.Keys == w.runs.Keys && h.worktrees.Keys == w.worktrees.Keys && h.budget == w.budget
      && (id in w.runs ==> HaltedMove(w.runs[id].state, h.runs[id].state))
  {
  }

  /** While the kill switch is active nothing is proposed, built or merged. A pending request can still
      be answered, and then its run moves. */
  lemma {:induction false} NothingMovesForwardWhileHalted(w: World, limits: RB.Limits, events: seq<Event>, id: string)
    requires w.halted && forall e :: e in events ==> !e.SetHalt?
    ensures var h := RunAll(w, limits, events);
      && h.runs.Keys == w.runs.Keys && h.worktrees.Keys == w.worktrees.Keys && h.budget == w.budget
      && (id in w.runs ==> HaltedMove(w.runs[id].state, h.runs[id].state))
    decreases |events|
  {
    if events != [] {
      assert events[0] in events && forall e :: e in events[1..] ==> e in events;
      HaltedStep(w, limits, events[0], id);
      NothingMovesForwardWhileHalted(After(w, limits, events[0]), limits, events[1..], id);
    }
  }

  /** Exactly when a run moves on although the kill switch is active: when its pending request is answered. */
  lemma HaltedRunMovesExactlyWhenAnswered(w: World, b: SM.Boundaries, limits: RB.Limits, e: Event, id: string)
    requires Reached(w, b, limits) && w.halted && id in w.runs
    ensures id in After(w, limits, e).runs
    ensures After(w, limits, e).runs[id].state !in {w.runs[id].state, Cancelled}
       <==> && e.Resolve? && e.id == id && w.runs[id].state == AwaitingApproval
            && ApprovalId(id) in w.queue && w.queue[ApprovalId(id)].state == AQ.Pending
  {
    if e.Resolve? && e.id == id && w.runs[id].state == AwaitingApproval {
      AnswerIsTakenExactlyWhenPending(w, b, limits, id, e.approved);
      AnswerMoves(w, id, e.approved);
    } else {
      HaltedRunStays(w, limits, e, id);
    }
  }

  lemma AnswerMoves(w: World, id: string, approved: bool)
    requires id in w.runs && w.runs[id].state == AwaitingApproval
    ensures var (h, error) := Resolving(w, id, approved);
      id in h.runs && h.runs[id].state == if error != None then AwaitingApproval else if approved then Approved else Rejected
  {
  }

  lemma HaltedRunStays(w: World, limits: RB.Limits, e: Event, id: string)
    requires w.halted && id in w.runs && !(e.Resolve? && e.id == id && w.runs[id].state == AwaitingApproval)
    ensures id in After(w, limits, e).runs && After(w, limits, e).runs[id].state in {w.runs[id].state, Cancelled}
  {
  }

  /** Exactly when a finished run changes: when it is built or merged while the kill switch is active.
      Then it becomes CANCELLED, also when it was MERGED. */
  lemma FinishedRunChangesExactlyWhenKilled(w: World, b: SM.Boundaries, limits: RB.Limits, e: Event, id: string)
    requires Allowed(w, b, e) && id in w.runs && IsTerminal(w.runs[id].state)
    ensures id in After(w, limits, e).runs
    ensures After(w, limits, e).runs[id] != w.runs[id] <==> w.halted && (e.Execute? || e.FinalizeMerge?) && e.id == id
    ensures After(w, limits, e).runs[id] != w.runs[id] ==> After(w, limits, e).runs[id] == Killed(w.runs[id])
  {
    if e.Execute? || e.FinalizeMerge? {
      assert Killed(w.runs[id]).transitions != w.runs[id].transitions;
    }
  }
}
