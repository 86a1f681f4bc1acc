/** The human approval gate (`ConfirmationGate`). Waiting coroutines, chat replies and timeouts take
    turns at their await points; each method of the class is what happens between two of them. */
module ConfirmationGate {
  import opened Common

  datatype Status = Pending | Approved | Rejected | TimedOut | AutoApproved

  datatype Entry = Entry(chat: int, status: Status)

  /** The gate as a value. The last three fields are the model's own: the coroutines still waiting,
      the task ids used so far, and how often a timeout fired on a request already answered. */
  datatype Gate = Gate(pending: map<string, Entry>, chatToTask: map<int, string>,
                       requests: nat, autoApproved: nat, approved: nat, rejected: nat, timeouts: nat,
                       waiting: set<string>, used: set<string>, late: nat)

  datatype Step =
    | Request(task: string, chat: int, auto: bool)
    | Respond(chat: int, approves: bool)
    | TimeOut(task: string)     // `wait_for` gives up
    | Wake(task: string)        // the event is set and the waiter goes on
    | WaiterLost(task: string)  // sending the question raised, or the task was cancelled; its entry stays

  function Initial(): Gate {
    Gate(map[], map[], 0, 0, 0, 0, 0, {}, {}, 0)
  }

  /** `_cleanup`. */
  function Cleanup(g: Gate, task: string, chat: int): Gate {
    g.(pending := g.pending - {task},
       chatToTask := if chat in g.chatToTask && g.chatToTask[chat] == task then g.chatToTask - {chat} else g.chatToTask)
  }

  lemma UpdateThenRemove(g: Gate, task: string, chat: int, e: Entry)
    requires task in g.pending
    ensures Cleanup(g.(pending := g.pending[task := e]), task, chat) == Cleanup(g, task, chat)
  {
    assert g.pending[task := e] - {task} == g.pending - {task};
  }

  /** The task a reply from this chat would settle. An empty task id is taken for none. */
  function Target(g: Gate, chat: int): Option<string> {
    if chat in g.chatToTask && g.chatToTask[chat] != "" && g.chatToTask[chat] in g.pending && g.pending[g.chatToTask[chat]].status == Pending
    then Some(g.chatToTask[chat]) else None
  }

  /** Task ids are unique; only waiters time out, wake up or fail; a waiter wakes up when answered. */
  predicate Enabled(g: Gate, s: Step) {
    match s
    case Request(task, _, _) => task !in g.used
    case Respond(_, _) => true
    case TimeOut(task) => task in g.waiting && task in g.pending
    case Wake(task) => task in g.waiting && task in g.pending && g.pending[task].status != Pending
    case WaiterLost(task) => task in g.waiting
  }

  function After(g: Gate, s: Step): Gate
    requires Enabled(g, s)
  {
    match s
    case Request(task, chat, auto) =>
      var g1 := g.(requests := g.requests + 1, used := g.used + {task});
      if auto then g1.(autoApproved := g.autoApproved + 1)
      else g1.(pending := g.pending[task := Entry(chat, Pending)], chatToTask := g.chatToTask[chat := task],
               waiting := g.waiting + {task})
    case Respond(chat, approves) =>
      if Target(g, chat).None? then g
      else
        var task := Target(g, chat).value;
        var g1 := g.(pending := g.pending[task := g.pending[task].(status := if approves then Approved else Rejected)]);
        if approves then g1.(approved := g.approved + 1) else g1.(rejected := g.rejected + 1)
    case TimeOut(task) =>
      Cleanup(g, task, g.pending[task].chat)
        .(timeouts := g.timeouts + 1, waiting := g.waiting - {task},
          late := g.late + if g.pending[task].status == Pending then 0 else 1)
    case Wake(task) => Cleanup(g, task, g.pending[task].chat).(waiting := g.waiting - {task})
    case WaiterLost(task) => g.(waiting := g.waiting - {task})
  }

  // ----- runs

  predicate EnabledRun(g: Gate, steps: seq<Step>)
    decreases |steps|
  {
    steps == [] || (Enabled(g, steps[0]) && EnabledRun(After(g, steps[0]), steps[1..]))
  }

  function Run(g: Gate, steps: seq<Step>): Gate
    requires EnabledRun(g, steps)
    decreases |steps|
  {
    if steps == [] then g else Run(After(g, steps[0]), steps[1..])
  }

  // ----- what every step keeps

  function Unanswered(pending: map<string, Entry>): set<string> {
    set t | t in pending && pending[t].status == Pending
  }

  /** The law of the counters, exact also when timeouts fire on answered requests. */
  predicate Conserved(g: Gate) {
    g.requests + g.late == g.autoApproved + g.approved + g.rejected + g.timeouts + |Unanswered(g.pending)|
  }

  /** Every chat mapping points to a live request of that same chat, and waiters to their entries. */
  ghost predicate Consistent(g: Gate) {
    && (forall chat :: chat in g.chatToTask ==> g.chatToTask[chat] in g.pending && g.pending[g.chatToTask[chat]].chat == chat)
    && g.waiting <= g.pending.Keys <= g.used
  }

  lemma OneMoreUnanswered(pending: map<string, Entry>, task: string, chat: int)
    requires task !in pending
    ensures |Unanswered(pending[task := Entry(chat, Pending)])| == |Unanswered(pending)| + 1
  {
    assert Unanswered(pending[task := Entry(chat, Pending)]) == Unanswered(pending) + {task};
  }

  lemma OneLessUnanswered(pending: map<string, Entry>, task: string, e: Entry)
    requires task in pending && e.status != Pending
    ensures |Unanswered(pending[task := e])| == |Unanswered(pending - {task})|
         == |Unanswered(pending)| - if pending[task].status == Pending then 1 else 0
  {
    assert Unanswered(pending[task := e]) == Unanswered(pending) - {task};
    assert Unanswered(pending - {task}) == Unanswered(pending) - {task};
  }

  lemma StepConserves(g: Gate, s: Step)
    requires Conserved(g) && Consistent(g) && Enabled(g, s)
    ensures Conserved(After(g, s))
  {
    match s
    case Request(task, chat, auto) => OneMoreUnanswered(g.pending, task, chat);
    case Respond(chat, approves) =>
      if Target(g, chat).Some? {
        var task := Target(g, chat).value;
        OneLessUnanswered(g.pending, task, g.pending[task].(status := if approves then Approved else Rejected));
      }
    case TimeOut(task) => OneLessUnanswered(g.pending, task, Entry(0, TimedOut));
    case Wake(task) => OneLessUnanswered(g.pending, task, Entry(0, TimedOut));
    case WaiterLost(_) =>
  }

  lemma StepConsistent(g: Gate, s: Step)
    requires Consistent(g) && Enabled(g, s)
    ensures Consistent(After(g, s))
  {
  }

  /** In every run the counters add up and no reply can reach the wrong chat's request. */
  lemma {:induction false} RunConserves(g: Gate, steps: seq<Step>)
    requires Conserved(g) && Consistent(g) && EnabledRun(g, steps)
    ensures Conserved(Run(g, steps)) && Consistent(Run(g, steps))
    decreases |steps|
  {
    if steps != [] {
      StepConserves(g, steps[0]);
      StepConsistent(g, steps[0]);
      RunConserves(After(g, steps[0]), steps[1..]);
    }
  }

  /** No timeout in the run fires on a request that has been answered. */
  predicate NoLateTimeout(g: Gate, steps: seq<Step>)
    requires EnabledRun(g, steps)
    decreases |steps|
  {
    steps == [] || (&& (steps[0].TimeOut? ==> g.pending[steps[0].task].status == Pending)
                    && NoLateTimeout(After(g, steps[0]), steps[1..]))
  }

  lemma {:induction false} LateCounts(g: Gate, steps: seq<Step>)
    requires EnabledRun(g, steps)
    ensures Run(g, steps).late >= g.late
    ensures NoLateTimeout(g, steps) <==> Run(g, steps).late == g.late
    decreases |steps|
  {
    if steps != [] {
      LateCounts(After(g, steps[0]), steps[1..]);
    }
  }

  /** From the start, every request is counted exactly once (auto-approved, approved, rejected, timed
      out or still unanswered) exactly when no timeout fired on an answered request. */
  lemma CountedOnceExactlyWithoutLateTimeouts(steps: seq<Step>)
    requires EnabledRun(Initial(), steps)
    ensures var g := Run(Initial(), steps);
      g.requests == g.autoApproved + g.approved + g.rejected + g.timeouts + |Unanswered(g.pending)|
      <==> NoLateTimeout(Initial(), steps)
  {
    assert Unanswered(Initial().pending) == {};
    RunConserves(Initial(), steps);
    LateCounts(Initial(), steps);
  }

  /** The shortest run that counts a request twice: it is approved, and then its timeout fires. */
  lemma LateTimeoutCountsTwice(task: string, chat: int)
    requires task != ""
    ensures var steps := [Request(task, chat, false), Respond(chat, true), TimeOut(task)];
      && EnabledRun(Initial(), steps) && !NoLateTimeout(Initial(), steps)
      && Run(Initial(), steps).requests == 1 && Run(Initial(), steps).approved == 1 && Run(Initial(), steps).timeouts == 1
  {
    var s1, s2 := [Respond(chat, true), TimeOut(task)], [TimeOut(task)];
    var steps := [Request(task, chat, false), Respond(chat, true), TimeOut(task)];
    assert steps[1..] == s1 && s1[1..] == s2 && s2[1..] == [];
    var g1 := After(Initial(), steps[0]);
    var g2 := After(g1, s1[0]);
    assert EnabledRun(g2, s2) && EnabledRun(g1, s1) && EnabledRun(Initial(), steps);
    assert Run(Initial(), steps) == Run(g1, s1) == Run(g2, s2) == After(g2, s2[0]);
    assert !NoLateTimeout(g2, s2) && !NoLateTimeout(g1, s1);
  }

  /** A request still listed has no waiter exactly when that was lost: by a failing send, or because the
      task that awaited the answer was cancelled. Neither cleans up. */
  lemma {:induction false} WaiterGoneExactlyWhenLost(g: Gate, steps: seq<Step>, task: string)
    requires Consistent(g) && EnabledRun(g, steps) && task in Run(g, steps).pending
    requires task in g.used ==> task in g.waiting
    ensures task in Run(g, steps).waiting <==> WaiterLost(task) !in steps
    decreases |steps|
  {
    if steps != [] {
      var s, h := steps[0], After(g, steps[0]);
      assert steps == [s] + steps[1..];
      StepConsistent(g, s);
      if s == WaiterLost(task) {
        NeverWaitsAgain(h, steps[1..], task);
      } else if task in h.used && task !in h.waiting {
        UsedNeverReturns(h, steps[1..], task);
      } else {
        WaiterGoneExactlyWhenLost(h, steps[1..], task);
      }
    }
  }

  lemma {:induction false} NeverWaitsAgain(g: Gate, steps: seq<Step>, task: string)
    requires EnabledRun(g, steps) && task in g.used && task !in g.waiting
    ensures task !in Run(g, steps).waiting
    decreases |steps|
  {
    if steps != [] {
      NeverWaitsAgain(After(g, steps[0]), steps[1..], task);
    }
  }

  /** In every run from the start the entry of a chat is a request of that chat, and somebody waits for
      its answer exactly when its waiter was not lost. */
  lemma MappingsReachWaitersUnlessLost(steps: seq<Step>, chat: int)
    requires EnabledRun(Initial(), steps) && chat in Run(Initial(), steps).chatToTask
    ensures var g := Run(Initial(), steps); var task := g.chatToTask[chat];
      && task in g.pending && g.pending[task].chat == chat
      && (task in g.waiting <==> WaiterLost(task) !in steps)
  {
    assert Unanswered(Initial().pending) == {};
    RunConserves(Initial(), steps);
    WaiterGoneExactlyWhenLost(Initial(), steps, Run(Initial(), steps).chatToTask[chat]);
  }

  /** An answer given stays: no step but a late timeout changes it, and until the waiter has woken up
      it is there to be read. */
  lemma {:induction false} AnswerStays(g: Gate, steps: seq<Step>, task: string)
    requires Consistent(g) && EnabledRun(g, steps) && NoLateTimeout(g, steps)
    requires task in g.pending && g.pending[task].status != Pending
    ensures var h := Run(g, steps);
      if task in h.pending then h.pending[task] == g.pending[task] else Wake(task) in steps
    decreases |steps|
  {
    if steps != [] {
      var s := steps[0];
      StepConsistent(g, s);
      if s == Wake(task) {
        assert steps[0] in steps;
        UsedNeverReturns(After(g, s), steps[1..], task);
      } else {
        AnswerStays(After(g, s), steps[1..], task);
        assert Wake(task) in steps[1..] ==> Wake(task) in steps;
      }
    }
  }

  lemma {:induction false} UsedNeverReturns(g: Gate, steps: seq<Step>, task: string)
    requires EnabledRun(g, steps) && task in g.used && task !in g.pending
    ensures task !in Run(g, steps).pending
    decreases |steps|
  {
    if steps != [] {
      UsedNeverReturns(After(g, steps[0]), steps[1..], task);
    }
  }

  /** A second question in a chat takes over its replies: the first request can then no longer be
      approved or rejected in any run, only time out. */
  lemma {:induction false} OrphanCanOnlyTimeOut(g: Gate, steps: seq<Step>, task: string)
    requires Consistent(g) && EnabledRun(g, steps)
    requires task in g.pending && g.pending[task].status == Pending
    requires var chat := g.pending[task].chat; chat !in g.chatToTask || g.chatToTask[chat] != task
    ensures var h := Run(g, steps);
      if task in h.pending then h.pending[task] == g.pending[task] else TimeOut(task) in steps
    decreases |steps|
  {
    if steps != [] {
      var s := steps[0];
      StepConsistent(g, s);
      if s == TimeOut(task) {
        assert steps[0] in steps;
        UsedNeverReturns(After(g, s), steps[1..], task);
      } else {
        OrphanCanOnlyTimeOut(After(g, s), steps[1..], task);
        assert TimeOut(task) in steps[1..] ==> TimeOut(task) in steps;
      }
    }
  }

  // ----- what a reply does to the request it answers

  lemma {:induction false} RunLast(g: Gate, steps: seq<Step>)
    requires steps != [] && EnabledRun(g, steps)
    ensures var n := |steps| - 1;
      && EnabledRun(g, steps[..n]) && Enabled(Run(g, steps[..n]), steps[n])
      && Run(g, steps) == After(Run(g, steps[..n]), steps[n])
    decreases |steps|
  {
    var n := |steps| - 1;
    if n == 0 {
      assert steps[..0] == [] && steps[1..] == [];
    } else {
      RunLast(After(g, steps[0]), steps[1..]);
      assert steps[..n][1..] == steps[1..][..n - 1];
    }
  }

  /** The task of the last question asked in a chat. */
  function LastAsked(steps: seq<Step>, chat: int): Option<string>
    decreases |steps|
  {
    if steps == [] then None
    else
      var s := steps[|steps| - 1];
      if s.Request? && s.chat == chat && !s.auto then Some(s.task) else LastAsked(steps[..|steps| - 1], chat)
  }

  /** A chat points to the last question asked in it, as long as that is listed, and to no other. */
  lemma {:induction false} ChatPointsToLastAsked(steps: seq<Step>, chat: int, task: string)
    requires EnabledRun(Initial(), steps)
    ensures var g := Run(Initial(), steps);
      && Consistent(g)
      && (chat in g.chatToTask && g.chatToTask[chat] == task <==> task in g.pending && LastAsked(steps, chat) == Some(task))
      && (LastAsked(steps, chat) == Some(task) ==> task in g.used && (task in g.pending ==> g.pending[task].chat == chat))
    decreases |steps|
  {
    if steps != [] {
      RunLast(Initial(), steps);
      ChatPointsToLastAsked(steps[..|steps| - 1], chat, task);
      StepConsistent(Run(Initial(), steps[..|steps| - 1]), steps[|steps| - 1]);
    }
  }

  /** Step `k` is a reply from the chat of the task, which is still unanswered and the last one asked there.
      A task with an empty id is never found. */
  ghost predicate AnsweredAt(steps: seq<Step>, task: string, approves: bool, k: nat) {
    && k < |steps| && EnabledRun(Initial(), steps[..k]) && task != ""
    && var g := Run(Initial(), steps[..k]);
    && task in g.pending && g.pending[task].status == Pending
    && steps[k] == Respond(g.pending[task].chat, approves) && LastAsked(steps[..k], g.pending[task].chat) == Some(task)
  }

  ghost predicate Answered(steps: seq<Step>, task: string, approves: bool) {
    exists k :: AnsweredAt(steps, task, approves, k)
  }

  lemma AnsweredBefore(steps: seq<Step>, task: string, approves: bool, k: nat)
    requires k + 1 < |steps|
    ensures AnsweredAt(steps, task, approves, k) <==> AnsweredAt(steps[..|steps| - 1], task, approves, k)
  {
    assert steps[..|steps| - 1][..k] == steps[..k];
  }

  lemma AnsweredLast(steps: seq<Step>, task: string, approves: bool)
    requires steps != []
    ensures Answered(steps, task, approves)
       <==> Answered(steps[..|steps| - 1], task, approves) || AnsweredAt(steps, task, approves, |steps| - 1)
  {
    forall k | 0 <= k < |steps| - 1
      ensures AnsweredAt(steps, task, approves, k) <==> AnsweredAt(steps[..|steps| - 1], task, approves, k)
    {
      AnsweredBefore(steps, task, approves, k);
    }
    if Answered(steps[..|steps| - 1], task, approves) {
      var k :| AnsweredAt(steps[..|steps| - 1], task, approves, k);
      assert AnsweredAt(steps, task, approves, k);
    }
  }

  function StatusFor(approves: bool): Status {
    if approves then Approved else Rejected
  }

  /** A listed request is approved exactly when an approval answered it, rejected exactly when a refusal
      did, and otherwise pending. */
  lemma {:induction false} StatusIsTheReply(steps: seq<Step>, task: string)
    requires EnabledRun(Initial(), steps)
    ensures var g := Run(Initial(), steps);
      && (task !in g.used ==> forall approves :: !Answered(steps, task, approves))
      && (task in g.pending ==>
            && (g.pending[task].status == Approved <==> Answered(steps, task, true))
            && (g.pending[task].status == Rejected <==> Answered(steps, task, false))
            && g.pending[task].status in {Pending, Approved, Rejected})
    decreases |steps|
  {
    if steps != [] {
      var before, s := steps[..|steps| - 1], steps[|steps| - 1];
      RunLast(Initial(), steps);
      StatusIsTheReply(before, task);
      var g := Run(Initial(), before);
      AnsweredLast(steps, task, true);
      AnsweredLast(steps, task, false);
      ChatPointsToLastAsked(before, if s.Respond? then s.chat else 0, task);
    }
  }

  /** What the waiter gets when it wakes is what the human said in its own chat. */
  lemma WakesWithTheReply(steps: seq<Step>, task: string)
    requires EnabledRun(Initial(), steps) && Enabled(Run(Initial(), steps), Wake(task))
    ensures var answer := Run(Initial(), steps).pending[task].status;
      (answer == Approved && Answered(steps, task, true) && !Answered(steps, task, false))
      || (answer == Rejected && Answered(steps, task, false) && !Answered(steps, task, true))
  {
    StatusIsTheReply(steps, task);
  }

  /** Step `k` answers some request. */
  ghost predicate Answers(steps: seq<Step>, approves: bool, k: nat) {
    exists task :: AnsweredAt(steps, task, approves, k)
  }

  /** The replies of a kind that answered something. */
  ghost function Replies(steps: seq<Step>, approves: bool): nat
    decreases |steps|
  {
    if steps == [] then 0
    else Replies(steps[..|steps| - 1], approves) + if Answers(steps, approves, |steps| - 1) then 1 else 0
  }

  function Count(steps: seq<Step>, counts: Step -> bool): nat
    decreases |steps|
  {
    if steps == [] then 0 else Count(steps[..|steps| - 1], counts) + if counts(steps[|steps| - 1]) then 1 else 0
  }

  /** Each counter is the number of the steps it is named after. */
  lemma {:induction false} CountersTellRun(steps: seq<Step>)
    requires EnabledRun(Initial(), steps)
    ensures var g := Run(Initial(), steps);
      && g.requests == Count(steps, (s: Step) => s.Request?)
      && g.autoApproved == Count(steps, (s: Step) => s.Request? && s.auto)
      && g.approved == Replies(steps, true) && g.rejected == Replies(steps, false)
      && g.timeouts == Count(steps, (s: Step) => s.TimeOut?)
    decreases |steps|
  {
    if steps != [] {
      RunLast(Initial(), steps);
      CountersTellRun(steps[..|steps| - 1]);
      ReplyIsCounted(steps);
    }
  }

  /** A reply settles a request exactly when it answers one. */
  lemma ReplyIsCounted(steps: seq<Step>)
    requires steps != [] && EnabledRun(Initial(), steps)
    ensures var n := |steps| - 1;
      && EnabledRun(Initial(), steps[..n])
      && (forall approves :: Answers(steps, approves, n)
            <==> steps[n].Respond? && steps[n].approves == approves && Target(Run(Initial(), steps[..n]), steps[n].chat).Some?)
  {
    var n := |steps| - 1;
    RunLast(Initial(), steps);
    var g := Run(Initial(), steps[..n]);
    if steps[n].Respond? {
      var chat := steps[n].chat;
      forall task
        ensures chat in g.chatToTask && g.chatToTask[chat] == task <==> task in g.pending && LastAsked(steps[..n], chat) == Some(task)
        ensures task in g.pending && LastAsked(steps[..n], chat) == Some(task) ==> g.pending[task].chat == chat
      {
        ChatPointsToLastAsked(steps[..n], chat, task);
      }
      if Target(g, chat).Some? {
        assert AnsweredAt(steps, Target(g, chat).value, steps[n].approves, n);
      }
    }
  }

  // ----- the object

  class PendingConfirmation {
    const chatId: int
    var status: Status

    function View(): Entry
      reads this
    {
      Entry(chatId, status)
    }

    constructor (chatId: int)
      ensures View() == Entry(chatId, Pending)
    {
      this.chatId := chatId;
      status := Pending;
    }
  }

  class ConfirmationGate {
    var pending: map<string, PendingConfirmation>
    var chatToTask: map<int, string>
    var requests: nat
    var autoApproved: nat
    var approved: nat
    var rejected: nat
    var timeouts: nat
    ghost var waiting: set<string>
    ghost var used: set<string>
    ghost var late: nat

    ghost predicate Valid()
      reads this
    {
      forall s, t :: s in pending && t in pending && pending[s] == pending[t] ==> s == t
    }

    ghost function View(): Gate
      reads this, pending.Values
    {
      Gate(map t | t in pending :: pending[t].View(), chatToTask,
           requests, autoApproved, approved, rejected, timeouts, waiting, used, late)
    }

    constructor ()
      ensures Valid() && View() == Initial()
    {
      pending, chatToTask, waiting, used, late := map[], map[], {}, {}, 0;
      requests, autoApproved, approved, rejected, timeouts := 0, 0, 0, 0, 0;
    }

    /** `request_confirmation` up to its first await. An auto-approved risk level answers at once. */
    method RequestConfirmation(task: string, chat: int, auto: bool) returns (answer: Option<Status>)
      requires Valid() && Enabled(View(), Request(task, chat, auto)) && Consistent(View())
      modifies this
      ensures Valid() && View() == After(old(View()), Request(task, chat, auto))
      ensures answer == if auto then Some(AutoApproved) else None
    {
      CountRequest(task, auto);
      answer := if auto then Some(AutoApproved) else None;
      if !auto {
        AddPending(task, chat);
      }
    }

    method CountRequest(ghost task: string, auto: bool)
      requires Valid()
      modifies this`requests, this`used, this`autoApproved
      ensures Valid()
      ensures View() == old(View()).(requests := old(requests) + 1, used := old(used) + {task},
                                     autoApproved := old(autoApproved) + if auto then 1 else 0)
    {
      requests := requests + 1;
      used := used + {task};
      if auto {
        autoApproved := autoApproved + 1;
      }
    }

    method AddPending(task: string, chat: int)
      requires Valid() && task !in pending
      modifies this`pending, this`chatToTask, this`waiting
      ensures Valid()
      ensures View() == old(View()).(pending := old(View()).pending[task := Entry(chat, Pending)],
                                     chatToTask := old(chatToTask)[chat := task], waiting := old(waiting) + {task})
    {
      var p := new PendingConfirmation(chat);
      pending := pending[task := p];
      chatToTask := chatToTask[chat := task];
      waiting := waiting + {task};
    }

    /** `handle_response`: `approves` says whether the text was an approval keyword. */
    method HandleResponse(chat: int, approves: bool) returns (handled: bool)
      requires Valid()
      modifies this, pending.Values
      ensures Valid() && View() == After(old(View()), Respond(chat, approves))
      ensures handled <==> Target(old(View()), chat).Some?
    {
      if chat !in chatToTask || chatToTask[chat] == "" {
        return false;
      }
      var task := chatToTask[chat];
      if task !in pending || pending[task].status != Pending {
        return false;
      }
      pending[task].status := if approves then Approved else Rejected;
      if approves {
        approved := approved + 1;
      } else {
        rejected := rejected + 1;
      }
      handled := true;
    }

    method CleanUp(task: string, chat: int)
      requires Valid()
      modifies this`pending, this`chatToTask
      ensures Valid() && View() == Cleanup(old(View()), task, chat)
    {
      pending := pending - {task};
      if chat in chatToTask && chatToTask[chat] == task {
        chatToTask := chatToTask - {chat};
      }
    }

    /** The waiter's branch for a timeout. */
    method OnTimeout(task: string) returns (answer: Status)
      requires Valid() && Enabled(View(), TimeOut(task))
      modifies this, pending.Values
      ensures Valid() && View() == After(old(View()), TimeOut(task))
      ensures answer == TimedOut
    {
      CountTimeout(task);
      ExpireAndCleanUp(task);
      answer := TimedOut;
    }

    method CountTimeout(task: string)
      requires Valid() && task in pending && task in waiting
      modifies this`late, this`timeouts, this`waiting
      ensures Valid() && View() == old(View()).(timeouts := old(timeouts) + 1, waiting := old(waiting) - {task},
                                                late := old(late) + if pending[task].status == Pending then 0 else 1)
    {
      late := late + if pending[task].status == Pending then 0 else 1;
      timeouts := timeouts + 1;
      waiting := waiting - {task};
    }

    method ExpireAndCleanUp(task: string)
      requires Valid() && task in pending
      modifies this`pending, this`chatToTask, pending[task]
      ensures Valid() && View() == Cleanup(old(View()), task, old(View()).pending[task].chat)
    {
      UpdateThenRemove(View(), task, pending[task].chatId, Entry(pending[task].chatId, TimedOut));
      var chat := pending[task].chatId;
      SetTimedOut(task);
      CleanUp(task, chat);
    }

    method SetTimedOut(task: string)
      requires Valid() && task in pending
      modifies pending[task]
      ensures Valid() && pending[task].chatId == old(View()).pending[task].chat
      ensures View() == old(View()).(pending := old(View()).pending[task := Entry(pending[task].chatId, TimedOut)])
    {
      pending[task].status := TimedOut;
    }

    /** Sending the question raised, or the task was cancelled: the waiter is gone, its entries stay. */
    ghost method OnWaiterLost(task: string)
      requires Valid() && Enabled(View(), WaiterLost(task))
      modifies this`waiting
      ensures Valid() && View() == After(old(View()), WaiterLost(task))
    {
      waiting := waiting - {task};
    }

    /** The waiter's branch for an answer: it returns the answer it was given. */
    method OnWake(task: string) returns (answer: Status)
      requires Valid() && Enabled(View(), Wake(task))
      modifies this
      ensures Valid() && View() == After(old(View()), Wake(task))
      ensures answer == old(View()).pending[task].status
    {
      var p := pending[task];
      answer := p.status;
      CleanUp(task, p.chatId);
      waiting := waiting - {task};
    }
  }
}
