/** Request/response and chat correlation over one socket (`OpenClawConnection`). Callers and the
    receive loop take turns at their await points; a step is what happens between two of them. */
module OpenClawConnection {
  import opened Common

  /** What an asyncio future holds. */
  datatype Outcome<T> = Waiting | Done(result: T) | Failed(error: string) | Cancelled

  // ----- requests

  /** Where the caller of a request stands: inside `ws.send`, in `wait_for`, past its timeout, gone. */
  datatype Phase = Sending | Awaiting | TimingOut | Gone

  /** `opening` counts the connections being set up, up to the first step of their receive loop, and
      `loops` the receive loops that run: after an overlapping close and connect there may be two.
      `futures` holds the future of every request ever sent; `pending` the ids in the `_pending`
      dictionary; `dropped` the ids that were thrown out of it unanswered. */
  datatype Requests = Requests(connected: bool, opening: nat, loops: nat, pending: set<string>,
                               futures: map<string, Outcome<string>>, phases: map<string, Phase>, dropped: set<string>)

  datatype Step =
    | Opens                                                 // the socket is up, authentication still to come
    | LoopStarts                                            // the receive task takes its first step
    | ConnectFails
    | Send(id: string)
    | Sent(id: string)
    | SendRaises(id: string)
    | Response(id: string, ok: bool, payload: string)
    | BadResponse(id: string)                               // not ok, and its error is no object
    | TimeoutFires(id: string)                              // `wait_for` cancels the future
    | TimeoutRaised(id: string)
    | Wakes(id: string)                                     // the caller takes its result or exception
    | CallerCancelled(id: string)                           // no `except` clause of `send_request` sees that
    | LoopEnds                                              // connection lost, or the loop cancelled
    | Close                                                 // the end of `close`, after its awaits

  const CONNECTION_LOST := "Connection lost"

  predicate InPhase(r: Requests, id: string, phase: Phase) {
    id in r.phases && id in r.futures && r.phases[id] == phase
  }

  predicate Enabled(r: Requests, s: Step) {
    match s
    case Opens => true
    case LoopStarts => r.opening > 0
    case ConnectFails => r.opening > 0
    case Send(id) => r.connected && id !in r.futures && id !in r.phases
    case Sent(id) => InPhase(r, id, Sending)
    case SendRaises(id) => InPhase(r, id, Sending)
    case Response(_, _, _) => r.loops > 0
    case BadResponse(_) => r.loops > 0
    case TimeoutFires(id) => InPhase(r, id, Awaiting)
    case TimeoutRaised(id) => InPhase(r, id, TimingOut)
    case Wakes(id) => InPhase(r, id, Awaiting) && r.futures[id] != Waiting
    case CallerCancelled(id) => InPhase(r, id, Sending) || InPhase(r, id, Awaiting)
    case LoopEnds => r.loops > 0
    case Close => true
  }

  function Resolved(ok: bool, payload: string): Outcome<string> {
    if ok then Done(payload) else Failed(payload)
  }

  /** Completing a future that is done already does nothing: every completion is guarded. */
  function Complete(futures: map<string, Outcome<string>>, id: string, to: Outcome<string>): map<string, Outcome<string>> {
    if id in futures && futures[id] == Waiting then futures[id := to] else futures
  }

  /** Every open request of the dictionary fails. */
  function AllFailed(r: Requests): map<string, Outcome<string>> {
    map id | id in r.futures :: if id in r.pending && r.futures[id] == Waiting then Failed(CONNECTION_LOST) else r.futures[id]
  }

  /** The `finally` block of a receive loop. */
  function Ended(r: Requests): Requests
    requires r.loops > 0
  {
    r.(connected := false, loops := r.loops - 1, pending := {}, futures := AllFailed(r))
  }

  function After(r: Requests, s: Step): Requests
    requires Enabled(r, s)
  {
    match s
    case Opens => r.(connected := true, opening := r.opening + 1)
    case LoopStarts => r.(opening := r.opening - 1, loops := r.loops + 1)
    case ConnectFails => r.(connected := false, opening := r.opening - 1)
    case Send(id) => r.(pending := r.pending + {id}, futures := r.futures[id := Waiting], phases := r.phases[id := Sending])
    case Sent(id) => r.(phases := r.phases[id := Awaiting])
    case SendRaises(id) => r.(pending := r.pending - {id}, phases := r.phases[id := Gone])
    case Response(id, ok, payload) =>
      if id != "" && id in r.pending
      then r.(pending := r.pending - {id}, futures := Complete(r.futures, id, Resolved(ok, payload)))
      else r
    case BadResponse(id) =>
      // popped, and then reading the error raises, which ends the loop; a done future is not looked at
      if id == "" || id !in r.pending then r
      else if id in r.futures && r.futures[id] == Waiting
      then Ended(r.(pending := r.pending - {id}, dropped := r.dropped + {id}))
      else r.(pending := r.pending - {id})
    case TimeoutFires(id) => r.(futures := Complete(r.futures, id, Cancelled), phases := r.phases[id := TimingOut])
    case TimeoutRaised(id) => r.(pending := r.pending - {id}, phases := r.phases[id := Gone])
    case Wakes(id) =>
      r.(pending := if r.futures[id].Done? then r.pending else r.pending - {id}, phases := r.phases[id := Gone])
    case CallerCancelled(id) =>
      r.(futures := if r.phases[id] == Awaiting then Complete(r.futures, id, Cancelled) else r.futures, phases := r.phases[id := Gone])
    case LoopEnds => Ended(r)
    case Close => r.(connected := false, pending := {}, dropped := r.dropped + r.pending)
  }

  function Initial(): Requests {
    Requests(false, 0, 0, {}, map[], map[], {})
  }

  predicate EnabledRun(r: Requests, steps: seq<Step>)
    decreases |steps|, 0
  {
    steps == [] || (EnabledRun(r, steps[..|steps| - 1]) && Enabled(Run(r, steps[..|steps| - 1]), steps[|steps| - 1]))
  }

  function Run(r: Requests, steps: seq<Step>): Requests
    requires EnabledRun(r, steps)
    decreases |steps|, 1
  {
    if steps == [] then r else After(Run(r, steps[..|steps| - 1]), steps[|steps| - 1])
  }

  /** The caller is still going to take what its future gets. */
  predicate Listening(r: Requests, id: string) {
    InPhase(r, id, Sending) || InPhase(r, id, Awaiting)
  }

  /** A listening caller whose future is open is in the dictionary, unless it was thrown out. */
  ghost predicate Reachable(r: Requests) {
    && r.pending <= r.futures.Keys && r.futures.Keys == r.phases.Keys
    && forall id :: id in r.futures && Listening(r, id) && r.futures[id] == Waiting ==> id in r.pending || id in r.dropped
  }

  lemma StepKeepsReachable(r: Requests, s: Step)
    requires Reachable(r) && Enabled(r, s)
    ensures Reachable(After(r, s))
    ensures s != Close && !s.BadResponse? ==> After(r, s).dropped == r.dropped
  {
  }

  lemma {:induction false} RunKeepsReachable(r: Requests, steps: seq<Step>)
    requires Reachable(r) && EnabledRun(r, steps)
    ensures Reachable(Run(r, steps))
    decreases |steps|
  {
    if steps != [] {
      RunKeepsReachable(r, steps[..|steps| - 1]);
      StepKeepsReachable(Run(r, steps[..|steps| - 1]), steps[|steps| - 1]);
    }
  }

  /** Somebody listens, nobody has answered. */
  predicate Unanswered(r: Requests, id: string) {
    Listening(r, id) && r.futures[id] == Waiting
  }

  /** What ends a request on the side of its caller without an answer. */
  predicate GivesUp(s: Step, id: string) {
    s == TimeoutFires(id) || s == SendRaises(id) || s == CallerCancelled(id)
  }

  /** What throws an open request out of the dictionary without an answer: a close, or an error frame
      for it that cannot be read. */
  predicate Drops(s: Step, id: string) {
    s == Close || (s == BadResponse(id) && id != "")
  }

  /** Step `k` threw the open request out, and since then its caller has not given up. */
  ghost predicate DroppedAt(steps: seq<Step>, id: string, k: nat) {
    && k < |steps| && Drops(steps[k], id)
    && EnabledRun(Initial(), steps[..k])
    && id in Run(Initial(), steps[..k]).pending && Unanswered(Run(Initial(), steps[..k]), id)
    && forall j :: k < j < |steps| ==> !GivesUp(steps[j], id)
  }

  lemma DroppedBefore(steps: seq<Step>, id: string, k: nat)
    requires k + 1 < |steps|
    ensures DroppedAt(steps, id, k) <==> DroppedAt(steps[..|steps| - 1], id, k) && !GivesUp(steps[|steps| - 1], id)
  {
    assert steps[..|steps| - 1][..k] == steps[..k];
  }

  /** How one step makes an unanswered request one that no response can reach. */
  lemma StepDrops(r: Requests, s: Step, id: string)
    requires Reachable(r) && Enabled(r, s)
    ensures Unanswered(After(r, s), id) && id !in After(r, s).pending
       <==> Unanswered(r, id) && if id in r.pending then Drops(s, id) else !GivesUp(s, id)
  {
  }

  lemma {:induction false} OutOfReachExactlyWhenDropped(steps: seq<Step>, id: string)
    requires EnabledRun(Initial(), steps)
    ensures var r := Run(Initial(), steps); Unanswered(r, id) && id !in r.pending <==> exists k :: DroppedAt(steps, id, k)
    decreases |steps|
  {
    if steps != [] {
      var n := |steps| - 1;
      var before := steps[..n];
      RunKeepsReachable(Initial(), before);
      OutOfReachExactlyWhenDropped(before, id);
      StepDrops(Run(Initial(), before), steps[n], id);
      forall k | 0 <= k < n
        ensures DroppedAt(steps, id, k) <==> DroppedAt(before, id, k) && !GivesUp(steps[n], id)
      {
        DroppedBefore(steps, id, k);
      }
      assert DroppedAt(steps, id, n)
        <==> Drops(steps[n], id) && id in Run(Initial(), before).pending && Unanswered(Run(Initial(), before), id);
    }
  }

  /** When a receive loop ends a caller is left waiting exactly when its open request had been thrown out
      of the dictionary, by a close or by an error frame that cannot be read, and its caller has not
      given up since. */
  lemma WaitsAfterLoopEndsExactlyWhenDropped(steps: seq<Step>, id: string)
    requires EnabledRun(Initial(), steps) && Enabled(Run(Initial(), steps), LoopEnds)
    ensures Unanswered(After(Run(Initial(), steps), LoopEnds), id) <==> exists k :: DroppedAt(steps, id, k)
  {
    RunKeepsReachable(Initial(), steps);
    OutOfReachExactlyWhenDropped(steps, id);
  }

  lemma RunOneMore(steps: seq<Step>, s: Step)
    requires EnabledRun(Initial(), steps) && Enabled(Run(Initial(), steps), s)
    ensures EnabledRun(Initial(), steps + [s]) && Run(Initial(), steps + [s]) == After(Run(Initial(), steps), s)
  {
    assert (steps + [s])[..|steps|] == steps;
  }

  /** A run that leaves its caller waiting: the request is sent while a connection is being set up,
      and a close comes before the loop of the next connection. */
  lemma CallerLeftWaiting(id: string) returns (steps: seq<Step>)
    ensures EnabledRun(Initial(), steps) && Enabled(Run(Initial(), steps), LoopEnds)
    ensures Unanswered(After(Run(Initial(), steps), LoopEnds), id)
  {
    var s0: seq<Step> := [];
    RunOneMore(s0, Opens);
    var s1 := s0 + [Opens];
    RunOneMore(s1, Send(id));
    var s2 := s1 + [Send(id)];
    RunOneMore(s2, Sent(id));
    var s3 := s2 + [Sent(id)];
    RunOneMore(s3, Close);
    var s4 := s3 + [Close];
    var r := Run(Initial(), s4);
    assert Unanswered(r, id) && id !in r.pending && r.opening == 1;
    RunOneMore(s4, ConnectFails);
    var s5 := s4 + [ConnectFails];
    assert Unanswered(Run(Initial(), s5), id) && id !in Run(Initial(), s5).pending;
    steps := NextConnection(s5, id);
  }

  /** A connection after that changes nothing for the caller. */
  lemma NextConnection(before: seq<Step>, id: string) returns (steps: seq<Step>)
    requires EnabledRun(Initial(), before)
    requires Unanswered(Run(Initial(), before), id) && id !in Run(Initial(), before).pending
    ensures EnabledRun(Initial(), steps) && Enabled(Run(Initial(), steps), LoopEnds)
    ensures Unanswered(After(Run(Initial(), steps), LoopEnds), id)
  {
    RunOneMore(before, Opens);
    var s1 := before + [Opens];
    RunOneMore(s1, LoopStarts);
    steps := s1 + [LoopStarts];
  }

  /** An error frame for a request whose error is no object leaves its caller waiting, without any close. */
  lemma CallerLeftByBadResponse(id: string) returns (steps: seq<Step>)
    requires id != ""
    ensures EnabledRun(Initial(), steps) && Close !in steps && Run(Initial(), steps).loops == 0
    ensures Unanswered(Run(Initial(), steps), id)
  {
    var s0: seq<Step> := [];
    RunOneMore(s0, Opens);
    var s1 := s0 + [Opens];
    RunOneMore(s1, LoopStarts);
    var s2 := s1 + [LoopStarts];
    RunOneMore(s2, Send(id));
    var s3 := s2 + [Send(id)];
    RunOneMore(s3, Sent(id));
    var s4 := s3 + [Sent(id)];
    RunOneMore(s4, BadResponse(id));
    steps := s4 + [BadResponse(id)];
  }

  /** Whenever a loop has ended and no new connection has been opened since, the dictionary is empty, and
      nothing more is thrown out of it. */
  lemma {:induction false} NothingPendingOnceLoopEnded(r: Requests, steps: seq<Step>)
    requires r.loops > 0 && EnabledRun(r, [LoopEnds] + steps)
    requires forall s :: s in steps ==> !s.Opens?
    ensures var h := Run(r, [LoopEnds] + steps); h.pending == {} && !h.connected && h.dropped == r.dropped
    decreases |steps|
  {
    var all := [LoopEnds] + steps;
    if steps == [] {
      assert all[..|all| - 1] == [] && all[|all| - 1] == LoopEnds;
    } else {
      var before := steps[..|steps| - 1];
      assert all[..|all| - 1] == [LoopEnds] + before && all[|all| - 1] == steps[|steps| - 1];
      assert steps[|steps| - 1] in steps;
      NothingPendingOnceLoopEnded(r, before);
    }
  }

  /** A future, once done, keeps what it holds. */
  lemma {:induction false} CompletesAtMostOnce(r: Requests, steps: seq<Step>, id: string)
    requires EnabledRun(r, steps) && id in r.futures && r.futures[id] != Waiting
    ensures id in Run(r, steps).futures && Run(r, steps).futures[id] == r.futures[id]
    decreases |steps|
  {
    if steps != [] {
      CompletesAtMostOnce(r, steps[..|steps| - 1], id);
    }
  }

  /** A result comes from a response frame that carries the request's own id, at a moment when the
      request was in the dictionary and open. */
  lemma {:induction false} ResultIsOwnResponse(steps: seq<Step>, id: string) returns (k: nat)
    requires EnabledRun(Initial(), steps)
    requires id in Run(Initial(), steps).futures && Run(Initial(), steps).futures[id].Done?
    ensures k < |steps| && steps[k] == Response(id, true, Run(Initial(), steps).futures[id].result)
    ensures EnabledRun(Initial(), steps[..k])
    ensures var r := Run(Initial(), steps[..k]); id in r.pending && id in r.futures && r.futures[id] == Waiting
    decreases |steps|
  {
    var n := |steps| - 1;
    var before := Run(Initial(), steps[..n]);
    if id in before.futures && before.futures[id].Done? {
      k := ResultIsOwnResponse(steps[..n], id);
      CompletesAtMostOnce(before, [], id);
      assert steps[..n][..k] == steps[..k];
    } else {
      k := n;
    }
  }

  /** Which steps end an open request, and with what. A response or the end of a loop reaches only
      what is in the dictionary; a cancellation reaches the future itself. */
  predicate Ends(r: Requests, s: Step, id: string, outcome: Outcome<string>) {
    match outcome
    case Waiting => false
    case Done(result) => id != "" && id in r.pending && s == Response(id, true, result)
    case Failed(error) =>
      && id in r.pending
      && ((id != "" && s == Response(id, false, error)) || (error == CONNECTION_LOST && EndsLoop(r, s) && s != BadResponse(id)))
    case Cancelled => s == TimeoutFires(id) || (s == CallerCancelled(id) && InPhase(r, id, Awaiting))
  }

  predicate EndsLoop(r: Requests, s: Step) {
    s == LoopEnds || (s.BadResponse? && s.id != "" && s.id in r.pending && s.id in r.futures && r.futures[s.id] == Waiting)
  }

  /** Step `k` ends the request, which was open before. */
  ghost predicate EndedAt(steps: seq<Step>, id: string, outcome: Outcome<string>, k: nat) {
    && k < |steps| && EnabledRun(Initial(), steps[..k])
    && var r := Run(Initial(), steps[..k]);
    && id in r.futures && r.futures[id] == Waiting && Ends(r, steps[k], id, outcome)
  }

  ghost predicate EndedBy(steps: seq<Step>, id: string, outcome: Outcome<string>) {
    exists k :: EndedAt(steps, id, outcome, k)
  }

  lemma EndedLast(steps: seq<Step>, id: string, outcome: Outcome<string>)
    requires steps != []
    ensures EndedBy(steps, id, outcome)
       <==> EndedBy(steps[..|steps| - 1], id, outcome) || EndedAt(steps, id, outcome, |steps| - 1)
  {
    var before := steps[..|steps| - 1];
    forall k | 0 <= k < |before|
      ensures EndedAt(steps, id, outcome, k) <==> EndedAt(before, id, outcome, k)
    {
      assert before[..k] == steps[..k];
    }
    if EndedBy(before, id, outcome) {
      var k :| EndedAt(before, id, outcome, k);
      assert EndedAt(steps, id, outcome, k);
    }
  }

  lemma StepEnds(r: Requests, s: Step, id: string, outcome: Outcome<string>)
    requires Enabled(r, s) && outcome != Waiting && id in r.futures
    ensures id in After(r, s).futures
    ensures After(r, s).futures[id] == outcome
       <==> r.futures[id] == outcome || (r.futures[id] == Waiting && Ends(r, s, id, outcome))
  {
  }

  /** What a request ends with is exactly what the first step says that could end it: the payload of its
      own ok response, the error of its own failed one, the lost connection, or its cancellation. */
  lemma {:induction false} OutcomeExactlyFromItsStep(steps: seq<Step>, id: string, outcome: Outcome<string>)
    requires EnabledRun(Initial(), steps) && outcome != Waiting
    ensures id in Run(Initial(), steps).futures && Run(Initial(), steps).futures[id] == outcome <==> EndedBy(steps, id, outcome)
    decreases |steps|
  {
    if steps != [] {
      var before := steps[..|steps| - 1];
      OutcomeExactlyFromItsStep(before, id, outcome);
      EndedLast(steps, id, outcome);
      var r := Run(Initial(), before);
      if id in r.futures {
        StepEnds(r, steps[|steps| - 1], id, outcome);
      }
    }
  }

  /** In particular a response to an open request gives its caller just what it says. */
  lemma ResponseIsDelivered(steps: seq<Step>, k: nat, id: string, ok: bool, payload: string)
    requires EnabledRun(Initial(), steps) && k < |steps| && steps[k] == Response(id, ok, payload) && id != ""
    requires EnabledRun(Initial(), steps[..k])
    requires var r := Run(Initial(), steps[..k]); id in r.pending && id in r.futures && r.futures[id] == Waiting
    ensures id in Run(Initial(), steps).futures
    ensures Run(Initial(), steps).futures[id] == if ok then Done(payload) else Failed(payload)
  {
    var outcome := if ok then Done(payload) else Failed(payload);
    assert EndedAt(steps, id, outcome, k);
    OutcomeExactlyFromItsStep(steps, id, outcome);
  }

  /** A caller that has gone leaves an entry in the dictionary only if it was cancelled. */
  lemma {:induction false} LeavesEntryOnlyWhenCancelled(steps: seq<Step>, id: string)
    requires EnabledRun(Initial(), steps)
    ensures var r := Run(Initial(), steps);
      && Reachable(r)
      && (id in r.pending ==> InPhase(r, id, Gone) ==> CallerCancelled(id) in steps)
      && (id in r.pending ==> !r.futures[id].Done?)
    decreases |steps|
  {
    if steps != [] {
      var before := steps[..|steps| - 1];
      LeavesEntryOnlyWhenCancelled(before, id);
      StepKeepsReachable(Run(Initial(), before), steps[|steps| - 1]);
      assert steps == before + [steps[|steps| - 1]];
    }
  }

  /** Which steps take the connection down. */
  predicate Disconnects(r: Requests, s: Step) {
    s == ConnectFails || s == Close || EndsLoop(r, s)
  }

  /** The socket came up at step `k` and nothing has taken it down since. */
  ghost predicate UpSince(steps: seq<Step>, k: nat) {
    && k < |steps| && steps[k] == Opens
    && forall j :: k < j < |steps| ==> LeavesUp(steps, j)
  }

  ghost predicate LeavesUp(steps: seq<Step>, j: nat) {
    j < |steps| && EnabledRun(Initial(), steps[..j]) && !Disconnects(Run(Initial(), steps[..j]), steps[j])
  }

  lemma UpBefore(steps: seq<Step>, k: nat)
    requires k + 1 < |steps|
    ensures UpSince(steps, k) <==> UpSince(steps[..|steps| - 1], k) && LeavesUp(steps, |steps| - 1)
  {
    var before := steps[..|steps| - 1];
    forall j | 0 <= j < |before|
      ensures LeavesUp(before, j) <==> LeavesUp(steps, j)
    {
      assert before[..j] == steps[..j] && before[j] == steps[j];
    }
  }

  /** `_connected` says exactly that. */
  lemma {:induction false} ConnectedExactlyWhenUp(steps: seq<Step>)
    requires EnabledRun(Initial(), steps)
    ensures Run(Initial(), steps).connected <==> exists k :: UpSince(steps, k)
    decreases |steps|
  {
    if steps != [] {
      var n := |steps| - 1;
      var before := steps[..n];
      ConnectedExactlyWhenUp(before);
      forall k | 0 <= k < n
        ensures UpSince(steps, k) <==> UpSince(before, k) && LeavesUp(steps, n)
      {
        UpBefore(steps, k);
      }
      assert UpSince(steps, n) <==> steps[n] == Opens;
    }
  }

  // ----- chat completions

  /** One completed chat: the run it answers, its payload, and the last streamed text if any. */
  datatype Final = Final(run: string, payload: string, text: Option<string>)

  /** `futures` holds the future of every chat call, `runs` the run id it waits for; `completions` is
      the dictionary, in which a later call with the same run id replaces an earlier one. */
  datatype Chats = Chats(completions: map<string, nat>, futures: map<nat, Outcome<Final>>, runs: map<nat, string>,
                         buffer: map<string, seq<string>>)

  datatype ChatStep =
    | Register(ticket: nat, run: string)
    | AgentText(run: string, text: string)
    | FinalEvent(run: string, payload: string)
    | ChatTimeoutFires(ticket: nat)
    | ChatTimeoutRaised(ticket: nat)

  predicate ChatEnabled(c: Chats, s: ChatStep) {
    match s
    case Register(ticket, run) => run != "" && ticket !in c.futures
    case AgentText(_, _) => true
    case FinalEvent(_, _) => true
    case ChatTimeoutFires(ticket) => ticket in c.futures && ticket in c.runs
    case ChatTimeoutRaised(ticket) => ticket in c.futures && ticket in c.runs && c.futures[ticket] != Waiting
  }

  function Chunks(c: Chats, run: string): seq<string> {
    if run in c.buffer then c.buffer[run] else []
  }

  /** Chunks are cumulative: the last one is the whole text. */
  function LastChunk(c: Chats, run: string): Option<string> {
    var chunks := Chunks(c, run);
    if chunks == [] then None else Some(chunks[|chunks| - 1])
  }

  function AfterChat(c: Chats, s: ChatStep): Chats
    requires ChatEnabled(c, s)
  {
    match s
    case Register(ticket, run) =>
      c.(completions := c.completions[run := ticket], futures := c.futures[ticket := Waiting], runs := c.runs[ticket := run])
    case AgentText(run, text) =>
      if run == "" || text == "" then c else c.(buffer := c.buffer[run := Chunks(c, run) + [text]])
    case FinalEvent(run, payload) =>
      if run == "" || run !in c.completions then c
      else
        var ticket := c.completions[run];
        var popped := c.(completions := c.completions - {run});
        if ticket in c.futures && c.futures[ticket] == Waiting
        then popped.(futures := c.futures[ticket := Done(Final(run, payload, LastChunk(c, run)))], buffer := c.buffer - {run})
        else popped
    case ChatTimeoutFires(ticket) =>
      c.(futures := if c.futures[ticket] == Waiting then c.futures[ticket := Cancelled] else c.futures)
    case ChatTimeoutRaised(ticket) => c.(completions := c.completions - {c.runs[ticket]})
  }

  function NoChats(): Chats {
    Chats(map[], map[], map[], map[])
  }

  predicate ChatRunEnabled(c: Chats, steps: seq<ChatStep>)
    decreases |steps|
  {
    steps == [] || (ChatEnabled(c, steps[0]) && ChatRunEnabled(AfterChat(c, steps[0]), steps[1..]))
  }

  function ChatRun(c: Chats, steps: seq<ChatStep>): Chats
    requires ChatRunEnabled(c, steps)
    decreases |steps|
  {
    if steps == [] then c else ChatRun(AfterChat(c, steps[0]), steps[1..])
  }

  /** Every dictionary entry is a call that waits for just that run; every answer is for the run asked. */
  ghost predicate ChatConsistent(c: Chats) {
    && c.futures.Keys == c.runs.Keys
    && (forall run :: run in c.completions ==> c.completions[run] in c.runs && c.runs[c.completions[run]] == run)
    && (forall t :: t in c.futures && c.futures[t].Done? ==> c.futures[t].result.run == c.runs[t])
  }

  lemma ChatStepConsistent(c: Chats, s: ChatStep)
    requires ChatConsistent(c) && ChatEnabled(c, s)
    ensures ChatConsistent(AfterChat(c, s))
    ensures forall t :: t in c.futures && c.futures[t] != Waiting ==>
              t in AfterChat(c, s).futures && AfterChat(c, s).futures[t] == c.futures[t]
  {
  }

  /** Chat completions resolve at most once, and only with a final event of their own run. */
  lemma {:induction false} ChatsResolveOnceAndOwn(c: Chats, steps: seq<ChatStep>)
    requires ChatConsistent(c) && ChatRunEnabled(c, steps)
    ensures ChatConsistent(ChatRun(c, steps))
    ensures forall t :: t in c.futures && c.futures[t] != Waiting ==>
              t in ChatRun(c, steps).futures && ChatRun(c, steps).futures[t] == c.futures[t]
    decreases |steps|
  {
    if steps != [] {
      ChatStepConsistent(c, steps[0]);
      ChatsResolveOnceAndOwn(AfterChat(c, steps[0]), steps[1..]);
    }
  }

  /** Registered and open: the call that the next final event of its run answers. */
  ghost predicate Registered(c: Chats, ticket: nat, run: string) {
    && run != "" && run in c.completions && c.completions[run] == ticket
    && ticket in c.futures && c.futures[ticket] == Waiting
  }

  /** Nothing else in these steps touches the entry of the run: no second call for it, no timeout. */
  predicate Undisturbed(c: Chats, steps: seq<ChatStep>, ticket: nat, run: string)
    requires ChatRunEnabled(c, steps)
    decreases |steps|
  {
    steps == [] ||
    (&& (match steps[0]
         case Register(_, r) => r != run
         case ChatTimeoutFires(t) => t != ticket
         case ChatTimeoutRaised(t) => c.runs[t] != run
         case _ => true)
     && Undisturbed(AfterChat(c, steps[0]), steps[1..], ticket, run))
  }

  ghost predicate HasFinal(steps: seq<ChatStep>, run: string) {
    exists s :: s in steps && s.FinalEvent? && s.run == run
  }

  lemma FinalNowOrLater(steps: seq<ChatStep>, run: string)
    requires steps != []
    ensures HasFinal(steps, run) <==> (steps[0].FinalEvent? && steps[0].run == run) || HasFinal(steps[1..], run)
  {
    assert steps == [steps[0]] + steps[1..];
    assert steps[0] in steps;
  }

  lemma StaysRegistered(c: Chats, s: ChatStep, ticket: nat, run: string)
    requires ChatConsistent(c) && Registered(c, ticket, run) && ChatEnabled(c, s)
    requires Undisturbed(c, [s], ticket, run) && !(s.FinalEvent? && s.run == run)
    ensures Registered(AfterChat(c, s), ticket, run)
  {
  }

  /** Undisturbed, a registered call completes exactly when a final event of its run arrives after the
      registration. One that arrived before is lost. */
  lemma {:induction false} CompletesExactlyOnLaterFinal(c: Chats, steps: seq<ChatStep>, ticket: nat, run: string)
    requires ChatConsistent(c) && Registered(c, ticket, run)
    requires ChatRunEnabled(c, steps) && Undisturbed(c, steps, ticket, run)
    ensures ticket in ChatRun(c, steps).futures
    ensures ChatRun(c, steps).futures[ticket] != Waiting <==> HasFinal(steps, run)
    decreases |steps|
  {
    if steps != [] {
      var s, rest := steps[0], steps[1..];
      FinalNowOrLater(steps, run);
      ChatStepConsistent(c, s);
      if s.FinalEvent? && s.run == run {
        ChatsResolveOnceAndOwn(AfterChat(c, s), rest);
      } else {
        StaysRegistered(c, s, ticket, run);
        CompletesExactlyOnLaterFinal(AfterChat(c, s), rest, ticket, run);
      }
    }
  }

  lemma {:induction false} StaysRegisteredUntilFinal(c: Chats, steps: seq<ChatStep>, ticket: nat, run: string)
    requires ChatConsistent(c) && Registered(c, ticket, run)
    requires ChatRunEnabled(c, steps) && Undisturbed(c, steps, ticket, run) && !HasFinal(steps, run)
    ensures ChatConsistent(ChatRun(c, steps)) && Registered(ChatRun(c, steps), ticket, run)
    decreases |steps|
  {
    if steps != [] {
      var s, rest := steps[0], steps[1..];
      FinalNowOrLater(steps, run);
      ChatStepConsistent(c, s);
      StaysRegistered(c, s, ticket, run);
      StaysRegisteredUntilFinal(AfterChat(c, s), rest, ticket, run);
    }
  }

  /** A call that times out without a final event is cancelled for good, and leaves no entry behind. */
  lemma TimedOutCallIsGone(c: Chats, steps: seq<ChatStep>, later: seq<ChatStep>, ticket: nat, run: string)
    requires ChatConsistent(c) && Registered(c, ticket, run)
    requires ChatRunEnabled(c, steps) && Undisturbed(c, steps, ticket, run) && !HasFinal(steps, run)
    ensures var h := ChatRun(c, steps);
      && ChatEnabled(h, ChatTimeoutFires(ticket)) && ChatEnabled(AfterChat(h, ChatTimeoutFires(ticket)), ChatTimeoutRaised(ticket))
      && var g := AfterChat(AfterChat(h, ChatTimeoutFires(ticket)), ChatTimeoutRaised(ticket));
      && run !in g.completions
      && (ChatRunEnabled(g, later) ==> ticket in ChatRun(g, later).futures && ChatRun(g, later).futures[ticket] == Cancelled)
  {
    StaysRegisteredUntilFinal(c, steps, ticket, run);
    var h := ChatRun(c, steps);
    var f := AfterChat(h, ChatTimeoutFires(ticket));
    ChatStepConsistent(h, ChatTimeoutFires(ticket));
    ChatStepConsistent(f, ChatTimeoutRaised(ticket));
    if ChatRunEnabled(AfterChat(f, ChatTimeoutRaised(ticket)), later) {
      ChatsResolveOnceAndOwn(AfterChat(f, ChatTimeoutRaised(ticket)), later);
    }
  }

  /** A final event that comes before its call has registered leaves that call waiting. */
  lemma EarlyFinalIsLost(ticket: nat, run: string, payload: string)
    requires run != ""
    ensures var steps := [FinalEvent(run, payload), Register(ticket, run)];
      && ChatRunEnabled(NoChats(), steps)
      && ticket in ChatRun(NoChats(), steps).futures && ChatRun(NoChats(), steps).futures[ticket] == Waiting
  {
    var steps := [FinalEvent(run, payload), Register(ticket, run)];
    var rest := [Register(ticket, run)];
    assert steps[1..] == rest && rest[1..] == [];
    var c := AfterChat(NoChats(), steps[0]);
    assert c == NoChats();
    var d := AfterChat(c, rest[0]);
    assert ChatRunEnabled(d, []) && ChatRun(d, []) == d;
    assert ChatRunEnabled(c, rest) && ChatRun(c, rest) == d;
    assert ChatRun(NoChats(), steps) == d && ticket in d.futures;
  }

  /** Without a further chunk or a completion of the run, the last chunk stays the last one. */
  lemma {:induction false} LastChunkStays(c: Chats, steps: seq<ChatStep>, run: string)
    requires ChatRunEnabled(c, steps)
    requires forall s :: s in steps ==> !((s.AgentText? || s.FinalEvent?) && s.run == run)
    ensures LastChunk(ChatRun(c, steps), run) == LastChunk(c, run)
    decreases |steps|
  {
    if steps != [] {
      assert steps[0] in steps && forall s :: s in steps[1..] ==> s in steps;
      LastChunkStays(AfterChat(c, steps[0]), steps[1..], run);
    }
  }

  /** The text delivered with a completion is the last one streamed for its run. */
  lemma DeliversLastText(c: Chats, text: string, steps: seq<ChatStep>, payload: string, ticket: nat, run: string)
    requires run != "" && text != "" && ChatEnabled(c, AgentText(run, text))
    requires ChatRunEnabled(AfterChat(c, AgentText(run, text)), steps)
    requires forall s :: s in steps ==> !((s.AgentText? || s.FinalEvent?) && s.run == run)
    requires Registered(ChatRun(AfterChat(c, AgentText(run, text)), steps), ticket, run)
    ensures var h := ChatRun(AfterChat(c, AgentText(run, text)), steps);
      AfterChat(h, FinalEvent(run, payload)).futures[ticket] == Done(Final(run, payload, Some(text)))
  {
    LastChunkStays(AfterChat(c, AgentText(run, text)), steps, run);
  }

  /** The last text streamed for a run. */
  function LastText(steps: seq<ChatStep>, run: string): Option<string>
    decreases |steps|
  {
    if steps == [] then None
    else
      var later := LastText(steps[1..], run);
      var s := steps[0];
      if later.Some? then later else if s.AgentText? && s.run == run && s.text != "" then Some(s.text) else None
  }

  lemma {:induction false} LastChunkIsLastText(c: Chats, steps: seq<ChatStep>, run: string)
    requires ChatRunEnabled(c, steps) && run != ""
    requires forall s :: s in steps ==> !(s.FinalEvent? && s.run == run)
    ensures LastChunk(ChatRun(c, steps), run) == if LastText(steps, run).Some? then LastText(steps, run) else LastChunk(c, run)
    decreases |steps|
  {
    if steps != [] {
      assert steps[0] in steps && forall s :: s in steps[1..] ==> s in steps;
      LastChunkIsLastText(AfterChat(c, steps[0]), steps[1..], run);
    }
  }

  /** A completion delivers the last text streamed for its run since nothing was kept for it, or none if
      there was none, and leaves nothing for the next one of that run. */
  lemma DeliversExactlyWhatWasStreamed(c: Chats, steps: seq<ChatStep>, payload: string, ticket: nat, run: string)
    requires run !in c.buffer && ChatRunEnabled(c, steps)
    requires forall s :: s in steps ==> !(s.FinalEvent? && s.run == run)
    requires Registered(ChatRun(c, steps), ticket, run)
    ensures var h := AfterChat(ChatRun(c, steps), FinalEvent(run, payload));
      h.futures[ticket] == Done(Final(run, payload, LastText(steps, run))) && run !in h.buffer
  {
    LastChunkIsLastText(c, steps, run);
  }

  // ----- the object

  class RequestFuture {
    var outcome: Outcome<string>

    constructor ()
      ensures outcome == Waiting
    {
      outcome := Waiting;
    }
  }

  class ChatFuture {
    var answer: Outcome<Final>

    constructor ()
      ensures answer == Waiting
    {
      answer := Waiting;
    }
  }

  class OpenClawConnection {
    var connected: bool
    var pending: map<string, RequestFuture>
    ghost var futures: map<string, RequestFuture>   // of every request ever sent
    ghost var phases: map<string, Phase>
    ghost var dropped: set<string>
    ghost var opening: nat
    ghost var loops: nat

    /** The dictionary holds the requests' own futures, and no two requests share one. */
    ghost predicate Valid()
      reads this
    {
      && (forall id :: id in pending ==> id in futures && pending[id] == futures[id])
      && (forall i, j :: i in futures && j in futures && futures[i] == futures[j] ==> i == j)
    }

    ghost function View(): Requests
      reads this, futures.Values
    {
      Requests(connected, opening, loops, pending.Keys, map id | id in futures :: futures[id].outcome, phases, dropped)
    }

    constructor ()
      ensures Valid() && View() == Initial()
    {
      connected, pending, opening, loops := false, map[], 0, 0;
      futures, phases, dropped := map[], map[], {};
    }

    /** `_do_connect` once the socket is up, before authentication. */
    method OnOpen()
      requires Valid() && Enabled(View(), Opens)
      modifies this`connected, this`opening
      ensures Valid() && View() == After(old(View()), Opens)
    {
      connected := true;
      opening := opening + 1;
    }

    /** `_do_connect` failing after that. */
    method OnConnectFails()
      requires Valid() && Enabled(View(), ConnectFails)
      modifies this`connected, this`opening
      ensures Valid() && View() == After(old(View()), ConnectFails)
    {
      connected := false;
      opening := opening - 1;
    }

    /** The receive task takes its first step. One that is cancelled before never runs its `finally`. */
    ghost method StartLoop()
      requires Valid() && Enabled(View(), LoopStarts)
      modifies this`opening, this`loops
      ensures Valid() && View() == After(old(View()), LoopStarts)
    {
      opening, loops := opening - 1, loops + 1;
    }

    /** `send_request` past its write, now in `wait_for`. */
    method OnSent(ghost id: string)
      requires Valid() && Enabled(View(), Sent(id))
      modifies this`phases
      ensures Valid() && View() == After(old(View()), Sent(id))
    {
      phases := phases[id := Awaiting];
    }

    /** `send_request` returning its result. The response has popped the entry already. */
    method OnResult(ghost id: string, future: RequestFuture) returns (result: string)
      requires Valid() && Enabled(View(), Wakes(id)) && futures[id] == future && future.outcome.Done?
      modifies this`phases
      ensures Valid() && View() == After(old(View()), Wakes(id))
      ensures result == View().futures[id].result
    {
      result := future.outcome.result;
      phases := phases[id := Gone];
    }

    /** `send_request` up to the socket write; without a connection it raises at once. */
    method StartRequest(id: string) returns (sent: bool)
      requires Valid() && id !in futures && id !in phases
      modifies this
      ensures Valid() && sent == old(connected)
      ensures View() == if old(connected) then After(old(View()), Send(id)) else old(View())
    {
      if !connected {
        return false;
      }
      AddRequest(id);
      sent := true;
    }

    method AddRequest(id: string)
      requires Valid() && id !in futures
      modifies this`pending, this`futures, this`phases
      ensures Valid()
      ensures View() == old(View()).(pending := old(pending).Keys + {id}, futures := old(View()).futures[id := Waiting],
                                     phases := old(phases)[id := Sending])
    {
      var future := new RequestFuture();
      Enter(id, future);
    }

    method Enter(id: string, future: RequestFuture)
      requires Valid() && id !in futures && future !in futures.Values && future.outcome == Waiting
      modifies this`pending, this`futures, this`phases
      ensures Valid()
      ensures View() == old(View()).(pending := old(pending).Keys + {id}, futures := old(View()).futures[id := Waiting],
                                     phases := old(phases)[id := Sending])
    {
      assert forall i :: i in futures ==> futures[i] != future;
      pending := pending[id := future];
      futures := futures[id := future];
      phases := phases[id := Sending];
    }

    /** The `res` branch of the receive loop. */
    method OnResponse(id: string, ok: bool, payload: string)
      requires Valid() && loops > 0
      modifies this`pending, futures.Values
      ensures Valid() && View() == After(old(View()), Response(id, ok, payload))
    {
      if id != "" && id in pending {
        var future := Pop(id);
        if future.outcome == Waiting {
          future.outcome := Resolved(ok, payload);
        }
      }
    }

    method Pop(id: string) returns (future: RequestFuture)
      requires Valid() && id in pending
      modifies this`pending
      ensures Valid() && id in futures && future == futures[id]
      ensures View() == old(View()).(pending := old(pending).Keys - {id})
    {
      future := pending[id];
      pending := pending - {id};
    }

    /** The `res` branch for an error that is no object: the request is popped, and reading the error
        raises, which ends the loop. */
    method OnBadResponse(id: string)
      requires Valid() && loops > 0
      modifies this, futures.Values
      ensures Valid() && View() == After(old(View()), BadResponse(id))
    {
      if id != "" && id in pending {
        var open := pending[id].outcome == Waiting;
        PopUnread(id, open);
        if open {
          EndLoop();
        }
      }
    }

    method PopUnread(id: string, ghost open: bool)
      requires Valid() && id in pending
      modifies this`pending, this`dropped
      ensures Valid()
      ensures View() == old(View()).(pending := old(pending).Keys - {id}, dropped := old(dropped) + if open then {id} else {})
    {
      pending := pending - {id};
      dropped := dropped + if open then {id} else {};
    }

    /** The task that awaits `send_request` is cancelled: no clause of it sees that, so the entry stays. */
    method OnCallerCancelled(ghost id: string, future: RequestFuture, awaiting: bool)
      requires Valid() && Enabled(View(), CallerCancelled(id)) && futures[id] == future
      requires awaiting == (phases[id] == Awaiting)
      modifies this`phases, future
      ensures Valid() && View() == After(old(View()), CallerCancelled(id))
    {
      if awaiting && future.outcome == Waiting {
        future.outcome := Cancelled;
      }
      phases := phases[id := Gone];
    }

    /** Leaving `send_request` by an exception: the write failed, the wait timed out, or the future failed. */
    method Abandon(id: string)
      requires Valid() && id in futures
      requires InPhase(View(), id, Sending) || InPhase(View(), id, TimingOut)
               || (InPhase(View(), id, Awaiting) && futures[id].outcome != Waiting && !futures[id].outcome.Done?)
      modifies this`pending, this`phases
      ensures Valid()
      ensures View() == After(old(View()), if old(InPhase(View(), id, Sending)) then SendRaises(id)
                                           else if old(InPhase(View(), id, TimingOut)) then TimeoutRaised(id) else Wakes(id))
    {
      pending := pending - {id};
      phases := phases[id := Gone];
    }

    /** `wait_for` reaching its timeout on the caller's own future. */
    method OnTimeout(ghost id: string, future: RequestFuture)
      requires Valid() && Enabled(View(), TimeoutFires(id)) && futures[id] == future
      modifies this`phases, future
      ensures Valid() && View() == After(old(View()), TimeoutFires(id))
    {
      if future.outcome == Waiting {
        future.outcome := Cancelled;
      }
      phases := phases[id := TimingOut];
    }

    /** The `finally` block of the receive loop: fail every open request, forget them all. */
    method EndLoop()
      requires Valid() && loops > 0
      modifies this`connected, this`loops, this`pending, futures.Values
      ensures Valid() && View() == Ended(old(View()))
    {
      FailPending();
      connected, loops := false, loops - 1;
      pending := map[];
    }

    method FailPending()
      requires Valid()
      modifies futures.Values
      ensures Valid() && View() == old(View()).(futures := AllFailed(old(View())))
    {
      var left := pending.Keys;
      while left != {}
        invariant left <= pending.Keys
        invariant forall id :: id in futures ==>
                    futures[id].outcome == if id in pending && id !in left && old(futures[id].outcome) == Waiting
                                           then Failed(CONNECTION_LOST) else old(futures[id].outcome)
        decreases left
      {
        var id :| id in left;
        if pending[id].outcome == Waiting {
          pending[id].outcome := Failed(CONNECTION_LOST);
        }
        left := left - {id};
      }
    }

    /** The end of `close`, after its awaits. */
    method ForgetAll()
      requires Valid()
      modifies this
      ensures Valid() && View() == After(old(View()), Close)
    {
      dropped := dropped + pending.Keys;
      connected := false;
      pending := map[];
    }
  }

  class ChatCompletions {
    var completions: map<string, ChatFuture>
    var buffer: map<string, seq<string>>
    ghost var tickets: map<string, nat>        // the number of the call each entry belongs to
    ghost var futures: map<nat, ChatFuture>    // of every call ever registered
    ghost var runs: map<nat, string>

    ghost predicate Valid()
      reads this
    {
      && tickets.Keys == completions.Keys
      && (forall run :: run in tickets ==> tickets[run] in futures && completions[run] == futures[tickets[run]])
      && (forall i, j :: i in futures && j in futures && futures[i] == futures[j] ==> i == j)
    }

    ghost function View(): Chats
      reads this, futures.Values
    {
      Chats(tickets, map t | t in futures :: futures[t].answer, runs, buffer)
    }

    constructor ()
      ensures Valid() && View() == NoChats()
    {
      completions, buffer, tickets, futures, runs := map[], map[], map[], map[], map[];
    }

    /** The second phase of `send_chat`. */
    method RegisterCall(ghost ticket: nat, run: string)
      requires Valid() && ChatEnabled(View(), Register(ticket, run))
      modifies this
      ensures Valid() && View() == AfterChat(old(View()), Register(ticket, run))
    {
      var future := new ChatFuture();
      completions := completions[run := future];
      tickets := tickets[run := ticket];
      futures := futures[ticket := future];
      runs := runs[ticket := run];
    }

    /** The `agent` branch of the receive loop. */
    method OnAgentText(run: string, text: string)
      requires Valid()
      modifies this`buffer
      ensures Valid() && View() == AfterChat(old(View()), AgentText(run, text))
    {
      if run == "" || text == "" {
        return;
      }
      buffer := buffer[run := (if run in buffer then buffer[run] else []) + [text]];
    }

    /** The `chat` branch of the receive loop, for the state "final". */
    method OnFinal(run: string, payload: string)
      requires Valid()
      modifies this, futures.Values
      ensures Valid() && View() == AfterChat(old(View()), FinalEvent(run, payload))
    {
      if run == "" || run !in completions {
        return;
      }
      ghost var ticket := tickets[run];
      var future := Pop(run);
      if future.answer == Waiting {
        Complete(ticket, future, run, payload);
      }
    }

    method Pop(run: string) returns (future: ChatFuture)
      requires Valid() && run in completions
      modifies `completions, `tickets
      ensures Valid() && future == old(completions[run])
      ensures View() == old(View()).(completions := old(tickets) - {run})
    {
      future := completions[run];
      completions := completions - {run};
      tickets := tickets - {run};
    }

    /** The waiting call gets the final event with the last text collected for the run. */
    method Complete(ghost ticket: nat, future: ChatFuture, run: string, payload: string)
      requires Valid() && ticket in futures && futures[ticket] == future
      modifies `buffer, future
      ensures Valid()
      ensures View() == old(View()).(futures := old(View()).futures[ticket := Done(Final(run, payload, LastChunk(old(View()), run)))],
                                     buffer := old(buffer) - {run})
    {
      var collected := if run in buffer then buffer[run] else [];
      buffer := buffer - {run};
      future.answer := Done(Final(run, payload, if collected == [] then None else Some(collected[|collected| - 1])));
    }

    /** `wait_for` reaching its timeout on the call's own future. */
    method OnChatTimeout(ghost ticket: nat, future: ChatFuture)
      requires Valid() && ChatEnabled(View(), ChatTimeoutFires(ticket)) && futures[ticket] == future
      modifies future
      ensures Valid() && View() == AfterChat(old(View()), ChatTimeoutFires(ticket))
    {
      if future.answer == Waiting {
        future.answer := Cancelled;
      }
    }

    /** `send_chat` leaving by its timeout: it removes whatever stands under its run id. */
    method AbandonCall(ghost ticket: nat, run: string)
      requires Valid() && ChatEnabled(View(), ChatTimeoutRaised(ticket)) && runs[ticket] == run
      modifies this
      ensures Valid() && View() == AfterChat(old(View()), ChatTimeoutRaised(ticket))
    {
      completions := completions - {run};
      tickets := tickets - {run};
    }
  }
}
