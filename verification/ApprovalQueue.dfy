/** The queue of approval requests (`ApprovalQueue`). Low risk is approved at once; everything else
    waits for a human or for its time to live to run out. */
module ApprovalQueue {
  import opened Common
  import opened ResidualRisk

  datatype State = Pending | Approved | Rejected | TimedOut | AutoApproved

  datatype Request = Request(runId: string, level: Level, state: State, expiresAt: int)
  {
    predicate IsTerminal() {
      state != Pending
    }
  }

  datatype Error = DuplicateId | UnknownId | AlreadyTerminal

  type Queue = map<string, Request>

  // ----- the queue as a value

  function Submitted(q: Queue, id: string, runId: string, level: Level, expiresAt: int): Result<Queue, Error> {
    if id in q then Err(DuplicateId)
    else Ok(q[id := Request(runId, level, if level == Low then AutoApproved else Pending, expiresAt)])
  }

  function Resolved(q: Queue, id: string, to: State): Result<Queue, Error> {
    if id !in q then Err(UnknownId)
    else if q[id].IsTerminal() then Err(AlreadyTerminal)
    else Ok(q[id := q[id].(state := to)])
  }

  function ExpiredAt(r: Request, now: int): Request {
    if r.state == Pending && now >= r.expiresAt then r.(state := TimedOut) else r
  }

  function Expired(q: Queue, now: int): Queue {
    map id | id in q :: ExpiredAt(q[id], now)
  }

  /** The requests a cleanup changes. */
  function Due(q: Queue, now: int): set<string> {
    set id | id in q && q[id].state == Pending && now >= q[id].expiresAt
  }

  /** A cleanup under way: the ids in `left` are still to be looked at. */
  function ExpiredBut(q: Queue, now: int, left: set<string>): Queue {
    map id | id in q :: if id in left then q[id] else ExpiredAt(q[id], now)
  }

  lemma ExpireOne(q: Queue, now: int, left: set<string>, id: string)
    requires id in left && left <= q.Keys
    ensures ExpiredBut(q, now, left - {id}) == ExpiredBut(q, now, left)[id := ExpiredAt(q[id], now)]
    ensures |Due(q, now) - (left - {id})| == |Due(q, now) - left| + if id in Due(q, now) then 1 else 0
  {
    if id in Due(q, now) {
      assert Due(q, now) - (left - {id}) == Due(q, now) - left + {id};
    } else {
      assert Due(q, now) - (left - {id}) == Due(q, now) - left;
    }
  }

  lemma NothingLeft(q: Queue, now: int)
    ensures Due(q, now) - {} == Due(q, now) && ExpiredBut(q, now, {}) == Expired(q, now)
    ensures ExpiredBut(q, now, q.Keys) == q && Due(q, now) - q.Keys == {}
  {
  }

  datatype Op =
    | Submit(id: string, runId: string, level: Level, expiresAt: int)
    | Resolve(id: string, approve: bool)
    | Expire(now: int)

  /** An operation that raises leaves the queue as it was. */
  function After(q: Queue, op: Op): Queue {
    match op
    case Submit(id, runId, level, expiresAt) =>
      var r := Submitted(q, id, runId, level, expiresAt); if r.Ok? then r.value else q
    case Resolve(id, approve) =>
      var r := Resolved(q, id, if approve then Approved else Rejected); if r.Ok? then r.value else q
    case Expire(now) => Expired(q, now)
  }

  function Run(q: Queue, ops: seq<Op>): Queue
    decreases |ops|
  {
    if ops == [] then q else Run(After(q, ops[0]), ops[1..])
  }

  /** A decision is final: no run changes a request that is not pending, or forgets any. */
  lemma {:induction false} DecisionsAreFinal(q: Queue, ops: seq<Op>, id: string)
    requires id in q
    ensures id in Run(q, ops)
    ensures q[id].IsTerminal() ==> Run(q, ops)[id] == q[id]
    ensures Run(q, ops)[id].(state := q[id].state) == q[id]
    decreases |ops|
  {
    if ops != [] {
      DecisionsAreFinal(After(q, ops[0]), ops[1..], id);
    }
  }

  /** What the operation makes of a pending request, if anything. */
  predicate Decides(op: Op, id: string, expiresAt: int, to: State) {
    match to
    case Approved => op == Resolve(id, true)
    case Rejected => op == Resolve(id, false)
    case TimedOut => op.Expire? && op.now >= expiresAt
    case _ => false
  }

  predicate Undecided(op: Op, id: string, expiresAt: int) {
    !Decides(op, id, expiresAt, Approved) && !Decides(op, id, expiresAt, Rejected) && !Decides(op, id, expiresAt, TimedOut)
  }

  /** Operation `k` is the first that decides the request, and this is what it makes of it. */
  predicate FirstDecides(ops: seq<Op>, id: string, expiresAt: int, to: State, k: nat) {
    && k < |ops| && Decides(ops[k], id, expiresAt, to)
    && forall j :: 0 <= j < k ==> Undecided(ops[j], id, expiresAt)
  }

  ghost predicate DecidedAs(ops: seq<Op>, id: string, expiresAt: int, to: State) {
    exists k :: FirstDecides(ops, id, expiresAt, to, k)
  }

  lemma FirstOrLater(ops: seq<Op>, id: string, expiresAt: int, to: State)
    requires ops != []
    ensures DecidedAs(ops, id, expiresAt, to)
       <==> Decides(ops[0], id, expiresAt, to) || (Undecided(ops[0], id, expiresAt) && DecidedAs(ops[1..], id, expiresAt, to))
  {
    if Decides(ops[0], id, expiresAt, to) {
      assert FirstDecides(ops, id, expiresAt, to, 0);
    }
    if Undecided(ops[0], id, expiresAt) && DecidedAs(ops[1..], id, expiresAt, to) {
      var k: nat :| FirstDecides(ops[1..], id, expiresAt, to, k);
      assert ops[k + 1] == ops[1..][k] && forall j :: 0 < j < k + 1 ==> ops[j] == ops[1..][j - 1];
      assert FirstDecides(ops, id, expiresAt, to, k + 1);
    }
    if DecidedAs(ops, id, expiresAt, to) {
      var k: nat :| FirstDecides(ops, id, expiresAt, to, k);
      if k > 0 {
        assert ops[1..][k - 1] == ops[k] && forall j :: 0 <= j < k - 1 ==> ops[1..][j] == ops[j + 1];
        assert FirstDecides(ops[1..], id, expiresAt, to, k - 1);
      }
    }
  }

  /** The first decision counts: a pending request is approved, rejected or timed out exactly when the
      first operation that could decide it says so. */
  lemma {:induction false} FirstDecisionCounts(q: Queue, ops: seq<Op>, id: string, to: State)
    requires id in q && q[id].state == Pending && to != Pending
    ensures id in Run(q, ops)
    ensures Run(q, ops)[id].state == to <==> DecidedAs(ops, id, q[id].expiresAt, to)
    decreases |ops|
  {
    if ops != [] {
      var h := After(q, ops[0]);
      FirstOrLater(ops, id, q[id].expiresAt, to);
      if Undecided(ops[0], id, q[id].expiresAt) {
        assert h[id] == q[id];
        FirstDecisionCounts(h, ops[1..], id, to);
      } else {
        DecisionsAreFinal(h, ops[1..], id);
      }
    }
  }

  /** From an empty queue, automatic approval is exactly the fate of low risk. */
  lemma {:induction false} AutoApprovedExactlyLow(q: Queue, ops: seq<Op>)
    requires forall id :: id in q ==> (q[id].state == AutoApproved <==> q[id].level == Low)
    ensures forall id :: id in Run(q, ops) ==> (Run(q, ops)[id].state == AutoApproved <==> Run(q, ops)[id].level == Low)
    decreases |ops|
  {
    if ops != [] {
      AutoApprovedExactlyLow(After(q, ops[0]), ops[1..]);
    }
  }

  // ----- the objects

  class ApprovalRequest {
    const runId: string
    const level: Level
    const expiresAt: int
    var state: State

    function View(): Request
      reads this
    {
      Request(runId, level, state, expiresAt)
    }

    constructor (runId: string, level: Level, expiresAt: int)
      ensures View() == Request(runId, level, if level == Low then AutoApproved else Pending, expiresAt)
    {
      this.runId, this.level, this.expiresAt := runId, level, expiresAt;
      state := if level == Low then AutoApproved else Pending;
    }
  }

  class ApprovalQueue {
    var requests: map<string, ApprovalRequest>

    ghost predicate Valid()
      reads this
    {
      forall i, j :: i in requests && j in requests && requests[i] == requests[j] ==> i == j
    }

    ghost function View(): Queue
      reads this, requests.Values
    {
      map id | id in requests :: requests[id].View()
    }

    constructor ()
      ensures Valid() && View() == map[]
    {
      requests := map[];
    }

    method Submit(id: string, runId: string, level: Level, expiresAt: int) returns (r: Result<State, Error>)
      requires Valid()
      modifies this
      ensures Valid() && fresh(requests.Values - old(requests.Values))
      ensures var s := Submitted(old(View()), id, runId, level, expiresAt);
        if s.Ok? then View() == s.value && r == Ok(View()[id].state) else r == Err(s.error) && View() == old(View())
    {
      if id in requests {
        return Err(DuplicateId);
      }
      var request := new ApprovalRequest(runId, level, expiresAt);
      requests := requests[id := request];
      r := Ok(request.state);
    }

    /** `_resolve`, behind `approve` and `reject`. */
    method Resolve(id: string, to: State) returns (r: Result<(), Error>)
      requires Valid()
      modifies requests.Values
      ensures Valid()
      ensures var s := Resolved(old(View()), id, to);
        if s.Ok? then r == Ok(()) && View() == s.value else r == Err(s.error) && View() == old(View())
    {
      if id !in requests {
        return Err(UnknownId);
      }
      var request := requests[id];
      if request.state != Pending {
        return Err(AlreadyTerminal);
      }
      request.state := to;
      r := Ok(());
    }

    /** Times out every expired pending request and says how many there were. */
    method CleanupExpired(now: int) returns (changed: nat)
      requires Valid()
      modifies requests.Values
      ensures Valid() && View() == Expired(old(View()), now)
      ensures changed == |Due(old(View()), now)|
    {
      ghost var before := View();
      changed := 0;
      var left := requests.Keys;
      NothingLeft(before, now);
      while left != {}
        invariant left <= requests.Keys
        invariant View() == ExpiredBut(before, now, left)
        invariant changed == |Due(before, now) - left|
        decreases left
      {
        var id :| id in left;
        var due := CleanupStep(before, left, id, now);
        changed := changed + due;
        left := left - {id};
      }
      NothingLeft(before, now);
    }

    /** One turn of the cleanup. */
    method CleanupStep(ghost before: Queue, ghost left: set<string>, id: string, now: int) returns (due: nat)
      requires Valid() && id in left && left <= requests.Keys && View() == ExpiredBut(before, now, left)
      modifies requests.Values
      ensures View() == ExpiredBut(before, now, left - {id})
      ensures |Due(before, now) - (left - {id})| == |Due(before, now) - left| + due
    {
      assert View().Keys == requests.Keys && ExpiredBut(before, now, left).Keys == before.Keys;
      ExpireOne(before, now, left, id);
      due := ExpireIfDue(id, now);
    }

    method ExpireIfDue(id: string, now: int) returns (due: nat)
      requires Valid() && id in requests
      modifies requests.Values
      ensures View() == old(View())[id := ExpiredAt(old(View())[id], now)]
      ensures due == if id in Due(old(View()), now) then 1 else 0
    {
      due := 0;
      if requests[id].state == Pending && now >= requests[id].expiresAt {
        requests[id].state := TimedOut;
        due := 1;
      }
    }
  }
}
