/** The persistent kill switch (`RedisKillSwitch`): a backend copy and an in-memory copy of one
    flag, with backend commands that may fail before or after taking effect. */
module RedisKillSwitch {
  import opened Common
  import KS = KillSwitch

  /** What the halt key can hold: a record, a record with nothing but a deactivation stamp, text that is
      not JSON, or JSON that is no object. */
  datatype Payload = Record(active: bool, trigger: KS.Trigger, actor: string, reason: string,
                            deactivation: Option<KS.Deactivation>)
                   | StampOnly(stamp: KS.Deactivation)
                   | Malformed
                   | NotAnObject

  /** What one backend command does: succeed, raise without effect, or raise after its effect. */
  datatype Fault = Fine | RaisesBefore | RaisesAfter

  const HISTORY_CAP := 100

  // ----- the two copies as a value

  /** `redis` is the halt key, `history` the audit list (newest first), `memory` the state of the
      in-process switch. */
  datatype Copies = Copies(available: bool, redis: Option<Payload>, history: seq<Payload>, memory: KS.State)

  predicate SaysActive(p: Option<Payload>) {
    p.Some? && p.value.Record? && p.value.active
  }

  function Pushed(c: Copies, p: Payload, fault: Fault): Copies {
    if !c.available then c
    else c.(available := fault == Fine, history := if fault == RaisesBefore then c.history else [p] + c.history)
  }

  function Trimmed(c: Copies, fault: Fault): Copies {
    if !c.available then c
    else c.(available := fault == Fine,
            history := if fault == RaisesBefore || |c.history| <= HISTORY_CAP then c.history else c.history[..HISTORY_CAP])
  }

  function AfterActivate(c: Copies, p: Payload, put: Fault, push: Fault, trim: Fault): Copies {
    var c1 := if !c.available then c
              else c.(available := put == Fine, redis := if put == RaisesBefore then c.redis else Some(p));
    Trimmed(Pushed(c1, p, push), trim).(memory := KS.Active)
  }

  /** The prior record with its deactivation stamp; text that is not a record yields the stamp alone. */
  function Stamped(p: Payload, d: KS.Deactivation): Payload {
    match p
    case Record(_, _, _, _, _) => p.(active := false, deactivation := Some(d))
    case _ => StampOnly(d)
  }

  /** The backend's part of a deactivation: delete the key, then the audit entry. */
  function Cleared(c: Copies, stamped: Payload, del: Fault, push: Fault, trim: Fault): Copies
    requires c.available
  {
    var c1 := c.(available := del == Fine, redis := if del == RaisesBefore then c.redis else None);
    Trimmed(Pushed(c1, stamped, push), trim)
  }

  /** Reading JSON that is no object as a record raises, out of `is_active` and out of `deactivate`. */
  predicate Unreadable(read: Option<Payload>) {
    read == Some(NotAnObject)
  }

  /** The halt key, as far as it can be read. */
  function Read(c: Copies, get: Fault): Option<Payload> {
    if c.available && get == Fine then c.redis else None
  }

  function AfterDeactivate(c: Copies, d: KS.Deactivation, get: Fault, del: Fault, push: Fault, trim: Fault): Copies {
    var read := Read(c, get);
    var c1 := c.(available := c.available && get == Fine);
    if Unreadable(read) then c1
    else if read.None? then c1.(memory := KS.Inactive)
    else Cleared(c1, Stamped(read.value, d), del, push, trim).(memory := KS.Inactive)
  }

  function AfterQuery(c: Copies, get: Fault): Copies {
    c.(available := c.available && get == Fine)
  }

  /** The answer of a query, or nothing when it raises. */
  function Answer(c: Copies, get: Fault): Option<bool> {
    if Unreadable(Read(c, get)) then None
    else Some(if c.available && get == Fine then SaysActive(c.redis) else c.memory == KS.Active)
  }

  // ----- runs

  datatype Event =
    | Activate(p: Payload, put: Fault, push: Fault, trim: Fault)
    | Deactivate(d: KS.Deactivation, get: Fault, del: Fault, push: Fault, trim: Fault)
    | Query(get: Fault)

  /** Activation always writes a record that says active. */
  predicate WellFormed(e: Event) {
    e.Activate? ==> e.p.Record? && e.p.active
  }

  function After(c: Copies, e: Event): Copies {
    match e
    case Activate(p, put, push, trim) => AfterActivate(c, p, put, push, trim)
    case Deactivate(d, get, del, push, trim) => AfterDeactivate(c, d, get, del, push, trim)
    case Query(get) => AfterQuery(c, get)
  }

  function Run(c: Copies, events: seq<Event>): Copies
    decreases |events|
  {
    if events == [] then c else After(Run(c, events[..|events| - 1]), events[|events| - 1])
  }

  /** The flag the switch is meant to be: set by the last activate or deactivate, else as at the start. */
  function Flag(start: bool, events: seq<Event>): bool
    decreases |events|
  {
    if events == [] then start
    else match events[|events| - 1]
      case Activate(_, _, _, _) => true
      case Deactivate(_, _, _, _, _) => false
      case Query(_) => Flag(start, events[..|events| - 1])
  }

  /** The backend copy can be read and says the same as the one in memory. */
  predicate Agree(c: Copies) {
    c.available ==> !Unreadable(c.redis) && (SaysActive(c.redis) <==> c.memory == KS.Active)
  }

  /** What a reader of the persistent copy would take the flag to be. */
  predicate Halted(c: Copies) {
    if !c.available then c.memory == KS.Active
    else match c.redis
      case Some(Record(active, _, _, _, _)) => active
      case _ => false
  }

  lemma StepKeepsAgreement(c: Copies, e: Event)
    requires Agree(c) && WellFormed(e)
    ensures Agree(After(c, e))
    ensures Halted(After(c, e)) == match e
      case Activate(_, _, _, _) => true
      case Deactivate(_, _, _, _, _) => false
      case Query(_) => Halted(c)
    ensures !c.available ==> !After(c, e).available
  {
  }

  /** The refinement invariant: whatever fails, both copies stand for the one flag. */
  lemma {:induction false} RunRefinesFlag(c: Copies, events: seq<Event>)
    requires Agree(c) && forall e :: e in events ==> WellFormed(e)
    ensures Agree(Run(c, events)) && Halted(Run(c, events)) == Flag(Halted(c), events)
    decreases |events|
  {
    if events != [] {
      var e := events[|events| - 1];
      assert e in events;
      RunRefinesFlag(c, events[..|events| - 1]);
      StepKeepsAgreement(Run(c, events[..|events| - 1]), e);
    }
  }

  /** A query after any run, however the backend fails, answers the flag. */
  ghost predicate AnswersFlag(c: Copies) {
    forall events, get :: (forall e :: e in events ==> WellFormed(e)) ==>
      Answer(Run(c, events), get) == Some(Flag(Halted(c), events))
  }

  /** Every answer is right exactly when the copies start in agreement. With a halt key that is no object
      the first query raises. A process that starts with
      the flag set in the backend and clear in memory answers "inactive" on the first failure. */
  lemma RightExactlyFromAgreement(c: Copies)
    ensures AnswersFlag(c) <==> Agree(c)
  {
    if Agree(c) {
      forall events, get | forall e :: e in events ==> WellFormed(e)
        ensures Answer(Run(c, events), get) == Some(Flag(Halted(c), events))
      {
        RunRefinesFlag(c, events);
      }
    } else {
      assert Answer(Run(c, []), if Unreadable(c.redis) then Fine else RaisesBefore) != Some(Flag(Halted(c), []));
    }
  }

  /** Said without the flag: active exactly when some activate comes after every deactivate. */
  lemma {:induction false} FlagIsLastSwitch(events: seq<Event>)
    ensures Flag(false, events)
       <==> exists i :: 0 <= i < |events| && events[i].Activate? && forall j :: i < j < |events| ==> !events[j].Deactivate?
    decreases |events|
  {
    if events != [] {
      var n := |events| - 1;
      var before := events[..n];
      FlagIsLastSwitch(before);
      if events[n].Query? {
        if i :| 0 <= i < |before| && before[i].Activate? && forall j :: i < j < |before| ==> !before[j].Deactivate? {
          assert events[i].Activate? && forall j :: i < j < |events| ==> !events[j].Deactivate?;
        }
        if i :| 0 <= i < |events| && events[i].Activate? && forall j :: i < j < |events| ==> !events[j].Deactivate? {
          assert before[i].Activate? && forall j :: i < j < |before| ==> before[j] == events[j];
        }
      } else if events[n].Activate? {
        assert events[n].Activate?;
      }
    }
  }

  /** The backend is never used again after its first failure, and what it held stays as it was. */
  lemma {:induction false} NeverAvailableAgain(c: Copies, events: seq<Event>)
    requires !c.available
    ensures !Run(c, events).available
    ensures Run(c, events).redis == c.redis && Run(c, events).history == c.history
    decreases |events|
  {
    if events != [] {
      NeverAvailableAgain(c, events[..|events| - 1]);
    }
  }

  /** The audit list is capped; a failing trim can leave one entry too many, for good. */
  lemma {:induction false} HistoryStaysCapped(c: Copies, events: seq<Event>)
    requires |c.history| <= HISTORY_CAP
    ensures var d := Run(c, events);
      |d.history| <= HISTORY_CAP + 1 && (d.available ==> |d.history| <= HISTORY_CAP)
    decreases |events|
  {
    if events != [] {
      HistoryStaysCapped(c, events[..|events| - 1]);
    }
  }

  // ----- the audit list

  predicate FaultFree(e: Event) {
    match e
    case Activate(_, put, push, trim) => put == push == trim == Fine
    case Deactivate(_, get, del, push, trim) => get == del == push == trim == Fine
    case Query(get) => get == Fine
  }

  /** The activation that is on: the last one, unless a deactivation came after it. */
  function OnRecord(events: seq<Event>): Option<Payload>
    decreases |events|
  {
    if events == [] then None
    else match events[|events| - 1]
      case Activate(p, _, _, _) => Some(p)
      case Deactivate(_, _, _, _, _) => None
      case Query(_) => OnRecord(events[..|events| - 1])
  }

  /** What an auditor expects, newest first: every activation, and for every deactivation that ended one
      the same trigger, actor and reason with the stamp of who ended it. */
  function Audit(events: seq<Event>): seq<Payload>
    decreases |events|
  {
    if events == [] then []
    else
      var before := events[..|events| - 1];
      match events[|events| - 1]
      case Activate(p, _, _, _) => [p] + Audit(before)
      case Deactivate(d, _, _, _, _) =>
        var on := OnRecord(before);
        if on.Some? && on.value.Record?
        then [Record(false, on.value.trigger, on.value.actor, on.value.reason, Some(d))] + Audit(before) else Audit(before)
      case Query(_) => Audit(before)
  }

  function Newest(entries: seq<Payload>): seq<Payload> {
    if |entries| <= HISTORY_CAP then entries else entries[..HISTORY_CAP]
  }

  lemma NewestAfterPush(p: Payload, entries: seq<Payload>)
    ensures Newest([p] + Newest(entries)) == Newest([p] + entries)
  {
  }

  /** Without failures the backend holds the newest hundred entries of the audit, and the key the
      activation that is on. */
  lemma {:induction false} AuditIsKept(c: Copies, events: seq<Event>)
    requires c.available && c.redis == None && c.history == []
    requires forall e :: e in events ==> WellFormed(e) && FaultFree(e)
    ensures var d := Run(c, events);
      && d.available && d.redis == OnRecord(events) && d.history == Newest(Audit(events))
      && (d.redis.Some? ==> d.redis.value.Record?)
    decreases |events|
  {
    if events != [] {
      var n := |events| - 1;
      assert events[n] in events;
      AuditIsKept(c, events[..n]);
      var audit := Audit(events);
      if audit != [] {
        NewestAfterPush(audit[0], Audit(events[..n]));
      }
    }
  }

  /** A deactivation returns just the entry it writes: the activation it ends, stamped. */
  lemma PriorIsTheAuditEntry(c: Copies, events: seq<Event>, d: KS.Deactivation, current: KS.Activation?)
    requires c.available && c.redis == None && c.history == []
    requires forall e :: e in events ==> WellFormed(e) && FaultFree(e)
    requires OnRecord(events).Some?
    ensures var all := events + [Deactivate(d, Fine, Fine, Fine, Fine)];
      Audit(all) != [] && Prior(Run(c, events), Fine, d, current) == Some(Audit(all)[0])
  {
    var all := events + [Deactivate(d, Fine, Fine, Fine, Fine)];
    assert all[..|all| - 1] == events;
    AuditIsKept(c, events);
  }

  /** A halt key whose text is no record is deactivated all the same, and only the stamp is known of it. */
  lemma BrokenRecordLeavesOnlyTheStamp(c: Copies, d: KS.Deactivation, current: KS.Activation?)
    requires c.available && (c.redis == Some(Malformed) || (c.redis.Some? && c.redis.value.StampOnly?))
    ensures var h := After(c, Deactivate(d, Fine, Fine, Fine, Fine));
      && h.redis == None && h.memory == KS.Inactive && h.history != [] && h.history[0] == StampOnly(d)
      && Prior(c, Fine, d, current) == Some(StampOnly(d))
  {
  }

  // ----- the objects

  /** The record of the memory copy as it is returned: its state is still the one it was made with. */
  function MemoryRecord(current: KS.Activation?, d: KS.Deactivation): Option<Payload> {
    if current == null then None
    else Some(Record(current.state == KS.Active, current.trigger, current.actor, current.reason, Some(d)))
  }

  /** What a deactivation returns. */
  function Prior(c: Copies, get: Fault, d: KS.Deactivation, current: KS.Activation?): Option<Payload> {
    if Read(c, get).Some? then Some(Stamped(Read(c, get).value, d)) else MemoryRecord(current, d)
  }

  class RedisClient {
    var halt: Option<Payload>
    var history: seq<Payload>

    method Set(p: Payload, fault: Fault) returns (raised: bool)
      modifies this
      ensures raised == (fault != Fine) && history == old(history)
      ensures halt == if fault == RaisesBefore then old(halt) else Some(p)
    {
      if fault != RaisesBefore {
        halt := Some(p);
      }
      raised := fault != Fine;
    }

    method Get(fault: Fault) returns (raised: bool, p: Option<Payload>)
      ensures raised == (fault != Fine) && (!raised ==> p == halt)
    {
      raised, p := fault != Fine, halt;
    }

    method Delete(fault: Fault) returns (raised: bool)
      modifies this
      ensures raised == (fault != Fine) && history == old(history)
      ensures halt == if fault == RaisesBefore then old(halt) else None
    {
      if fault != RaisesBefore {
        halt := None;
      }
      raised := fault != Fine;
    }

    method LPush(p: Payload, fault: Fault) returns (raised: bool)
      modifies this
      ensures raised == (fault != Fine) && halt == old(halt)
      ensures history == if fault == RaisesBefore then old(history) else [p] + old(history)
    {
      if fault != RaisesBefore {
        history := [p] + history;
      }
      raised := fault != Fine;
    }

    method LTrim(fault: Fault) returns (raised: bool)
      modifies this
      ensures raised == (fault != Fine) && halt == old(halt)
      ensures history == if fault == RaisesBefore || |old(history)| <= HISTORY_CAP then old(history) else old(history)[..HISTORY_CAP]
    {
      if fault != RaisesBefore && |history| > HISTORY_CAP {
        history := history[..HISTORY_CAP];
      }
      raised := fault != Fine;
    }
  }

  class RedisKillSwitch {
    const client: RedisClient
    const memory: KS.KillSwitch
    var available: bool

    ghost predicate Valid()
      reads this, memory, memory.log
    {
      memory.Valid()
    }

    /** The value this object stands for. */
    ghost function View(): Copies
      reads this, client, memory
    {
      Copies(available, client.halt, client.history, memory.state)
    }

    constructor (client: RedisClient, memory: KS.KillSwitch)
      requires memory.Valid()
      ensures Valid() && this.client == client && this.memory == memory && available
    {
      this.client, this.memory := client, memory;
      available := true;
    }

    /** The audit entry: push, then trim, each only while the backend is available. */
    method WriteHistory(p: Payload, push: Fault, trim: Fault)
      requires Valid()
      modifies this, client
      ensures Valid() && View() == Trimmed(Pushed(old(View()), p, push), trim)
    {
      if available {
        var raised := client.LPush(p, push);
        available := !raised;
      }
      if available {
        var raised := client.LTrim(trim);
        available := !raised;
      }
    }

    method Activate(actor: string, reason: string, trigger: KS.Trigger, now: int, put: Fault, push: Fault, trim: Fault)
      returns (record: Payload)
      requires Valid()
      modifies this, client, memory
      ensures Valid() && record == Record(true, trigger, actor, reason, None)
      ensures View() == After(old(View()), Event.Activate(record, put, push, trim))
    {
      record := Record(true, trigger, actor, reason, None);
      if available {
        var raised := client.Set(record, put);
        available := !raised;
        if !raised {
          WriteHistory(record, push, trim);
        }
      }
      var mirrored := memory.Activate(trigger, actor, reason, now);
    }

    /** The halt key, or nothing when the backend cannot be read. */
    method ReadBackend(get: Fault) returns (read: Option<Payload>)
      requires Valid()
      modifies this
      ensures Valid() && View() == AfterQuery(old(View()), get)
      ensures read == if available then client.halt else None
    {
      if !available {
        return None;
      }
      var raised, halt := client.Get(get);
      available := !raised;
      read := if raised then None else halt;
    }

    method ClearBackend(stamped: Payload, del: Fault, push: Fault, trim: Fault)
      requires Valid() && available
      modifies this, client
      ensures Valid() && View() == Cleared(old(View()), stamped, del, push, trim)
    {
      var raised := client.Delete(del);
      available := !raised;
      WriteHistory(stamped, push, trim);
    }

    /** The memory copy's part: it returns its own stamped record, if it had one. */
    method MirrorDeactivate(actor: string, reason: string, now: int) returns (prior: Option<Payload>)
      requires Valid()
      modifies memory, memory.current
      ensures Valid() && View() == old(View()).(memory := KS.Inactive)
      ensures prior == MemoryRecord(old(memory.current), KS.Deactivation(now, actor, reason))
    {
      var prev := memory.Deactivate(actor, reason, now);
      prior := if prev == null then None
               else Some(Record(prev.state == KS.Active, prev.trigger, prev.actor, prev.reason, prev.deactivation));
    }

    /** The prior record comes from the backend if it can be read and holds one, else from memory. When
        the halt key is no object the call raises, and neither copy is cleared. */
    method Deactivate(actor: string, reason: string, now: int, get: Fault, del: Fault, push: Fault, trim: Fault)
      returns (raised: bool, prior: Option<Payload>)
      requires Valid()
      modifies this, client, memory, memory.current
      ensures Valid()
      ensures View() == AfterDeactivate(old(View()), KS.Deactivation(now, actor, reason), get, del, push, trim)
      ensures raised == Unreadable(Read(old(View()), get))
      ensures !raised ==> prior == Prior(old(View()), get, KS.Deactivation(now, actor, reason), old(memory.current))
    {
      var read := ReadBackend(get);
      raised, prior := Unreadable(read), None;
      if !raised {
        prior := ClearBoth(read, KS.Deactivation(now, actor, reason), del, push, trim);
      }
    }

    method ClearBoth(read: Option<Payload>, d: KS.Deactivation, del: Fault, push: Fault, trim: Fault)
      returns (prior: Option<Payload>)
      requires Valid() && (read.Some? ==> available)
      modifies this, client, memory, memory.current
      ensures Valid()
      ensures View() == (if read.Some? then Cleared(old(View()), Stamped(read.value, d), del, push, trim) else old(View()))
                          .(memory := KS.Inactive)
      ensures prior == if read.Some? then Some(Stamped(read.value, d)) else MemoryRecord(old(memory.current), d)
    {
      prior := None;
      if read.Some? {
        prior := Some(Stamped(read.value, d));
        ClearBackend(prior.value, del, push, trim);
      }
      ghost var between := View();
      var mirrored := MirrorDeactivate(d.actor, d.reason, d.at);
      assert View() == between.(memory := KS.Inactive);
      if prior.None? {
        prior := mirrored;
      }
    }

    /** Nothing is returned where the program raises. */
    method IsActive(get: Fault) returns (active: Option<bool>)
      requires Valid()
      modifies this
      ensures Valid()
      ensures active == Answer(old(View()), get) && View() == After(old(View()), Query(get))
    {
      var read := ReadBackend(get);
      if Unreadable(read) {
        return None;
      }
      if available {
        return Some(SaysActive(read));
      }
      return Some(memory.IsActive());
    }
  }
}
