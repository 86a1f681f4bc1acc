/** The in-process kill switch (`KillSwitch`): a hard stop with an audit trail of activation records. */
module KillSwitch {
  import opened Common

  datatype State = Inactive | Active | Drilling

  datatype Trigger = Manual | Anomaly | CanaryFailure | ErrorSpike | Security | DrillTest

  datatype Deactivation = Deactivation(at: int, actor: string, reason: string)

  const MAX_HISTORY := 100

  // ----- the switch as a value

  datatype Entry = Entry(state: State, trigger: Trigger, actor: string, reason: string, activatedAt: int,
                         deactivation: Option<Deactivation>)

  /** The state and every record ever made. */
  datatype Trail = Trail(state: State, entries: seq<Entry>)

  datatype Op =
    | DoActivate(trigger: Trigger, actor: string, reason: string, now: int)
    | DoDrill(actor: string, reason: string, now: int)
    | DoDeactivate(actor: string, reason: string, now: int)

  /** The record an activation or a drill makes. */
  function EntryOf(op: Op): Entry
    requires !op.DoDeactivate?
  {
    match op
    case DoActivate(trigger, actor, reason, now) => Entry(Active, trigger, actor, reason, now, None)
    case DoDrill(actor, reason, now) => Entry(Drilling, DrillTest, actor, reason, now, None)
  }

  function WithStamp(entries: seq<Entry>, stamp: Deactivation): seq<Entry>
    requires entries != []
  {
    var n := |entries| - 1;
    entries[n := entries[n].(deactivation := Some(stamp))]
  }

  /** A deactivation stamps the newest record, unless the switch is inactive already. */
  function After(t: Trail, op: Op): Trail {
    match op
    case DoDeactivate(actor, reason, now) =>
      Trail(Inactive, if t.state == Inactive || t.entries == [] then t.entries
                      else WithStamp(t.entries, Deactivation(now, actor, reason)))
    case _ => Trail(EntryOf(op).state, t.entries + [EntryOf(op)])
  }

  function Run(ops: seq<Op>): Trail
    decreases |ops|
  {
    if ops == [] then Trail(Inactive, []) else After(Run(ops[..|ops| - 1]), ops[|ops| - 1])
  }

  /** How many records a run makes. */
  function Records(ops: seq<Op>): nat
    decreases |ops|
  {
    if ops == [] then 0 else Records(ops[..|ops| - 1]) + if ops[|ops| - 1].DoDeactivate? then 0 else 1
  }

  lemma {:induction false} RunTells(ops: seq<Op>)
    ensures |Run(ops).entries| == Records(ops)
    ensures Run(ops).state == Inactive <==> ops == [] || ops[|ops| - 1].DoDeactivate?
    decreases |ops|
  {
    if ops != [] {
      RunTells(ops[..|ops| - 1]);
    }
  }

  lemma {:induction false} RecordsGrow(ops: seq<Op>, k: nat)
    requires k <= |ops|
    ensures Records(ops[..k]) <= Records(ops)
    decreases |ops|
  {
    if k < |ops| {
      assert ops[..|ops| - 1][..k] == ops[..k];
      RecordsGrow(ops[..|ops| - 1], k);
    } else {
      assert ops[..k] == ops;
    }
  }

  /** When a later operation makes a record too, the newest record is not that of operation `i`. */
  lemma NewerRecord(ops: seq<Op>, i: nat)
    requires i + 1 < |ops| && !ops[i].DoDeactivate? && !ops[|ops| - 1].DoDeactivate?
    ensures Records(ops) > Records(ops[..i]) + 1
  {
    var before := ops[..|ops| - 1];
    assert ops[..i + 1][..i] == ops[..i];
    assert before[..i + 1] == ops[..i + 1];
    RecordsGrow(before, i + 1);
  }

  /** The stamp the record of operation `i` has at the end of a run. */
  function StampOf(ops: seq<Op>, i: nat): Option<Deactivation> {
    if i + 1 < |ops| && ops[i + 1].DoDeactivate?
    then Some(Deactivation(ops[i + 1].now, ops[i + 1].actor, ops[i + 1].reason)) else None
  }

  /** The audit law: a record keeps what its operation said, and is stamped exactly when the very next
      operation is a deactivation, by that one. A record replaced by another stays unstamped for good. */
  lemma {:induction false} StampedExactlyWhenDeactivatedNext(ops: seq<Op>, i: nat)
    requires i < |ops| && !ops[i].DoDeactivate?
    ensures var r := Records(ops[..i]);
      && r < |Run(ops).entries|
      && Run(ops).entries[r] == match ops[i]
           case DoActivate(trigger, actor, reason, now) => Entry(Active, trigger, actor, reason, now, StampOf(ops, i))
           case _ => Entry(Drilling, DrillTest, ops[i].actor, ops[i].reason, ops[i].now, StampOf(ops, i))
    decreases |ops|
  {
    var n := |ops| - 1;
    var before := ops[..n];
    RunTells(before);
    if i < n {
      assert before[..i] == ops[..i];
      StampedExactlyWhenDeactivatedNext(before, i);
      if i + 1 < n && !before[n - 1].DoDeactivate? {
        NewerRecord(before, i);
      }
    }
  }

  /** An activation without a later deactivation is meant to hold. It does exactly when no drill
      follows the last activation, because a drill replaces ACTIVE by DRILL. */
  lemma {:induction false} HoldsExactlyWithoutLaterDrill(ops: seq<Op>, i: nat)
    requires i < |ops| && ops[i].DoActivate?
    requires forall j :: i < j < |ops| ==> !ops[j].DoDeactivate?
    ensures Run(ops).state == Active
       <==> exists k :: i <= k < |ops| && ops[k].DoActivate? && forall j :: k < j < |ops| ==> !ops[j].DoDrill?
  {
    if Run(ops).state == Active {
      assert ops[|ops| - 1].DoActivate?;
    }
  }

  /** A drill after an activation ends the hard stop. */
  lemma DrillEndsHardStop(activate: Op, drill: Op)
    requires activate.DoActivate? && drill.DoDrill?
    ensures Run([activate]).state == Active && Run([activate, drill]).state == Drilling
  {
    assert [activate][..0] == [] && [activate, drill][..1] == [activate];
  }

  // ----- the objects

  /** An activation record. Everything but the deactivation stamp is fixed when it is made. */
  class Activation {
    const state: State
    const trigger: Trigger
    const actor: string
    const reason: string
    const activatedAt: int
    var deactivation: Option<Deactivation>

    function View(): Entry
      reads this
    {
      Entry(state, trigger, actor, reason, activatedAt, deactivation)
    }

    constructor (state: State, trigger: Trigger, actor: string, reason: string, now: int)
      ensures this.state == state && this.trigger == trigger && this.actor == actor
      ensures this.reason == reason && this.activatedAt == now && deactivation == None
    {
      this.state, this.trigger, this.actor, this.reason, this.activatedAt := state, trigger, actor, reason, now;
      deactivation := None;
    }
  }

  function CountTrigger(records: seq<Activation>, t: Trigger): nat {
    if records == [] then 0 else CountTrigger(records[..|records| - 1], t) + (if records[|records| - 1].trigger == t then 1 else 0)
  }

  /** The dictionary holds the triggers that occur, each with how often it does. */
  ghost predicate CountsTriggers(byTrigger: map<Trigger, nat>, records: seq<Activation>) {
    forall t :: (t in byTrigger <==> CountTrigger(records, t) > 0) && (t in byTrigger ==> byTrigger[t] == CountTrigger(records, t))
  }

  lemma CountOneMore(byTrigger: map<Trigger, nat>, records: seq<Activation>, r: Activation)
    requires CountsTriggers(byTrigger, records)
    ensures CountsTriggers(byTrigger[r.trigger := (if r.trigger in byTrigger then byTrigger[r.trigger] else 0) + 1], records + [r])
  {
    assert (records + [r])[..|records|] == records;
  }

  class KillSwitch {
    var state: State
    var current: Activation?
    var history: seq<Activation>
    ghost var log: seq<Activation>   // every record ever made

    /** The state is that of the current record, which is the newest one and not stamped; there is
        no current record exactly when the switch is inactive; the history is the end of the log. */
    ghost predicate Valid()
      reads this, log
    {
      && history == LastN(log, MAX_HISTORY)
      && (forall i, j :: 0 <= i < j < |log| ==> log[i] != log[j])
      && (state == Inactive <==> current == null)
      && (current != null ==> log != [] && current == log[|log| - 1]
                              && current.state == state && current.deactivation == None)
    }

    ghost function View(): Trail
      reads this, log
    {
      Trail(state, seq(|log|, k requires 0 <= k < |log| reads this, log => log[k].View()))
    }

    predicate IsActive()
      reads this
    {
      state == Active
    }

    constructor ()
      ensures Valid() && state == Inactive && log == [] && View() == Run([])
    {
      state, current, history, log := Inactive, null, [], [];
    }

    method AppendHistory(record: Activation)
      requires history == LastN(log, MAX_HISTORY)
      modifies this`history, this`log
      ensures log == old(log) + [record] && history == LastN(log, MAX_HISTORY)
    {
      CappedAppend(log, record, MAX_HISTORY);
      history := history + [record];
      if |history| > MAX_HISTORY {
        history := history[|history| - MAX_HISTORY..];
      }
      log := log + [record];
    }

    /** A new record becomes current; no earlier record is touched. */
    method Start(state: State, trigger: Trigger, actor: string, reason: string, now: int) returns (record: Activation)
      requires Valid() && state != Inactive
      modifies this
      ensures Valid() && this.state == state && current == record && fresh(record)
      ensures record.state == state && record.trigger == trigger && record.actor == actor && record.reason == reason
      ensures log == old(log) + [record]
      ensures View() == Trail(state, old(View()).entries + [Entry(state, trigger, actor, reason, now, None)])
    {
      record := new Activation(state, trigger, actor, reason, now);
      this.state, current := state, record;
      AppendHistory(record);
    }

    method Activate(trigger: Trigger, actor: string, reason: string, now: int) returns (record: Activation)
      requires Valid()
      modifies this
      ensures Valid() && state == Active && current == record && fresh(record)
      ensures record.state == Active && record.trigger == trigger && record.actor == actor && record.reason == reason
      ensures log == old(log) + [record]
      ensures View() == After(old(View()), DoActivate(trigger, actor, reason, now))
    {
      record := Start(Active, trigger, actor, reason, now);
    }

    method Drill(actor: string, reason: string, now: int) returns (record: Activation)
      requires Valid()
      modifies this
      ensures Valid() && state == Drilling && current == record && fresh(record)
      ensures log == old(log) + [record]
      ensures View() == After(old(View()), DoDrill(actor, reason, now))
    {
      record := Start(Drilling, DrillTest, actor, reason, now);
    }

    /** Only the newest record, which is the current one, gets the stamp. */
    method StampNewest(stamp: Deactivation)
      requires Valid() && current != null
      modifies current`deactivation
      ensures current.deactivation == Some(stamp)
      ensures forall r :: r in log && r != current ==> r.deactivation == old(r.deactivation)
      ensures log != [] && View() == old(View()).(entries := WithStamp(old(View()).entries, stamp))
    {
      current.deactivation := Some(stamp);
    }

    /** Clears the switch and stamps the current record, and only that one. */
    method Deactivate(actor: string, reason: string, now: int) returns (prev: Activation?)
      requires Valid()
      modifies this, current
      ensures Valid() && state == Inactive && prev == old(current)
      ensures log == old(log) && history == old(history)
      ensures prev != null ==> prev.deactivation == Some(Deactivation(now, actor, reason))
      ensures forall r :: r in log && r != prev ==> r.deactivation == old(r.deactivation)
      ensures View() == After(old(View()), DoDeactivate(actor, reason, now))
    {
      if state == Inactive {
        return null;
      }
      prev := current;
      StampNewest(Deactivation(now, actor, reason));
      state, current := Inactive, null;
    }

    static method CountOne(byTrigger: map<Trigger, nat>, ghost counted: seq<Activation>, r: Activation)
      returns (more: map<Trigger, nat>)
      requires CountsTriggers(byTrigger, counted)
      ensures CountsTriggers(more, counted + [r])
    {
      CountOneMore(byTrigger, counted, r);
      more := byTrigger[r.trigger := (if r.trigger in byTrigger then byTrigger[r.trigger] else 0) + 1];
    }

    /** Counts by trigger over the kept history. */
    method Stats() returns (total: nat, byTrigger: map<Trigger, nat>)
      requires Valid()
      ensures total == |history| <= MAX_HISTORY
      ensures CountsTriggers(byTrigger, history)
    {
      total := |history|;
      byTrigger := map[];
      for k := 0 to |history|
        invariant CountsTriggers(byTrigger, history[..k])
      {
        assert history[..k + 1] == history[..k] + [history[k]];
        byTrigger := CountOne(byTrigger, history[..k], history[k]);
      }
      assert history[..|history|] == history;
    }
  }
}
