/** The daily budget of autonomous runs (`RateBudgetTracker`): a check and a record are separate
    calls, so several threads may pass the check before any of them records. */
module RateBudget {
  datatype Limits = Limits(runs: int, lowRiskMerges: int, mediumPlus: int)

  datatype Usage = Usage(date: int, runs: nat, lowRiskMerges: nat, mediumPlus: nat)

  datatype Kind = Runs | LowRiskMerges | MediumPlus

  // ----- the tracker as a value

  function Rolled(u: Usage, today: int): Usage {
    if u.date != today then Usage(today, 0, 0, 0) else u
  }

  function Used(u: Usage, kind: Kind): nat {
    match kind
    case Runs => u.runs
    case LowRiskMerges => u.lowRiskMerges
    case MediumPlus => u.mediumPlus
  }

  function Limit(limits: Limits, kind: Kind): int {
    match kind
    case Runs => limits.runs
    case LowRiskMerges => limits.lowRiskMerges
    case MediumPlus => limits.mediumPlus
  }

  predicate Available(u: Usage, limits: Limits, kind: Kind, today: int) {
    Used(Rolled(u, today), kind) < Limit(limits, kind)
  }

  function Recorded(u: Usage, kind: Kind, today: int): Usage {
    var v := Rolled(u, today);
    match kind
    case Runs => v.(runs := v.runs + 1)
    case LowRiskMerges => v.(lowRiskMerges := v.lowRiskMerges + 1)
    case MediumPlus => v.(mediumPlus := v.mediumPlus + 1)
  }

  // ----- threads between a check that passed and their record

  datatype Entry = Entry(date: int, kind: Kind)

  /** `passed` are the threads, by kind, that have passed a check and not yet recorded; `log` is every
      record ever made. */
  datatype Shared = Shared(usage: Usage, passed: map<Kind, set<nat>>, log: seq<Entry>)

  datatype Step =
    | Check(thread: nat, kind: Kind, today: int)
    | Record(thread: nat, kind: Kind, today: int)

  function PassedFor(s: Shared, kind: Kind): set<nat> {
    if kind in s.passed then s.passed[kind] else {}
  }

  /** A thread records only after its own check passed. The clock never goes back. */
  predicate Enabled(s: Shared, step: Step) {
    && step.today >= s.usage.date
    && (step.Record? ==> step.thread in PassedFor(s, step.kind))
  }

  function After(s: Shared, limits: Limits, step: Step): Shared {
    match step
    case Check(thread, kind, today) =>
      s.(usage := Rolled(s.usage, today),
         passed := if Available(s.usage, limits, kind, today) then s.passed[kind := PassedFor(s, kind) + {thread}] else s.passed)
    case Record(thread, kind, today) =>
      Shared(Recorded(s.usage, kind, today), s.passed[kind := PassedFor(s, kind) - {thread}], s.log + [Entry(today, kind)])
  }

  predicate EnabledRun(s: Shared, limits: Limits, steps: seq<Step>)
    decreases |steps|
  {
    steps == [] || (Enabled(s, steps[0]) && EnabledRun(After(s, limits, steps[0]), limits, steps[1..]))
  }

  function Run(s: Shared, limits: Limits, steps: seq<Step>): Shared
    decreases |steps|
  {
    if steps == [] then s else Run(After(s, limits, steps[0]), limits, steps[1..])
  }

  function CountOn(log: seq<Entry>, date: int, kind: Kind): nat
    decreases |log|
  {
    if log == [] then 0
    else
      var n := |log| - 1;
      CountOn(log[..n], date, kind) + if log[n] == Entry(date, kind) then 1 else 0
  }

  /** With threads numbered below `k`: what is counted today plus what is under way stays below the
      limit plus `k`; the counter is the log's count for its day; no day ever went over. */
  ghost predicate WithinBudget(s: Shared, limits: Limits, kind: Kind, k: nat) {
    && (forall t :: t in PassedFor(s, kind) ==> t < k)
    && (PassedFor(s, kind) != {} ==> Limit(limits, kind) >= 1)
    && (Used(s.usage, kind) + |PassedFor(s, kind)| > 0 ==> Used(s.usage, kind) + |PassedFor(s, kind)| <= Limit(limits, kind) + k - 1)
    && (forall i :: 0 <= i < |s.log| ==> s.log[i].date <= s.usage.date)
    && CountOn(s.log, s.usage.date, kind) == Used(s.usage, kind)
    && (forall date :: CountOn(s.log, date, kind) > 0 ==> CountOn(s.log, date, kind) <= Limit(limits, kind) + k - 1)
  }

  lemma {:induction false} NothingAfter(log: seq<Entry>, date: int, kind: Kind)
    requires forall i :: 0 <= i < |log| ==> log[i].date < date
    ensures CountOn(log, date, kind) == 0
    decreases |log|
  {
    if log != [] {
      NothingAfter(log[..|log| - 1], date, kind);
    }
  }

  lemma CountAppend(log: seq<Entry>, e: Entry, kind: Kind)
    ensures forall date :: CountOn(log + [e], date, kind) == CountOn(log, date, kind) + if e == Entry(date, kind) then 1 else 0
  {
    assert (log + [e])[..|log|] == log;
  }

  lemma {:induction false} BoundedSize(s: set<nat>, k: nat)
    requires forall t :: t in s ==> t < k
    ensures |s| <= k
    decreases k
  {
    if k > 0 {
      BoundedSize(s - {k - 1}, k - 1);
    } else {
      assert s == {};
    }
  }

  lemma RolloverKeepsBudget(s: Shared, limits: Limits, kind: Kind, k: nat, today: int)
    requires WithinBudget(s, limits, kind, k) && today >= s.usage.date
    ensures WithinBudget(s.(usage := Rolled(s.usage, today)), limits, kind, k)
  {
    if s.usage.date != today {
      NothingAfter(s.log, today, kind);
      BoundedSize(PassedFor(s, kind), k);
    }
  }

  lemma PassKeepsBudget(s: Shared, limits: Limits, kind: Kind, k: nat, thread: nat, of: Kind)
    requires WithinBudget(s, limits, kind, k) && thread < k && Used(s.usage, of) < Limit(limits, of)
    ensures WithinBudget(s.(passed := s.passed[of := PassedFor(s, of) + {thread}]), limits, kind, k)
  {
    if of == kind {
      BoundedSize(PassedFor(s, kind) + {thread}, k);
    }
  }

  lemma RecordKeepsBudget(s: Shared, limits: Limits, kind: Kind, k: nat, thread: nat, of: Kind)
    requires WithinBudget(s, limits, kind, k) && thread in PassedFor(s, of)
    ensures WithinBudget(Shared(Recorded(s.usage, of, s.usage.date), s.passed[of := PassedFor(s, of) - {thread}],
                                s.log + [Entry(s.usage.date, of)]), limits, kind, k)
  {
    CountAppend(s.log, Entry(s.usage.date, of), kind);
    if of == kind {
      assert |PassedFor(s, kind) - {thread}| == |PassedFor(s, kind)| - 1;
    }
  }

  lemma StepKeepsBudget(s: Shared, limits: Limits, kind: Kind, k: nat, step: Step)
    requires WithinBudget(s, limits, kind, k) && Enabled(s, step) && step.thread < k
    ensures WithinBudget(After(s, limits, step), limits, kind, k)
  {
    RolloverKeepsBudget(s, limits, kind, k, step.today);
    var rolled := s.(usage := Rolled(s.usage, step.today));
    match step
    case Check(thread, of, today) =>
      if Available(s.usage, limits, of, today) {
        PassKeepsBudget(rolled, limits, kind, k, thread, of);
      }
    case Record(thread, of, _) => RecordKeepsBudget(rolled, limits, kind, k, thread, of);
  }

  /** With `k` threads interleaving checks and records in any way, no day ever sees more than the
      limit plus `k - 1` of a kind; with one thread, or calls that do not overlap, never more than the limit. */
  lemma {:induction false} NeverFarOverBudget(s: Shared, limits: Limits, kind: Kind, k: nat, steps: seq<Step>)
    requires WithinBudget(s, limits, kind, k) && EnabledRun(s, limits, steps)
    requires forall step :: step in steps ==> step.thread < k
    ensures WithinBudget(Run(s, limits, steps), limits, kind, k)
    decreases |steps|
  {
    if steps != [] {
      assert steps[0] in steps && forall step :: step in steps[1..] ==> step in steps;
      StepKeepsBudget(s, limits, kind, k, steps[0]);
      NeverFarOverBudget(After(s, limits, steps[0]), limits, kind, k, steps[1..]);
    }
  }

  /** From a fresh tracker, said of the log alone. */
  lemma DailyCap(limits: Limits, kind: Kind, k: nat, start: int, steps: seq<Step>, date: int)
    requires var s := Shared(Usage(start, 0, 0, 0), map[], []); EnabledRun(s, limits, steps)
    requires forall step :: step in steps ==> step.thread < k
    ensures var count := CountOn(Run(Shared(Usage(start, 0, 0, 0), map[], []), limits, steps).log, date, kind);
      count > 0 ==> count <= Limit(limits, kind) + k - 1
  {
    NeverFarOverBudget(Shared(Usage(start, 0, 0, 0), map[], []), limits, kind, k, steps);
  }

  /** The extra `k - 1` is real: with one run left, `k` threads that check before any records all pass. */
  lemma {:induction false} OverlapLetsAllPass(limits: Limits, s: Shared, k: nat, steps: seq<Step>)
    requires limits.runs >= 1 && Used(s.usage, Runs) == limits.runs - 1
    requires steps == seq(k, i requires 0 <= i < k => Check(i, Runs, s.usage.date))
    ensures EnabledRun(s, limits, steps)
    ensures forall t :: 0 <= t < k ==> t in PassedFor(Run(s, limits, steps), Runs)
    ensures Run(s, limits, steps).usage == s.usage
  {
    AllPass(limits, s, 0, k, steps);
  }

  lemma {:induction false} AllPass(limits: Limits, s: Shared, from: nat, k: nat, steps: seq<Step>)
    requires limits.runs >= 1 && Used(s.usage, Runs) == limits.runs - 1 && from <= k
    requires steps == seq(k - from, i requires 0 <= i < k - from => Check(from + i, Runs, s.usage.date))
    ensures EnabledRun(s, limits, steps)
    ensures forall t :: from <= t < k || t in PassedFor(s, Runs) ==> t in PassedFor(Run(s, limits, steps), Runs)
    ensures Run(s, limits, steps).usage == s.usage
    decreases k - from
  {
    if from < k {
      var next := After(s, limits, steps[0]);
      assert next.usage == s.usage;
      AllPass(limits, next, from + 1, k, steps[1..]);
    }
  }

  /** Their records all go through as well. */
  lemma {:induction false} AllRecord(limits: Limits, s: Shared, from: nat, k: nat, steps: seq<Step>)
    requires from <= k && forall t :: from <= t < k ==> t in PassedFor(s, Runs)
    requires steps == seq(k - from, i requires 0 <= i < k - from => Record(from + i, Runs, s.usage.date))
    ensures EnabledRun(s, limits, steps)
    ensures Run(s, limits, steps).usage == s.usage.(runs := s.usage.runs + k - from)
    ensures CountOn(Run(s, limits, steps).log, s.usage.date, Runs) == CountOn(s.log, s.usage.date, Runs) + k - from
    decreases k - from
  {
    if from < k {
      var next := After(s, limits, steps[0]);
      CountAppend(s.log, Entry(s.usage.date, Runs), Runs);
      AllRecord(limits, next, from + 1, k, steps[1..]);
    }
  }

  lemma {:induction false} RunConcat(s: Shared, limits: Limits, a: seq<Step>, b: seq<Step>)
    requires EnabledRun(s, limits, a) && EnabledRun(Run(s, limits, a), limits, b)
    ensures EnabledRun(s, limits, a + b) && Run(s, limits, a + b) == Run(Run(s, limits, a), limits, b)
    decreases |a|
  {
    if a == [] {
      assert a + b == b;
    } else {
      assert (a + b)[0] == a[0] && (a + b)[1..] == a[1..] + b;
      RunConcat(After(s, limits, a[0]), limits, a[1..], b);
    }
  }

  /** The bound is tight: with one run left, `k` threads that all check and then all record put
      exactly the limit plus `k - 1` runs into the log of the day. */
  lemma BoundIsReached(limits: Limits, s: Shared, k: nat) returns (steps: seq<Step>)
    requires limits.runs >= 1 && s.usage.runs == limits.runs - 1 && CountOn(s.log, s.usage.date, Runs) == s.usage.runs
    ensures EnabledRun(s, limits, steps) && forall step :: step in steps ==> step.thread < k
    ensures CountOn(Run(s, limits, steps).log, s.usage.date, Runs) == limits.runs + k - 1
  {
    var checks := seq(k, i requires 0 <= i < k => Check(i, Runs, s.usage.date));
    OverlapLetsAllPass(limits, s, k, checks);
    OverlapKeepsLog(limits, s, checks);
    var mid := Run(s, limits, checks);
    var records := seq(k, i requires 0 <= i < k => Record(i, Runs, mid.usage.date));
    AllRecord(limits, mid, 0, k, records);
    RunConcat(s, limits, checks, records);
    steps := checks + records;
  }

  /** Checks record nothing. */
  lemma {:induction false} OverlapKeepsLog(limits: Limits, s: Shared, steps: seq<Step>)
    requires forall step :: step in steps ==> step.Check?
    ensures Run(s, limits, steps).log == s.log
    decreases |steps|
  {
    if steps != [] {
      assert steps[0] in steps && forall step :: step in steps[1..] ==> step in steps;
      OverlapKeepsLog(limits, After(s, limits, steps[0]), steps[1..]);
    }
  }

  // ----- the object

  class RateBudgetTracker {
    const limits: Limits
    var current: Usage

    constructor (limits: Limits, today: int)
      ensures this.limits == limits && current == Usage(today, 0, 0, 0)
    {
      this.limits := limits;
      current := Usage(today, 0, 0, 0);
    }

    method RolloverIfNeeded(today: int)
      modifies this
      ensures current == Rolled(old(current), today)
    {
      if current.date != today {
        current := Usage(today, 0, 0, 0);
      }
    }

    /** The three `check_can_...` calls: false where the program raises BudgetExhausted. */
    method CheckCan(kind: Kind, today: int) returns (ok: bool)
      modifies this
      ensures ok == Available(old(current), limits, kind, today) && current == Rolled(old(current), today)
    {
      RolloverIfNeeded(today);
      ok := Used(current, kind) < Limit(limits, kind);
    }

    /** The three `record_...` calls. */
    method RecordOne(kind: Kind, today: int)
      modifies this
      ensures current == Recorded(old(current), kind, today)
    {
      RolloverIfNeeded(today);
      match kind {
        case Runs => current := current.(runs := current.runs + 1);
        case LowRiskMerges => current := current.(lowRiskMerges := current.lowRiskMerges + 1);
        case MediumPlus => current := current.(mediumPlus := current.mediumPlus + 1);
      }
    }
  }
}
