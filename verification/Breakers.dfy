/** Two circuit breakers written differently: the state machine of `CircuitBreaker`, which leaves
    OPEN lazily when it is asked, and `ProviderHealth`, which keeps no state but its counters. */
module Breakers {
  import opened Common

  datatype Event = Success(at: real) | Failure(at: real) | Query(at: real)

  ghost predicate Monotone(events: seq<Event>) {
    forall i, j :: 0 <= i < j < |events| ==> events[i].at <= events[j].at
  }

  // ----- the history, as a reference

  /** Failures since the last success. */
  function FailureRun(events: seq<Event>): nat
    decreases |events|
  {
    if events == [] then 0
    else
      var before := FailureRun(events[..|events| - 1]);
      match events[|events| - 1]
      case Success(_) => 0
      case Failure(_) => before + 1
      case Query(_) => before
  }

  function LastFailure(events: seq<Event>): (t: Option<real>)
    decreases |events|
  {
    if events == [] then None
    else match events[|events| - 1]
      case Failure(t) => Some(t)
      case _ => LastFailure(events[..|events| - 1])
  }

  /** Usable: fewer than `threshold` failures in a row, or the last of them `timeout` ago. */
  predicate Usable(events: seq<Event>, threshold: int, timeout: real, now: real) {
    || FailureRun(events) < threshold
    || LastFailure(events).None?
    || now - LastFailure(events).value >= timeout
  }

  // ----- the two breakers as values

  datatype BreakerState = Closed | Open | HalfOpen

  datatype Breaker = Breaker(state: BreakerState, failures: nat, lastFailure: Option<real>)

  datatype Health = Health(consecutive: nat, lastFailure: Option<real>)

  /** The lazy step taken on every look at the state. */
  function Looked(b: Breaker, timeout: real, now: real): Breaker {
    if b.state == Open && b.lastFailure.Some? && now - b.lastFailure.value >= timeout then b.(state := HalfOpen) else b
  }

  function BreakerAfter(b: Breaker, threshold: int, timeout: real, e: Event): Breaker {
    match e
    case Success(_) => b.(failures := 0, state := Closed)
    case Failure(t) => Breaker(if b.failures + 1 >= threshold then Open else b.state, b.failures + 1, Some(t))
    case Query(t) => Looked(b, timeout, t)
  }

  predicate SaysClosed(b: Breaker, timeout: real, now: real) {
    Looked(b, timeout, now).state != Open
  }

  function HealthAfter(h: Health, e: Event): Health {
    match e
    case Success(_) => h.(consecutive := 0)
    case Failure(t) => Health(h.consecutive + 1, Some(t))
    case Query(_) => h
  }

  predicate SaysHealthy(h: Health, threshold: int, timeout: real, now: real) {
    h.consecutive < threshold || h.lastFailure.None? || now - h.lastFailure.value >= timeout
  }

  function RunBreaker(events: seq<Event>, threshold: int, timeout: real): Breaker
    decreases |events|
  {
    if events == [] then Breaker(Closed, 0, None)
    else BreakerAfter(RunBreaker(events[..|events| - 1], threshold, timeout), threshold, timeout, events[|events| - 1])
  }

  function RunHealth(events: seq<Event>): Health
    decreases |events|
  {
    if events == [] then Health(0, None)
    else HealthAfter(RunHealth(events[..|events| - 1]), events[|events| - 1])
  }

  // ----- the relation between the two runs

  lemma {:induction false} CountersTellHistory(events: seq<Event>, threshold: int, timeout: real)
    ensures RunHealth(events) == Health(FailureRun(events), LastFailure(events))
    ensures var b := RunBreaker(events, threshold, timeout);
      b.failures == FailureRun(events) && b.lastFailure == LastFailure(events)
    ensures FailureRun(events) > 0 ==> LastFailure(events).Some?
    decreases |events|
  {
    if events != [] {
      CountersTellHistory(events[..|events| - 1], threshold, timeout);
    }
  }

  /** OPEN and HALF_OPEN mean a full failure run, and HALF_OPEN that its timeout has been seen to end. */
  lemma {:induction false} StateTellsHistory(events: seq<Event>, threshold: int, timeout: real, now: real)
    requires threshold >= 1
    requires Monotone(events) && forall e :: e in events ==> e.at <= now
    ensures var b := RunBreaker(events, threshold, timeout);
      && (b.state == Closed <==> FailureRun(events) < threshold)
      && (b.state == HalfOpen ==> LastFailure(events).Some? && now - LastFailure(events).value >= timeout)
    decreases |events|
  {
    if events != [] {
      var before := events[..|events| - 1];
      var last := events[|events| - 1];
      assert forall e :: e in before ==> e.at <= last.at;
      assert last in events;
      StateTellsHistory(before, threshold, timeout, last.at);
      CountersTellHistory(before, threshold, timeout);
    }
  }

  /** After every history the breaker, the health record and the history itself agree. */
  lemma BreakersAgree(events: seq<Event>, threshold: int, timeout: real, now: real)
    requires threshold >= 1
    requires Monotone(events) && forall e :: e in events ==> e.at <= now
    ensures SaysClosed(RunBreaker(events, threshold, timeout), timeout, now) <==> Usable(events, threshold, timeout, now)
    ensures SaysHealthy(RunHealth(events), threshold, timeout, now) <==> Usable(events, threshold, timeout, now)
  {
    CountersTellHistory(events, threshold, timeout);
    StateTellsHistory(events, threshold, timeout, now);
  }

  ghost predicate AlwaysAgree(threshold: int, timeout: real) {
    forall events: seq<Event>, now: real :: Monotone(events) && (forall e :: e in events ==> e.at <= now) ==>
      (SaysClosed(RunBreaker(events, threshold, timeout), timeout, now)
       <==> SaysHealthy(RunHealth(events), threshold, timeout, now))
  }

  /** The two can be exchanged exactly when the threshold is at least one or the timeout is not
      positive: otherwise a failure and a success leave the first closed and the second cooling down. */
  lemma AgreeExactlyWhen(threshold: int, timeout: real)
    ensures AlwaysAgree(threshold, timeout) <==> threshold >= 1 || timeout <= 0.0
  {
    if threshold >= 1 || timeout <= 0.0 {
      forall events: seq<Event>, now: real | Monotone(events) && forall e :: e in events ==> e.at <= now
        ensures SaysClosed(RunBreaker(events, threshold, timeout), timeout, now)
           <==> SaysHealthy(RunHealth(events), threshold, timeout, now)
      {
        if threshold >= 1 {
          BreakersAgree(events, threshold, timeout, now);
        } else {
          CountersTellHistory(events, threshold, timeout);
          LastFailureIsPast(events, now);
          NeverOpenWithoutFailure(events, threshold, timeout);
        }
      }
    } else {
      var f, fs := [Failure(0.0)], [Failure(0.0), Success(0.0)];
      assert fs[..1] == f && f[..0] == [];
      assert RunHealth(f) == Health(1, Some(0.0)) && RunHealth(fs) == Health(0, Some(0.0));
      assert RunBreaker(fs, threshold, timeout).state == Closed;
      assert !SaysHealthy(RunHealth(fs), threshold, timeout, 0.0);
      assert SaysClosed(RunBreaker(fs, threshold, timeout), timeout, 0.0);
    }
  }

  lemma {:induction false} LastFailureIsPast(events: seq<Event>, now: real)
    requires forall e :: e in events ==> e.at <= now
    ensures LastFailure(events).Some? ==> LastFailure(events).value <= now
    decreases |events|
  {
    if events != [] {
      assert events[|events| - 1] in events;
      LastFailureIsPast(events[..|events| - 1], now);
    }
  }

  lemma {:induction false} NeverOpenWithoutFailure(events: seq<Event>, threshold: int, timeout: real)
    ensures RunBreaker(events, threshold, timeout).state == Open ==> LastFailure(events).Some?
    decreases |events|
  {
    if events != [] {
      NeverOpenWithoutFailure(events[..|events| - 1], threshold, timeout);
    }
  }

  // ----- the objects: each method is one step of its run above

  class CircuitBreaker {
    const failureThreshold: int
    const recoveryTimeout: real
    var consecutiveFailures: nat
    var lastFailureTime: Option<real>
    var state: BreakerState

    function View(): Breaker
      reads this
    {
      Breaker(state, consecutiveFailures, lastFailureTime)
    }

    constructor (failureThreshold: int, recoveryTimeout: real)
      ensures View() == RunBreaker([], failureThreshold, recoveryTimeout)
      ensures this.failureThreshold == failureThreshold && this.recoveryTimeout == recoveryTimeout
    {
      this.failureThreshold, this.recoveryTimeout := failureThreshold, recoveryTimeout;
      consecutiveFailures, lastFailureTime, state := 0, None, Closed;
    }

    /** `is_closed`, with its lazy change from OPEN to HALF_OPEN. */
    method IsClosed(now: real) returns (closed: bool)
      modifies this
      ensures closed == SaysClosed(old(View()), recoveryTimeout, now)
      ensures View() == BreakerAfter(old(View()), failureThreshold, recoveryTimeout, Query(now))
    {
      if state == Open && lastFailureTime.Some? {
        var elapsed := now - lastFailureTime.value;
        if elapsed >= recoveryTimeout {
          state := HalfOpen;
        }
      }
      closed := state == Closed || state == HalfOpen;
    }

    method RecordSuccess(now: real)
      modifies this
      ensures View() == BreakerAfter(old(View()), failureThreshold, recoveryTimeout, Success(now))
    {
      consecutiveFailures := 0;
      state := Closed;
    }

    method RecordFailure(now: real)
      modifies this
      ensures View() == BreakerAfter(old(View()), failureThreshold, recoveryTimeout, Failure(now))
    {
      consecutiveFailures := consecutiveFailures + 1;
      lastFailureTime := Some(now);
      if consecutiveFailures >= failureThreshold {
        state := Open;
      }
    }
  }

  class ProviderHealth {
    const maxConsecutiveFailures: int
    const cooldownSeconds: real
    var totalCalls: nat
    var failures: nat
    var totalLatency: real
    var lastFailure: Option<real>
    var consecutiveFailures: nat

    function View(): Health
      reads this
    {
      Health(consecutiveFailures, lastFailure)
    }

    predicate IsHealthy(now: real)
      reads this
    {
      SaysHealthy(View(), maxConsecutiveFailures, cooldownSeconds, now)
    }

    constructor (maxConsecutiveFailures: int, cooldownSeconds: real)
      ensures View() == RunHealth([]) && totalCalls == failures == 0
      ensures this.maxConsecutiveFailures == maxConsecutiveFailures && this.cooldownSeconds == cooldownSeconds
    {
      this.maxConsecutiveFailures, this.cooldownSeconds := maxConsecutiveFailures, cooldownSeconds;
      totalCalls, failures, totalLatency, lastFailure, consecutiveFailures := 0, 0, 0.0, None, 0;
    }

    method RecordSuccess(latency: real, now: real)
      modifies this
      ensures View() == HealthAfter(old(View()), Success(now))
      ensures totalCalls == old(totalCalls) + 1 && failures == old(failures)
      ensures totalLatency == old(totalLatency) + latency
    {
      totalCalls := totalCalls + 1;
      totalLatency := totalLatency + latency;
      consecutiveFailures := 0;
    }

    method RecordFailure(now: real)
      modifies this
      ensures View() == HealthAfter(old(View()), Failure(now))
      ensures totalCalls == old(totalCalls) + 1 && failures == old(failures) + 1
      ensures totalLatency == old(totalLatency)
    {
      totalCalls := totalCalls + 1;
      failures := failures + 1;
      consecutiveFailures := consecutiveFailures + 1;
      lastFailure := Some(now);
    }
  }
}
