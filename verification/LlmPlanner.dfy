/** Failover across planning providers (`MultiLLMPlanner`): a chain in stable priority order, each
    provider guarded by its own health record. */
module LlmPlanner {
  import opened Common
  import opened Breakers

  datatype Provider = Provider(priority: int, name: string)

  /** What calling a provider would give: when its health is looked at, when the call ends, and
      either a plan or an error (an exception, or a plan that carries an error mark). */
  datatype Call = Call(askedAt: real, endedAt: real, reply: Result<string, string>)

  datatype Link =
    | CircuitOpen(provider: string, consecutiveFailures: nat)
    | Succeeded(provider: string, latency: real)
    | Failed(provider: string, error: string)

  datatype Plan =
    | Planned(plan: string, provider: string, chain: seq<Link>, failover: bool)
    | EmergencyFallback(chain: seq<Link>, lastError: Option<string>)

  predicate Distinct(providers: seq<Provider>) {
    forall i, j :: 0 <= i < j < |providers| ==> providers[i].name != providers[j].name
  }

  /** In priority order, ties in the order of registration. */
  ghost predicate InOrder(providers: seq<Provider>, serials: seq<nat>, registered: nat) {
    && |serials| == |providers|
    && (forall i :: 0 <= i < |serials| ==> serials[i] < registered)
    && forall i, j :: 0 <= i < j < |providers| ==>
         || providers[i].priority < providers[j].priority
         || (providers[i].priority == providers[j].priority && serials[i] < serials[j])
  }

  /** `after` is `before` with `p` behind everything of its priority or lower. */
  predicate InsertedAt(before: seq<Provider>, p: Provider, after: seq<Provider>, k: nat) {
    && k <= |before|
    && after == before[..k] + [p] + before[k..]
    && (forall i :: 0 <= i < k ==> before[i].priority <= p.priority)
    && forall i :: k <= i < |before| ==> p.priority < before[i].priority
  }

  /** Where a stable sort by priority puts an element appended to a sorted list. */
  function SortedPlace(providers: seq<Provider>, priority: int): (k: nat)
    ensures k <= |providers|
    ensures forall i :: k <= i < |providers| ==> priority < providers[i].priority
    ensures k > 0 ==> providers[k - 1].priority <= priority
  {
    var n := |providers|;
    if n == 0 || providers[n - 1].priority <= priority then n else SortedPlace(providers[..n - 1], priority)
  }

  lemma PlaceIsRight(providers: seq<Provider>, serials: seq<nat>, registered: nat, p: Provider, k: nat)
    requires InOrder(providers, serials, registered)
    requires k == SortedPlace(providers, p.priority)
    ensures InsertedAt(providers, p, providers[..k] + [p] + providers[k..], k)
  {
    forall i | 0 <= i < k
      ensures providers[i].priority <= p.priority
    {
      assert i == k - 1 || providers[i].priority <= providers[k - 1].priority;
    }
  }

  lemma InsertKeepsOrder(before: seq<Provider>, serials: seq<nat>, registered: nat, p: Provider,
                         after: seq<Provider>, numbers: seq<nat>, k: nat)
    requires InOrder(before, serials, registered) && InsertedAt(before, p, after, k)
    requires numbers == serials[..k] + [registered] + serials[k..]
    ensures InOrder(after, numbers, registered + 1)
  {
    forall i, j | 0 <= i < j < |after|
      ensures after[i].priority < after[j].priority || (after[i].priority == after[j].priority && numbers[i] < numbers[j])
    {
      var i0, j0 := if i < k then i else i - 1, if j < k then j else j - 1;
      if i != k && j != k {
        assert after[i] == before[i0] && numbers[i] == serials[i0];
        assert after[j] == before[j0] && numbers[j] == serials[j0];
      } else if j == k {
        assert after[i] == before[i0] && numbers[i] == serials[i0];
      } else {
        assert after[j] == before[j0];
      }
    }
  }

  /** `append` followed by the stable `sort` on the priority. */
  method SortIn(providers: seq<Provider>, ghost serials: seq<nat>, ghost registered: nat, p: Provider)
    returns (sorted: seq<Provider>, ghost numbers: seq<nat>)
    requires InOrder(providers, serials, registered)
    ensures InOrder(sorted, numbers, registered + 1)
    ensures exists k :: InsertedAt(providers, p, sorted, k)
    ensures forall q :: q in sorted ==> q in providers || q == p
  {
    var k := SortedPlace(providers, p.priority);
    sorted := providers[..k] + [p] + providers[k..];
    numbers := serials[..k] + [registered] + serials[k..];
    PlaceIsRight(providers, serials, registered, p, k);
    InsertKeepsOrder(providers, serials, registered, p, sorted, numbers, k);
  }

  /** The error of the last failed call of a chain. */
  function LastError(chain: seq<Link>): Option<string> {
    if chain == [] then None
    else if chain[|chain| - 1].Failed? then Some(chain[|chain| - 1].error)
    else LastError(chain[..|chain| - 1])
  }

  /** One provider's turn, seen from its health before. */
  function Outcome(name: string, healthy: bool, before: Health, call: Call): Link {
    if !healthy then CircuitOpen(name, before.consecutive)
    else match call.reply
      case Ok(_) => Succeeded(name, call.endedAt - call.askedAt)
      case Err(e) => Failed(name, e)
  }

  /** The health after a turn that ended in `link`. */
  function Settled(before: Health, link: Link, endedAt: real): Health {
    match link
    case CircuitOpen(_, _) => before
    case Succeeded(_, _) => HealthAfter(before, Success(endedAt))
    case Failed(_, _) => HealthAfter(before, Failure(endedAt))
  }

  /** The last failed call of a chain is the one whose error the emergency plan carries. */
  lemma {:induction false} LastErrorIsOfLastFailed(chain: seq<Link>, e: string)
    ensures LastError(chain) == Some(e)
       <==> exists k :: 0 <= k < |chain| && chain[k].Failed? && chain[k].error == e && forall j :: k < j < |chain| ==> !chain[j].Failed?
    decreases |chain|
  {
    if chain != [] {
      var n := |chain| - 1;
      LastErrorIsOfLastFailed(chain[..n], e);
      if chain[n].Failed? {
        assert chain[n].error == e ==> LastError(chain) == Some(e);
      } else {
        if k :| 0 <= k < n && chain[..n][k].Failed? && chain[..n][k].error == e && forall j :: k < j < n ==> !chain[..n][j].Failed? {
          assert chain[k].Failed? && forall j :: k < j < |chain| ==> j == n || chain[j] == chain[..n][j];
        }
        if k :| 0 <= k < |chain| && chain[k].Failed? && chain[k].error == e && forall j :: k < j < |chain| ==> !chain[j].Failed? {
          assert k < n && chain[..n][k].Failed? && forall j :: k < j < n ==> chain[..n][j] == chain[j];
        }
      }
    }
  }

  // ----- one provider over many plans

  /** The health of a provider after its turns so far, one for each plan that got as far as it. */
  function HealthAfterTurns(name: string, maxFailures: int, cooldown: real, calls: seq<Call>): Health
    decreases |calls|
  {
    if calls == [] then Health(0, None)
    else
      var n := |calls| - 1;
      var before := HealthAfterTurns(name, maxFailures, cooldown, calls[..n]);
      Settled(before, Outcome(name, SaysHealthy(before, maxFailures, cooldown, calls[n].askedAt), before, calls[n]), calls[n].endedAt)
  }

  /** The chain entries it got in these plans. */
  function Entries(name: string, maxFailures: int, cooldown: real, calls: seq<Call>): (entries: seq<Link>)
    ensures |entries| == |calls|
    decreases |calls|
  {
    if calls == [] then []
    else
      var n := |calls| - 1;
      var before := HealthAfterTurns(name, maxFailures, cooldown, calls[..n]);
      Entries(name, maxFailures, cooldown, calls[..n])
        + [Outcome(name, SaysHealthy(before, maxFailures, cooldown, calls[n].askedAt), before, calls[n])]
  }

  /** Failed turns since the last successful one. Turns without a call do not count. */
  function FailedInARow(entries: seq<Link>): nat
    decreases |entries|
  {
    if entries == [] || entries[|entries| - 1].Succeeded? then 0
    else FailedInARow(entries[..|entries| - 1]) + if entries[|entries| - 1].Failed? then 1 else 0
  }

  /** When the last failed turn ended. */
  function LastFailedAt(entries: seq<Link>, calls: seq<Call>): Option<real>
    requires |entries| == |calls|
    decreases |entries|
  {
    if entries == [] then None
    else
      var n := |entries| - 1;
      if entries[n].Failed? then Some(calls[n].endedAt) else LastFailedAt(entries[..n], calls[..n])
  }

  /** The breaker as its documentation has it: enough failures in a row, the last one not long ago. */
  predicate CoolingDown(entries: seq<Link>, calls: seq<Call>, maxFailures: int, cooldown: real, now: real)
    requires |entries| == |calls|
  {
    && FailedInARow(entries) >= maxFailures
    && LastFailedAt(entries, calls).Some?
    && now - LastFailedAt(entries, calls).value < cooldown
  }

  lemma {:induction false} HealthTellsEntries(name: string, maxFailures: int, cooldown: real, calls: seq<Call>)
    ensures var entries := Entries(name, maxFailures, cooldown, calls);
      HealthAfterTurns(name, maxFailures, cooldown, calls) == Health(FailedInARow(entries), LastFailedAt(entries, calls))
    decreases |calls|
  {
    if calls != [] {
      var n := |calls| - 1;
      HealthTellsEntries(name, maxFailures, cooldown, calls[..n]);
      assert Entries(name, maxFailures, cooldown, calls)[..n] == Entries(name, maxFailures, cooldown, calls[..n]);
    }
  }

  /** The law of failover over many plans: a provider is skipped exactly while it cools down from at least
      `maxFailures` failed turns in a row, and otherwise its entry is what its call gave. */
  lemma {:induction false} EntryTellsTurn(name: string, maxFailures: int, cooldown: real, calls: seq<Call>, k: nat)
    requires k < |calls|
    ensures var entries := Entries(name, maxFailures, cooldown, calls);
      var cooling := CoolingDown(entries[..k], calls[..k], maxFailures, cooldown, calls[k].askedAt);
      && entries[k].provider == name
      && (entries[k].CircuitOpen? <==> cooling)
      && (cooling ==> entries[k].consecutiveFailures == FailedInARow(entries[..k]))
      && (entries[k].Failed? <==> !cooling && calls[k].reply.Err?)
      && (entries[k].Failed? ==> entries[k].error == calls[k].reply.error)
      && (entries[k].Succeeded? ==> entries[k].latency == calls[k].endedAt - calls[k].askedAt)
    decreases |calls|
  {
    var n := |calls| - 1;
    var entries, before := Entries(name, maxFailures, cooldown, calls), Entries(name, maxFailures, cooldown, calls[..n]);
    assert entries[..n] == before;
    if k < n {
      EntryTellsTurn(name, maxFailures, cooldown, calls[..n], k);
      assert entries[..k] == before[..k] && calls[..n][..k] == calls[..k];
    } else {
      HealthTellsEntries(name, maxFailures, cooldown, calls[..n]);
    }
  }

  /** Skip the provider, or ask it and record how that went. */
  method Ask(record: ProviderHealth, name: string, call: Call) returns (link: Link)
    modifies record
    ensures link == Outcome(name, old(record.IsHealthy(call.askedAt)), old(record.View()), call)
    ensures record.View() == Settled(old(record.View()), link, call.endedAt)
  {
    if !record.IsHealthy(call.askedAt) {
      return CircuitOpen(name, record.consecutiveFailures);
    }
    match call.reply {
      case Ok(_) =>
        var latency := call.endedAt - call.askedAt;
        record.RecordSuccess(latency, call.endedAt);
        return Succeeded(name, latency);
      case Err(error) =>
        record.RecordFailure(call.endedAt);
        return Failed(name, error);
    }
  }

  /** The chain entries the providers would get, from their health now. */
  ghost function Links(names: seq<string>, records: seq<ProviderHealth>, calls: seq<Call>): seq<Link>
    requires |names| == |records| == |calls|
    reads records
  {
    seq(|names|, i requires 0 <= i < |names| reads records =>
      Outcome(names[i], records[i].IsHealthy(calls[i].askedAt), records[i].View(), calls[i]))
  }

  ghost function Views(records: seq<ProviderHealth>): seq<Health>
    reads records
  {
    seq(|records|, i requires 0 <= i < |records| reads records => records[i].View())
  }

  /** `chain` is the beginning of `links` up to and including the first success. */
  predicate UpToSuccess(chain: seq<Link>, links: seq<Link>, won: bool) {
    && |chain| <= |links|
    && (forall j :: 0 <= j < |chain| ==> chain[j] == links[j])
    && (forall j :: 0 <= j < |chain| - 1 ==> !links[j].Succeeded?)
    && (if won then chain != [] && links[|chain| - 1].Succeeded?
        else |chain| == |links| && (chain != [] ==> !links[|chain| - 1].Succeeded?))
  }

  /** The failover loop: one turn after another until one succeeds. */
  method Failover(names: seq<string>, records: seq<ProviderHealth>, calls: seq<Call>) returns (chain: seq<Link>, won: bool)
    requires |names| == |records| == |calls|
    requires forall i, j :: 0 <= i < j < |records| ==> records[i] != records[j]
    modifies records
    ensures UpToSuccess(chain, old(Links(names, records, calls)), won)
    ensures forall j :: 0 <= j < |records| ==>
              records[j].View() == if j < |chain| then Settled(old(Views(records))[j], chain[j], calls[j].endedAt)
                                   else old(Views(records))[j]
  {
    ghost var links, views := Links(names, records, calls), Views(records);
    chain, won := [], false;
    for i := 0 to |names|
      invariant |chain| == i && !won
      invariant forall j :: 0 <= j < i ==> chain[j] == links[j] && !links[j].Succeeded?
      invariant forall j :: i <= j < |records| ==> unchanged(records[j])
      invariant forall j :: 0 <= j < i ==> records[j].View() == Settled(views[j], links[j], calls[j].endedAt)
    {
      var link := Ask(records[i], names[i], calls[i]);
      assert link == links[i];
      chain := chain + [link];
      if link.Succeeded? {
        won := true;
        return;
      }
    }
  }

  class MultiLLMPlanner {
    var providers: seq<Provider>
    var health: map<string, ProviderHealth>
    ghost var serials: seq<nat>   // when each provider was registered
    ghost var registered: nat

    ghost predicate Valid()
      reads this
    {
      && InOrder(providers, serials, registered)
      && (forall p :: p in providers ==> p.name in health)
      && (forall m, n :: m in health && n in health && m != n ==> health[m] != health[n])
    }

    constructor ()
      ensures Valid() && providers == [] && health == map[]
    {
      providers, health, serials, registered := [], map[], [], 0;
    }

    /** Registering inserts the provider at its place and gives it a new health record. */
    method AddProvider(name: string, priority: int, maxFailures: int, cooldown: real)
      requires Valid()
      modifies this
      ensures Valid()
      ensures exists k :: InsertedAt(old(providers), Provider(priority, name), providers, k)
      ensures name in health && health == old(health)[name := health[name]] && fresh(health[name])
      ensures health[name].View() == RunHealth([]) && health[name].maxConsecutiveFailures == maxFailures
      ensures health[name].cooldownSeconds == cooldown
    {
      var record := new ProviderHealth(maxFailures, cooldown);
      providers, serials := SortIn(providers, serials, registered, Provider(priority, name));
      registered := registered + 1;
      health := health[name := record];
    }

    predicate IsHealthyNow(calls: seq<Call>, i: nat)
      requires i < |providers| == |calls|
      requires providers[i].name in health
      reads this, health.Values
    {
      health[providers[i].name].IsHealthy(calls[i].askedAt)
    }

    /** Provider `i` is healthy at its turn and does not fail. */
    ghost predicate Delivers(calls: seq<Call>, i: nat)
      requires i < |providers| == |calls|
      requires providers[i].name in health
      reads this, health.Values
    {
      IsHealthyNow(calls, i) && calls[i].reply.Ok?
    }

    function Records(): (records: seq<ProviderHealth>)
      requires forall p :: p in providers ==> p.name in health
      reads this
      ensures |records| == |providers| && forall i :: 0 <= i < |records| ==> records[i] == health[providers[i].name]
    {
      seq(|providers|, i requires 0 <= i < |providers| reads this requires providers[i].name in health => health[providers[i].name])
    }

    function Names(): (names: seq<string>)
      reads this
      ensures |names| == |providers| && forall i :: 0 <= i < |names| ==> names[i] == providers[i].name
    {
      seq(|providers|, i requires 0 <= i < |providers| reads this => providers[i].name)
    }

    /** The plan of the first provider that delivers; the chain lists every provider up to it, and
        only the providers asked get an entry in their health record. */
    method CreatePlan(calls: seq<Call>) returns (plan: Plan)
      requires Valid() && Distinct(providers) && |calls| == |providers|
      modifies health.Values
      ensures Valid()
      ensures UpToSuccess(plan.chain, old(Links(Names(), Records(), calls)), plan.Planned?)
      ensures plan.Planned? ==>
                var k := |plan.chain| - 1;
                && 0 <= k && old(Delivers(calls, k)) && (forall j :: 0 <= j < k ==> !old(Delivers(calls, j)))
                && plan.plan == calls[k].reply.value && plan.provider == providers[k].name
                && (plan.failover <==> k > 0)
      ensures forall j :: 0 <= j < |plan.chain| ==>
                && (plan.chain[j].CircuitOpen? <==> !old(IsHealthyNow(calls, j)))
                && (plan.chain[j].Failed? <==> old(IsHealthyNow(calls, j)) && calls[j].reply.Err?)
                && (plan.chain[j].Failed? ==> plan.chain[j].error == calls[j].reply.error)
      ensures plan.EmergencyFallback? ==>
                |plan.chain| == |providers| && plan.lastError == LastError(plan.chain) && forall j :: 0 <= j < |providers| ==> !old(Delivers(calls, j))
      ensures forall j :: 0 <= j < |providers| ==>
                Records()[j].View() == if j < |plan.chain| then Settled(old(Views(Records()))[j], plan.chain[j], calls[j].endedAt)
                                       else old(Views(Records()))[j]
      ensures forall j :: 0 <= j < |plan.chain| ==>
                Records()[j].View() == if plan.chain[j].CircuitOpen? then old(Views(Records()))[j]
                                       else if plan.chain[j].Succeeded? then Health(0, old(Views(Records()))[j].lastFailure)
                                       else Health(old(Views(Records()))[j].consecutive + 1, Some(calls[j].endedAt))
    {
      var names, records := Names(), Records();
      ghost var links := Links(names, records, calls);
      assert forall j :: 0 <= j < |providers| ==> (links[j].Succeeded? <==> Delivers(calls, j));
      var chain, won := Failover(names, records, calls);
      if won {
        var k := |chain| - 1;
        plan := Planned(calls[k].reply.value, names[k], chain, |chain| > 1);
      } else {
        plan := EmergencyFallback(chain, LastError(chain));
      }
    }
  }
}
