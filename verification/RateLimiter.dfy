/** The sliding-window rate limiter (`RateLimitMiddleware`). A pruned list of hits per client stands
    in for the complete history of accepted requests. */
module RateLimiter {
  import opened Common

  /** A refusal carries the value of the Retry-After field of a 429 response (section 4 of RFC 6585,
      section 10.2.3 of RFC 9110). With a limit below one the program indexes an empty list. */
  datatype Response = PassedOn | TooManyRequests(retryAfter: int) | IndexError

  // ----- histories of one client

  ghost predicate Ascending(times: seq<real>) {
    forall i, j :: 0 <= i < j < |times| ==> times[i] <= times[j]
  }

  /** The hits later than `cutoff`, in order. */
  function Prune(times: seq<real>, cutoff: real): (kept: seq<real>)
    ensures |kept| <= |times|
    ensures forall t :: t in kept <==> t in times && t > cutoff
  {
    if times == [] then []
    else (if times[0] > cutoff then [times[0]] else []) + Prune(times[1..], cutoff)
  }

  /** How many were accepted in the window that ends at `t`. */
  function InWindow(accepted: seq<real>, t: real, window: real): nat {
    if accepted == [] then 0
    else (if t - window < accepted[0] <= t then 1 else 0) + InWindow(accepted[1..], t, window)
  }

  /** What one request adds to the accepted history. */
  function Admit(accepted: seq<real>, limit: int, window: real, now: real): seq<real> {
    if |Prune(accepted, now - window)| >= limit then accepted else accepted + [now]
  }

  /** The accepted history after requests at the given times. */
  function Accepted(requests: seq<real>, limit: int, window: real): seq<real>
    decreases |requests|
  {
    if requests == [] then []
    else
      var n := |requests| - 1;
      Admit(Accepted(requests[..n], limit, window), limit, window, requests[n])
  }

  lemma {:induction false} PruneAppend(a: seq<real>, b: seq<real>, cutoff: real)
    ensures Prune(a + b, cutoff) == Prune(a, cutoff) + Prune(b, cutoff)
  {
    if a == [] {
      assert a + b == b;
    } else {
      PruneAppend(a[1..], b, cutoff);
      var head := if a[0] > cutoff then [a[0]] else [];
      assert (a + b)[0] == a[0] && (a + b)[1..] == a[1..] + b;
      assert head + (Prune(a[1..], cutoff) + Prune(b, cutoff)) == head + Prune(a[1..], cutoff) + Prune(b, cutoff);
    }
  }

  /** Pruning twice is pruning once: the list kept from an earlier request loses nothing needed. */
  lemma {:induction false} PruneTwice(times: seq<real>, early: real, late: real)
    requires early <= late
    ensures Prune(Prune(times, early), late) == Prune(times, late)
  {
    if times != [] {
      PruneTwice(times[1..], early, late);
      PruneAppend(if times[0] > early then [times[0]] else [], Prune(times[1..], early), late);
    }
  }

  /** Of an ascending list pruning keeps the end. */
  lemma {:induction false} PruneIsSuffix(times: seq<real>, cutoff: real)
    requires Ascending(times)
    ensures Prune(times, cutoff) == times[|times| - |Prune(times, cutoff)|..]
    ensures times != [] && times[0] > cutoff ==> Prune(times, cutoff) == times
  {
    if times != [] {
      var rest := times[1..];
      PruneIsSuffix(rest, cutoff);
      if times[0] > cutoff {
        assert rest != [] ==> rest[0] > cutoff;
        assert [times[0]] + rest == times;
      } else {
        EndOfRest(times, |Prune(rest, cutoff)|);
      }
    }
  }

  lemma EndOfRest(times: seq<real>, n: nat)
    requires n < |times|
    ensures times[1..][|times| - 1 - n..] == times[|times| - n..]
  {
  }

  lemma FrontIsEarlier(requests: seq<real>)
    requires Ascending(requests) && requests != []
    ensures var n := |requests| - 1;
      Ascending(requests[..n]) && forall t :: t in requests[..n] ==> t <= requests[n] && t in requests
  {
  }

  lemma {:induction false} AcceptedIsAscending(requests: seq<real>, limit: int, window: real)
    requires Ascending(requests)
    ensures Ascending(Accepted(requests, limit, window))
    ensures forall t :: t in Accepted(requests, limit, window) ==> t in requests
    ensures |Accepted(requests, limit, window)| <= |requests|
    decreases |requests|
  {
    if requests != [] {
      var n := |requests| - 1;
      FrontIsEarlier(requests);
      AcceptedIsAscending(requests[..n], limit, window);
      var before := Accepted(requests[..n], limit, window);
      assert forall i :: 0 <= i < |before| ==> before[i] in before;
    }
  }

  // ----- the limit holds at every instant

  lemma {:induction false} WindowAppend(a: seq<real>, b: seq<real>, t: real, window: real)
    ensures InWindow(a + b, t, window) == InWindow(a, t, window) + InWindow(b, t, window)
  {
    if a == [] {
      assert a + b == b;
    } else {
      WindowAppend(a[1..], b, t, window);
      assert (a + b)[1..] == a[1..] + b;
    }
  }

  /** A window ending at or before `t` of a history up to `t` holds no more than what pruning keeps. */
  lemma {:induction false} WindowIsPruned(accepted: seq<real>, t: real, window: real)
    ensures InWindow(accepted, t, window) <= |Prune(accepted, t - window)|
  {
    if accepted != [] {
      WindowIsPruned(accepted[1..], t, window);
    }
  }

  lemma {:induction false} PruneShrinks(times: seq<real>, early: real, late: real)
    requires early <= late
    ensures |Prune(times, late)| <= |Prune(times, early)|
  {
    if times != [] {
      PruneShrinks(times[1..], early, late);
    }
  }

  /** At every instant at most `limit` requests were accepted in the window before it. */
  lemma {:induction false} NeverOverLimit(requests: seq<real>, limit: int, window: real, t: real)
    requires Ascending(requests) && limit >= 1
    ensures InWindow(Accepted(requests, limit, window), t, window) <= limit
    decreases |requests|
  {
    if requests != [] {
      var n := |requests| - 1;
      var before, now := Accepted(requests[..n], limit, window), requests[n];
      NeverOverLimit(requests[..n], limit, window, t);
      if |Prune(before, now - window)| < limit {
        WindowAppend(before, [now], t, window);
        if now <= t {
          WindowIsPruned(before, t, window);
          PruneShrinks(before, now - window, t - window);
        }
      }
    }
  }

  /** The limit also bounds what pruning keeps, so a refusal means exactly `limit` hits in the window. */
  lemma {:induction false} PrunedNeverOverLimit(requests: seq<real>, limit: int, window: real, now: real)
    requires Ascending(requests) && limit >= 1
    requires forall t :: t in requests ==> t <= now
    ensures |Prune(Accepted(requests, limit, window), now - window)| <= limit
    decreases |requests|
  {
    if requests != [] {
      var n := |requests| - 1;
      var before, last := Accepted(requests[..n], limit, window), requests[n];
      assert last in requests;
      PrunedNeverOverLimit(requests[..n], limit, window, now);
      if |Prune(before, last - window)| < limit {
        PruneAppend(before, [last], now - window);
        PruneShrinks(before, last - window, now - window);
      }
    }
  }

  // ----- after a refusal

  /** Refused at `now`, with the oldest hit in the window at `oldest`. */
  ghost predicate RefusedAt(accepted: seq<real>, limit: int, window: real, now: real, oldest: real) {
    var hits := Prune(accepted, now - window);
    |hits| >= limit && hits != [] && hits[0] == oldest
  }

  /** After a refusal every request is refused until the oldest hit leaves the window, and the
      first one after that is accepted. */
  lemma RefusedExactlyUntilOldestLeaves(requests: seq<real>, limit: int, window: real, now: real, oldest: real, later: real)
    requires Ascending(requests) && limit >= 1
    requires forall t :: t in requests ==> t <= now
    requires now <= later
    requires RefusedAt(Accepted(requests, limit, window), limit, window, now, oldest)
    ensures |Prune(Accepted(requests, limit, window), later - window)| >= limit <==> later < oldest + window
  {
    PrunedNeverOverLimit(requests, limit, window, now);
    AcceptedIsAscending(requests, limit, window);
    RefusalLasts(Accepted(requests, limit, window), limit, window, now, oldest, later);
  }

  /** However many requests follow a refusal before the oldest hit leaves the window, none is accepted. */
  lemma {:induction false} AllRefusedUntilOldestLeaves(requests: seq<real>, limit: int, window: real, now: real, oldest: real, more: seq<real>)
    requires Ascending(requests) && limit >= 1
    requires forall t :: t in requests ==> t <= now
    requires RefusedAt(Accepted(requests, limit, window), limit, window, now, oldest)
    requires forall t :: t in more ==> now <= t < oldest + window
    ensures Accepted(requests + more, limit, window) == Accepted(requests, limit, window)
    decreases |more|
  {
    if more == [] {
      assert requests + more == requests;
    } else {
      var n := |more| - 1;
      assert more[n] in more && forall t :: t in more[..n] ==> t in more;
      AllRefusedUntilOldestLeaves(requests, limit, window, now, oldest, more[..n]);
      assert (requests + more)[..|requests + more| - 1] == requests + more[..n];
      RefusedExactlyUntilOldestLeaves(requests, limit, window, now, oldest, more[n]);
    }
  }

  /** So whatever was asked in between, each of those requests gets a 429, and a request gets through
      exactly when it comes no earlier than the oldest hit plus the window. */
  lemma NextAcceptedExactlyWhenOldestLeft(requests: seq<real>, limit: int, window: real, now: real, oldest: real,
                                          more: seq<real>, later: real)
    requires Ascending(requests) && limit >= 1 && now <= later
    requires forall t :: t in requests ==> t <= now
    requires RefusedAt(Accepted(requests, limit, window), limit, window, now, oldest)
    requires forall t :: t in more ==> now <= t < oldest + window
    ensures Decide(requests + more, limit, window, later) == PassedOn <==> later >= oldest + window
    ensures Decide(requests + more, limit, window, later) != IndexError
  {
    AllRefusedUntilOldestLeaves(requests, limit, window, now, oldest, more);
    RefusedExactlyUntilOldestLeaves(requests, limit, window, now, oldest, later);
  }

  lemma RefusalLasts(accepted: seq<real>, limit: int, window: real, now: real, oldest: real, later: real)
    requires Ascending(accepted) && |Prune(accepted, now - window)| <= limit
    requires now <= later && RefusedAt(accepted, limit, window, now, oldest)
    ensures |Prune(accepted, later - window)| >= limit <==> later < oldest + window
  {
    var hits := Prune(accepted, now - window);
    PruneTwice(accepted, now - window, later - window);
    PruneIsAscending(accepted, now - window);
    OldestDecides(hits, later - window);
    assert |Prune(hits, later - window)| <= |hits|;
  }

  lemma PruneIsAscending(times: seq<real>, cutoff: real)
    requires Ascending(times)
    ensures Ascending(Prune(times, cutoff))
  {
    PruneIsSuffix(times, cutoff);
    var d := |times| - |Prune(times, cutoff)|;
    assert forall i :: 0 <= i < |Prune(times, cutoff)| ==> Prune(times, cutoff)[i] == times[d + i];
  }

  /** Pruning an ascending list changes its length exactly when the first element goes. */
  lemma OldestDecides(hits: seq<real>, cutoff: real)
    requires Ascending(hits) && hits != []
    ensures |Prune(hits, cutoff)| == |hits| <==> hits[0] > cutoff
  {
    PruneIsSuffix(hits, cutoff);
    assert Prune(hits, cutoff) == (if hits[0] > cutoff then [hits[0]] else []) + Prune(hits[1..], cutoff);
  }

  // ----- the advertised wait

  /** `int(x)` truncates toward zero. */
  function Truncate(x: real): int {
    if x >= 0.0 then x.Floor else -((-x).Floor)
  }

  function RetryAfter(window: real, now: real, oldest: real): int {
    var wait := Truncate(window - (now - oldest));
    if wait >= 1 then wait else 1
  }

  /** The advertised wait is positive and less than a second away from the true one. */
  lemma AdviceWithinASecond(window: real, now: real, oldest: real)
    requires oldest > now - window
    ensures var advice, wait := RetryAfter(window, now, oldest) as real, oldest + window - now;
      advice >= 1.0 && -1.0 < advice - wait < 1.0
  {
  }

  /** A client that waits exactly as advertised is accepted exactly when the true wait is a whole
      number of seconds or below one; otherwise the truncation sends it back too early. */
  lemma AdviceSufficesExactlyWhen(requests: seq<real>, limit: int, window: real, now: real, oldest: real)
    requires Ascending(requests) && limit >= 1
    requires forall t :: t in requests ==> t <= now
    requires RefusedAt(Accepted(requests, limit, window), limit, window, now, oldest)
    ensures var wait := oldest + window - now;
      |Prune(Accepted(requests, limit, window), now + RetryAfter(window, now, oldest) as real - window)| < limit
      <==> wait <= 1.0 || wait == wait.Floor as real
  {
    var accepted := Accepted(requests, limit, window);
    assert oldest in Prune(accepted, now - window);
    AdviceWithinASecond(window, now, oldest);
    RefusedExactlyUntilOldestLeaves(requests, limit, window, now, oldest, now + RetryAfter(window, now, oldest) as real);
  }

  /** A client that is told to wait one second where a second and a half is due, and waits as told, is
      refused again. */
  lemma TruncatedAdviceIsTooShort()
    ensures var requests := [0.0];
      && Decide(requests, 1, 10.0, 8.5) == TooManyRequests(1)
      && Decide(requests + [8.5], 1, 10.0, 9.5) == TooManyRequests(1)
      && Decide(requests + [8.5, 9.5], 1, 10.0, 10.0) == PassedOn
  {
    var requests := [0.0];
    assert requests[..0] == [] && Prune([], -10.0) == [];
    assert Accepted(requests, 1, 10.0) == [] + [0.0] == [0.0];
    assert requests[1..] == [];
    assert Prune(requests, -1.5) == [0.0];
    assert RetryAfter(10.0, 8.5, 0.0) == 1 && RetryAfter(10.0, 9.5, 0.0) == 1;
    assert Prune(requests, -0.5) == [0.0] && Prune(requests, 0.0) == [];
    AllRefusedUntilOldestLeaves(requests, 1, 10.0, 8.5, 0.0, [8.5]);
    AllRefusedUntilOldestLeaves(requests, 1, 10.0, 8.5, 0.0, [8.5, 9.5]);
  }

  // ----- the kept list against the full history

  ghost predicate SameWindow(kept: seq<real>, requests: seq<real>, limit: int, window: real) {
    && Ascending(requests)
    && forall cutoff :: (requests != [] ==> cutoff >= requests[|requests| - 1] - window) ==>
         Prune(kept, cutoff) == Prune(Accepted(requests, limit, window), cutoff)
  }

  /** The answer from the hits in the window. */
  function Answer(recent: seq<real>, limit: int, window: real, now: real): Response {
    if |recent| < limit then PassedOn
    else if recent == [] then IndexError
    else TooManyRequests(RetryAfter(window, now, recent[0]))
  }

  /** The answer to a request at `now`, from the full history. */
  function Decide(requests: seq<real>, limit: int, window: real, now: real): Response {
    Answer(Prune(Accepted(requests, limit, window), now - window), limit, window, now)
  }

  /** A request is let through once this time has passed, and not before. */
  ghost predicate TrueWait(requests: seq<real>, limit: int, window: real, now: real, wait: real) {
    wait > 0.0
    && forall later :: later >= now ==> (Decide(requests, limit, window, later) == PassedOn <==> later >= now + wait)
  }

  /** The wait that a refusal advertises is at least a second, and within one second of the true one. */
  lemma AdviceIsCloseToTrueWait(requests: seq<real>, limit: int, window: real, now: real, advice: int) returns (wait: real)
    requires Ascending(requests) && limit >= 1
    requires forall t :: t in requests ==> t <= now
    requires Decide(requests, limit, window, now) == TooManyRequests(advice)
    ensures TrueWait(requests, limit, window, now, wait)
    ensures advice >= 1 && -1.0 < advice as real - wait < 1.0
  {
    var accepted := Accepted(requests, limit, window);
    var oldest := Prune(accepted, now - window)[0];
    wait := oldest + window - now;
    assert oldest in Prune(accepted, now - window);
    AdviceWithinASecond(window, now, oldest);
    forall later | later >= now
      ensures Decide(requests, limit, window, later) == PassedOn <==> later >= now + wait
    {
      RefusedExactlyUntilOldestLeaves(requests, limit, window, now, oldest, later);
    }
  }

  /** Pruning the kept list decides as the full history would, and leaves a list that still agrees. */
  lemma PrunedListSuffices(requests: seq<real>, kept: seq<real>, limit: int, window: real, now: real)
    requires SameWindow(kept, requests, limit, window)
    requires forall t :: t in requests ==> t <= now
    ensures var recent := Prune(kept, now - window);
      && Answer(recent, limit, window, now) == Decide(requests, limit, window, now)
      && SameWindow(if |recent| >= limit then recent else recent + [now], requests + [now], limit, window)
  {
    var accepted, all := Accepted(requests, limit, window), requests + [now];
    if requests != [] {
      assert requests[|requests| - 1] in requests;
    }
    var recent := Prune(kept, now - window);
    assert recent == Prune(accepted, now - window);
    assert all[..|requests|] == requests && all[|requests|] == now;
    assert Accepted(all, limit, window) == Admit(accepted, limit, window, now);
    assert forall i :: 0 <= i < |requests| ==> requests[i] in requests;
    forall cutoff | cutoff >= now - window
      ensures Prune(if |recent| >= limit then recent else recent + [now], cutoff) == Prune(Accepted(all, limit, window), cutoff)
    {
      StepAgrees(accepted, limit, window, now, cutoff);
    }
  }

  lemma StepAgrees(accepted: seq<real>, limit: int, window: real, now: real, cutoff: real)
    requires cutoff >= now - window
    ensures var recent := Prune(accepted, now - window);
      Prune(if |recent| >= limit then recent else recent + [now], cutoff) == Prune(Admit(accepted, limit, window, now), cutoff)
  {
    var recent := Prune(accepted, now - window);
    PruneTwice(accepted, now - window, cutoff);
    PruneAppend(recent, [now], cutoff);
    PruneAppend(accepted, [now], cutoff);
  }

  /** With a limit below one every limited request meets the empty list, and no other limit does. */
  lemma IndexErrorExactlyWhen(requests: seq<real>, limit: int, window: real, now: real)
    ensures Decide(requests, limit, window, now) == IndexError <==> limit <= 0
  {
    if limit <= 0 {
      NothingAccepted(requests, limit, window);
    }
  }

  lemma {:induction false} NothingAccepted(requests: seq<real>, limit: int, window: real)
    requires limit <= 0
    ensures Accepted(requests, limit, window) == []
    decreases |requests|
  {
    if requests != [] {
      NothingAccepted(requests[..|requests| - 1], limit, window);
    }
  }

  // ----- the object

  class RateLimitMiddleware {
    const maxRequests: int
    const window: real
    const paths: Option<seq<string>>
    var hits: map<string, seq<real>>
    ghost var requests: map<string, seq<real>>   // every limited request of every client

    /** The list kept for a client and its full accepted history have the same hits in the window of
        its last request and in every later one. */
    ghost predicate Valid()
      reads this
    {
      AllAgree(hits, requests, maxRequests, window)
    }

    constructor (maxRequests: int, window: real, paths: Option<seq<string>>)
      ensures Valid() && requests == map[]
      ensures this.maxRequests == maxRequests && this.window == window && this.paths == paths
    {
      this.maxRequests, this.window, this.paths := maxRequests, window, paths;
      hits, requests := map[], map[];
    }

    predicate ShouldLimit(path: string) {
      paths.None? || exists p :: p in paths.value && p <= path
    }

    /** One request at `now`, no earlier than the client's last one. The answer depends only on the
        full accepted history, and other clients are not touched. */
    method Dispatch(client: string, path: string, now: real) returns (response: Response)
      requires Valid()
      requires forall t :: t in TimesOf(requests, client) ==> t <= now
      modifies this
      ensures Valid()
      ensures requests == if ShouldLimit(path) then old(requests)[client := TimesOf(old(requests), client) + [now]] else old(requests)
      ensures response == if ShouldLimit(path) then Decide(TimesOf(old(requests), client), maxRequests, window, now) else PassedOn
    {
      if !ShouldLimit(path) {
        return PassedOn;
      }
      response := DispatchLimited(client, now);
    }

    method DispatchLimited(client: string, now: real) returns (response: Response)
      requires Valid()
      requires forall t :: t in TimesOf(requests, client) ==> t <= now
      modifies this
      ensures Valid()
      ensures requests == old(requests)[client := TimesOf(old(requests), client) + [now]]
      ensures response == Decide(TimesOf(old(requests), client), maxRequests, window, now)
    {
      var recent := Prune(TimesOf(hits, client), now - window);
      ghost var all := TimesOf(requests, client) + [now];
      PrunedListSuffices(TimesOf(requests, client), TimesOf(hits, client), maxRequests, window, now);
      var kept := if |recent| >= maxRequests then recent else recent + [now];
      KeepOthers(hits, requests, maxRequests, window, client, kept, all);
      hits := hits[client := kept];
      requests := requests[client := all];
      response := Answer(recent, maxRequests, window, now);
    }
  }

  ghost predicate AllAgree(hits: map<string, seq<real>>, requests: map<string, seq<real>>, limit: int, window: real) {
    forall client :: SameWindow(TimesOf(hits, client), TimesOf(requests, client), limit, window)
  }

  function TimesOf(times: map<string, seq<real>>, client: string): seq<real> {
    if client in times then times[client] else []
  }

  lemma UpdateOne(times: map<string, seq<real>>, client: string, to: seq<real>, other: string)
    ensures TimesOf(times[client := to], other) == if other == client then to else TimesOf(times, other)
  {
  }

  /** Updating one client keeps the agreement of all the others. */
  lemma KeepOthers(hits: map<string, seq<real>>, requests: map<string, seq<real>>, limit: int, window: real,
                   client: string, kept: seq<real>, all: seq<real>)
    requires AllAgree(hits, requests, limit, window)
    requires SameWindow(kept, all, limit, window)
    ensures AllAgree(hits[client := kept], requests[client := all], limit, window)
  {
    forall c {:trigger TimesOf(hits, c)}
      ensures SameWindow(TimesOf(hits[client := kept], c), TimesOf(requests[client := all], c), limit, window)
    {
      UpdateOne(hits, client, kept, c);
      UpdateOne(requests, client, all, c);
      assert SameWindow(TimesOf(hits, c), TimesOf(requests, c), limit, window);
    }
  }
}
