/**
 The per-client request limiter.

 Each client has a record of tokens left and the time of its last accepted request. The record is
 refilled when a request comes more than a minute after the last accepted one, and only then. What
 that means for a client is stated over the times of its accepted requests alone.
 */
module RateLimit {
  import opened Collections
  import Paths

  /** One minute, in nanoseconds. */
  const RATE_WINDOW: int := 60_000_000_000

  const DEFAULT_RATE_LIMIT := 100

  function Limit(configured: int): (limit: int)
    ensures limit >= 1
  {
    if configured <= 0 then DEFAULT_RATE_LIMIT else configured
  }

  /** Whom a request is counted against: two headers, then the address up to its first colon. */
  function ClientIP(realIP: string, forwardedFor: string, remoteAddr: string): string {
    if realIP != "" then realIP
    else if forwardedFor != "" then forwardedFor
    else Paths.Before(remoteAddr, ':')
  }

  lemma {:induction false} BeforeFirst(host: string, rest: string)
    requires ':' !in host
    ensures Paths.Before(host + ":" + rest, ':') == host
  {
    var s := host + ":" + rest;
    if host == [] {
      assert s[0] == ':';
    } else {
      assert host[0] in host && s[0] == host[0];
      assert s[1..] == host[1..] + ":" + rest;
      BeforeFirst(host[1..], rest);
    }
  }

  /**
   X-Real-IP decides if it is there, else X-Forwarded-For, else the host: clients without headers are
   one client exactly when their hosts are the same, whatever the ports.
   */
  lemma ClientIsHost(realIP: string, forwardedFor: string, host: string, port: string, host': string, port': string)
    requires ':' !in host && ':' !in host'
    ensures realIP != "" ==> ClientIP(realIP, forwardedFor, host + ":" + port) == realIP
    ensures forwardedFor != "" ==> ClientIP("", forwardedFor, host + ":" + port) == forwardedFor
    ensures ClientIP("", "", host + ":" + port) == ClientIP("", "", host' + ":" + port') <==> host == host'
    ensures ClientIP("", "", host + ":" + port) == host
  {
    BeforeFirst(host, port);
    BeforeFirst(host', port');
  }

  /**
   Found in the code: the address is cut at its first colon, so all IPv6 clients that begin with the
   same group are one client.
   */
  lemma IPv6ClientsShare(group: string, rest: string, rest': string)
    requires ':' !in group
    ensures ClientIP("", "", "[" + group + ":" + rest) == ClientIP("", "", "[" + group + ":" + rest') == "[" + group
  {
    assert ':' !in "[" + group;
    BeforeFirst("[" + group, rest);
    BeforeFirst("[" + group, rest');
  }

  datatype Rater = Rater(tokens: int, last: int)

  datatype Request = Request(client: string, now: int)

  /** granted is history: the accepted requests, oldest first. */
  datatype State = State(clients: map<string, Rater>, granted: seq<Request>)

  const Fresh := State(map[], [])

  /** The record a request finds, refilled if it is due. */
  function Refilled(limit: int, r: Rater, now: int): Rater {
    if now - r.last > RATE_WINDOW then r.(tokens := limit) else r
  }

  predicate Verdict(limit: int, clients: map<string, Rater>, q: Request) {
    q.client !in clients || Refilled(limit, clients[q.client], q.now).tokens > 0
  }

  function Step(limit: int, s: State, q: Request): State {
    if q.client !in s.clients then
      State(s.clients[q.client := Rater(limit - 1, q.now)], s.granted + [q])
    else
      var r := Refilled(limit, s.clients[q.client], q.now);
      if r.tokens > 0 then State(s.clients[q.client := Rater(r.tokens - 1, q.now)], s.granted + [q])
      else State(s.clients[q.client := r], s.granted)
  }

  function Run(limit: int, trace: seq<Request>): State {
    if trace == [] then Fresh else Step(limit, Run(limit, trace[..|trace| - 1]), trace[|trace| - 1])
  }

  // ---------- The same, from the accepted times of one client ----------

  /** How many of the last accepted requests each came within a window of the one before. */
  function Burst(times: seq<int>): (n: nat)
    ensures n <= |times| && (n == 0 <==> times == [])
  {
    if times == [] then 0
    else if |times| == 1 || times[|times| - 1] - times[|times| - 2] > RATE_WINDOW then 1
    else Burst(times[..|times| - 1]) + 1
  }

  /** The first request, one after a pause, or one in a burst still short of the limit. */
  predicate Grants(limit: int, times: seq<int>, now: int) {
    times == [] || now - times[|times| - 1] > RATE_WINDOW || Burst(times) < limit
  }

  function Accepted(limit: int, requests: seq<int>): seq<int> {
    if requests == [] then []
    else
      var before, now := Accepted(limit, requests[..|requests| - 1]), requests[|requests| - 1];
      if Grants(limit, before, now) then before + [now] else before
  }

  function TimesOf(requests: seq<Request>, client: string): seq<int> {
    if requests == [] then []
    else
      var before, last := TimesOf(requests[..|requests| - 1], client), requests[|requests| - 1];
      if last.client == client then before + [last.now] else before
  }

  lemma TimesAppend(requests: seq<Request>, q: Request, client: string)
    ensures TimesOf(requests + [q], client) ==
      if q.client == client then TimesOf(requests, client) + [q.now] else TimesOf(requests, client)
  {
    assert (requests + [q])[..|requests|] == requests;
  }

  lemma BurstAppend(times: seq<int>, now: int)
    ensures Burst(times + [now]) ==
      if times == [] || now - times[|times| - 1] > RATE_WINDOW then 1 else Burst(times) + 1
  {
    assert (times + [now])[..|times|] == times;
  }

  /** A record says how far its client is into a burst, and when that burst last grew. */
  ghost predicate Tracks(limit: int, s: State, client: string) {
    var times := TimesOf(s.granted, client);
    && (client in s.clients <==> times != [])
    && (client in s.clients ==>
          s.clients[client] == Rater(limit - Burst(times), times[|times| - 1]) && Burst(times) <= limit)
  }

  lemma StepTracks(limit: int, s: State, q: Request, client: string)
    requires limit >= 1 && Tracks(limit, s, client) && Tracks(limit, s, q.client)
    ensures Tracks(limit, Step(limit, s, q), client)
    ensures Verdict(limit, s.clients, q) <==> Grants(limit, TimesOf(s.granted, q.client), q.now)
    ensures TimesOf(Step(limit, s, q).granted, client) ==
      if q.client == client && Verdict(limit, s.clients, q) then TimesOf(s.granted, client) + [q.now]
      else TimesOf(s.granted, client)
  {
    TimesAppend(s.granted, q, client);
    if q.client == client {
      BurstAppend(TimesOf(s.granted, client), q.now);
    } else {
      assert Tracks(limit, Step(limit, s, q), client);
    }
  }

  /** Clients do not affect each other, and a client's accepted requests follow from its own history. */
  lemma {:induction false} LimiterIsHistory(limit: int, trace: seq<Request>, client: string)
    requires limit >= 1
    ensures Tracks(limit, Run(limit, trace), client)
    ensures TimesOf(Run(limit, trace).granted, client) == Accepted(limit, TimesOf(trace, client))
    decreases |trace|
  {
    if trace != [] {
      var front, q := trace[..|trace| - 1], trace[|trace| - 1];
      LimiterIsHistory(limit, front, client);
      LimiterIsHistory(limit, front, q.client);
      StepTracks(limit, Run(limit, front), q, client);
      var times := TimesOf(front, client);
      assert (times + [q.now])[..|times|] == times;
    }
  }

  /**
   When a request is accepted, exactly: it is the client's first, or comes more than a window after the
   client's last accepted one, or the burst it joins has fewer accepted requests than the limit.
   */
  lemma {:induction false} VerdictIff(limit: int, trace: seq<Request>, q: Request)
    requires limit >= 1
    ensures Verdict(limit, Run(limit, trace).clients, q) <==>
      Grants(limit, Accepted(limit, TimesOf(trace, q.client)), q.now)
  {
    LimiterIsHistory(limit, trace, q.client);
    StepTracks(limit, Run(limit, trace), q, q.client);
  }

  // ---------- How much a client gets ----------

  predicate Sorted(times: seq<int>) {
    forall i, j | 0 <= i < j < |times| :: times[i] <= times[j]
  }

  predicate ClockMovesOn(trace: seq<Request>) {
    forall i, j | 0 <= i < j < |trace| :: trace[i].now <= trace[j].now
  }

  /** The windows begun in an interval of the given length: one, and one more each time a window has passed. */
  function Windows(length: nat): nat {
    if length == 0 then 1 else (length - 1) / RATE_WINDOW + 1
  }

  lemma WindowsGrow(short: nat, long: nat)
    requires short <= long
    ensures Windows(short) <= Windows(long)
    ensures long > short + RATE_WINDOW ==> Windows(short) + 1 <= Windows(long)
  {
    if 0 < short {
      assert (short - 1) / RATE_WINDOW <= (long - 1) / RATE_WINDOW;
    }
  }

  /** Every burst keeps the limit. */
  predicate Limited(limit: int, times: seq<int>) {
    forall j | 0 <= j <= |times| :: Burst(times[..j]) <= limit
  }

  lemma {:induction false} AcceptedIsLimited(limit: int, requests: seq<int>)
    requires limit >= 1
    ensures Limited(limit, Accepted(limit, requests))
    decreases |requests|
  {
    if requests != [] {
      var front, now := requests[..|requests| - 1], requests[|requests| - 1];
      AcceptedIsLimited(limit, front);
      var before := Accepted(limit, front);
      if Grants(limit, before, now) {
        BurstAppend(before, now);
        assert before[..|before|] == before;
        var all := before + [now];
        forall j | 0 <= j <= |all|
          ensures Burst(all[..j]) <= limit
        {
          if j < |all| {
            assert all[..j] == before[..j];
          } else {
            assert all[..j] == all;
          }
        }
      }
    }
  }

  /** The last burst reaches back to a gap longer than a window, or to the beginning. */
  lemma {:induction false} BurstBegins(times: seq<int>)
    requires 0 < Burst(times) < |times|
    ensures times[|times| - Burst(times)] - times[|times| - Burst(times) - 1] > RATE_WINDOW
    decreases |times|
  {
    if times[|times| - 1] - times[|times| - 2] <= RATE_WINDOW {
      BurstBegins(times[..|times| - 1]);
    }
  }

  /** A burst after a long gap fits into the window it begins. */
  lemma OneMoreWindow(limit: int, short: nat, long: nat, before: int, burst: int)
    requires before <= limit * Windows(short) && burst <= limit && long > short + RATE_WINDOW
    ensures before + burst <= limit * Windows(long) || limit < 0
  {
    WindowsGrow(short, long);
    var a, b := Windows(short) + 1, Windows(long);
    if limit >= 0 {
      assert limit * a <= limit * b;
    }
  }

  lemma Scale(limit: int, a: nat, b: nat)
    requires limit >= 0 && a <= b
    ensures limit * Windows(a) <= limit * Windows(b) && limit <= limit * Windows(b)
  {
    WindowsGrow(a, b);
    WindowsGrow(0, b);
    var x, y := Windows(a), Windows(b);
    assert limit * x <= limit * y && limit * 1 <= limit * y;
  }

  lemma {:induction false} AcceptedBetween(limit: int, times: seq<int>, i: nat, j: nat)
    requires i <= j < |times| && Sorted(times) && Limited(limit, times) && limit >= 1
    ensures times[i] <= times[j] && j - i + 1 <= limit * Windows(times[j] - times[i])
    decreases j
  {
    var part := times[..j + 1];
    var n := Burst(part);
    var spread := times[j] - times[i];
    if n >= j - i + 1 {
      Scale(limit, 0, spread);
    } else {
      var k := j - n;
      BurstBegins(part);
      AcceptedBetween(limit, times, i, k);
      OneMoreWindow(limit, times[k] - times[i], spread, k - i + 1, n);
    }
  }

  function CountIn(times: seq<int>, lo: int, hi: int): nat {
    if times == [] then 0
    else CountIn(times[..|times| - 1], lo, hi) + if lo <= times[|times| - 1] <= hi then 1 else 0
  }

  /** What lies in an interval of a sorted sequence is a slice of it. */
  lemma {:induction false} CountIsSlice(times: seq<int>, lo: int, hi: int) returns (i: nat)
    requires Sorted(times)
    ensures i + CountIn(times, lo, hi) <= |times|
    ensures forall k | i <= k < i + CountIn(times, lo, hi) :: lo <= times[k] <= hi
    ensures CountIn(times, lo, hi) > 0 && times[|times| - 1] <= hi ==> i + CountIn(times, lo, hi) == |times|
    decreases |times|
  {
    if times == [] {
      i := 0;
    } else {
      var front, last := times[..|times| - 1], times[|times| - 1];
      i := CountIsSlice(front, lo, hi);
      if lo <= last <= hi && CountIn(front, lo, hi) == 0 {
        i := |front|;
      }
    }
  }

  lemma {:induction false} AcceptedIsSorted(limit: int, requests: seq<int>)
    requires Sorted(requests)
    ensures Sorted(Accepted(limit, requests))
    ensures forall i | 0 <= i < |Accepted(limit, requests)| :: requests != [] && Accepted(limit, requests)[i] <= requests[|requests| - 1]
    decreases |requests|
  {
    if requests != [] {
      var front, now := requests[..|requests| - 1], requests[|requests| - 1];
      AcceptedIsSorted(limit, front);
      var before := Accepted(limit, front);
      assert forall i | 0 <= i < |before| :: before[i] <= now;
      assert Accepted(limit, requests) == before || Accepted(limit, requests) == before + [now];
    }
  }

  lemma {:induction false} TimesAreSorted(trace: seq<Request>, client: string)
    requires ClockMovesOn(trace)
    ensures Sorted(TimesOf(trace, client))
    ensures TimesOf(trace, client) != [] ==>
      trace != [] && TimesOf(trace, client)[|TimesOf(trace, client)| - 1] <= trace[|trace| - 1].now
    decreases |trace|
  {
    if trace != [] {
      TimesAreSorted(trace[..|trace| - 1], client);
    }
  }

  lemma IntervalHolds(limit: int, times: seq<int>, from: int, length: nat)
    requires Sorted(times) && Limited(limit, times) && limit >= 1
    ensures CountIn(times, from, from + length) <= limit * Windows(length)
  {
    var i := CountIsSlice(times, from, from + length);
    var n := CountIn(times, from, from + length);
    if n > 0 {
      AcceptedBetween(limit, times, i, i + n - 1);
      Scale(limit, times[i + n - 1] - times[i], length);
    }
  }

  lemma AcceptedInInterval(limit: int, requests: seq<int>, from: int, length: nat)
    requires Sorted(requests) && limit >= 1
    ensures
      var n := CountIn(Accepted(limit, requests), from, from + length);
      n <= limit * Windows(length) && (length <= RATE_WINDOW ==> n <= limit)
  {
    AcceptedIsSorted(limit, requests);
    AcceptedIsLimited(limit, requests);
    IntervalHolds(limit, Accepted(limit, requests), from, length);
    if length <= RATE_WINDOW {
      assert Windows(length) == 1;
    }
  }

  /**
   In any interval a client has at most the limit accepted for each window begun in it; so no interval
   as long as the window has more than the limit.
   */
  lemma {:induction false} IntervalBound(configured: int, trace: seq<Request>, client: string, from: int, length: nat)
    requires ClockMovesOn(trace)
    ensures
      var granted := TimesOf(Run(Limit(configured), trace).granted, client);
      var limit := if configured <= 0 then 100 else configured;
      && CountIn(granted, from, from + length) <= limit * Windows(length)
      && (length <= 60_000_000_000 ==> CountIn(granted, from, from + length) <= limit)
  {
    var limit := Limit(configured);
    var requests := TimesOf(trace, client);
    LimiterIsHistory(limit, trace, client);
    TimesAreSorted(trace, client);
    AcceptedInInterval(limit, requests, from, length);
  }

  /** A request more than a window after the client's last accepted one is accepted. */
  lemma {:induction false} PauseIsEnough(limit: int, trace: seq<Request>, q: Request)
    requires limit >= 1
    requires
      var granted := TimesOf(Run(limit, trace).granted, q.client);
      granted == [] || q.now - granted[|granted| - 1] > 60_000_000_000
    ensures Verdict(limit, Run(limit, trace).clients, q)
  {
    LimiterIsHistory(limit, trace, q.client);
    PauseRefills(limit, Run(limit, trace), q);
  }

  lemma PauseRefills(limit: int, s: State, q: Request)
    requires limit >= 1 && Tracks(limit, s, q.client)
    requires
      var granted := TimesOf(s.granted, q.client);
      granted == [] || q.now - granted[|granted| - 1] > RATE_WINDOW
    ensures Verdict(limit, s.clients, q)
  {
  }

  // ---------- A steady client ----------

  predicate Steady(requests: seq<int>) {
    forall i | 0 < i < |requests| :: requests[i] - requests[i - 1] <= RATE_WINDOW
  }

  /** While it never pauses longer than a window, a client's first requests up to the limit are accepted. */
  lemma {:induction false} SteadyIsAccepted(limit: int, requests: seq<int>)
    requires Steady(requests) && |requests| <= limit
    ensures Accepted(limit, requests) == requests && Burst(requests) == |requests|
    decreases |requests|
  {
    if requests != [] {
      var front := requests[..|requests| - 1];
      SteadyIsAccepted(limit, front);
      assert front + [requests[|requests| - 1]] == requests;
      BurstAppend(front, requests[|requests| - 1]);
    }
  }

  /**
   Found in the code: the limit is not a rate. However slowly they come, once as many requests as the
   limit have been accepted with no pause longer than a window, the next such request is refused.
   */
  lemma SteadyClientIsRefused(limit: int, requests: seq<int>, now: int)
    requires limit >= 1 && |requests| == limit && Steady(requests)
    ensures !Grants(limit, Accepted(limit, requests), now) <==> now - requests[limit - 1] <= 60_000_000_000
  {
    SteadyIsAccepted(limit, requests);
  }

  // ---------- The middleware ----------

  class RateLimiter {
    const limit: int
    var clients: map<string, Rater>
    ghost var granted: seq<Request>

    ghost function Now(): State
      reads this
    {
      State(clients, granted)
    }

    constructor (configured: int)
      ensures limit == (if configured <= 0 then 100 else configured) && Now() == Fresh
    {
      limit, clients, granted := Limit(configured), map[], [];
    }

    /** Runs under the lock; says whether the request goes through. */
    method Admit(realIP: string, forwardedFor: string, remoteAddr: string, now: int) returns (accepted: bool)
      modifies this
      ensures
        var q := Request(ClientIP(realIP, forwardedFor, remoteAddr), now);
        Now() == Step(limit, old(Now()), q) && accepted == Verdict(limit, old(clients), q)
    {
      var client := ClientIP(realIP, forwardedFor, remoteAddr);
      if client !in clients {
        clients := clients[client := Rater(limit - 1, now)];
      } else {
        var rater := clients[client];
        if now - rater.last > RATE_WINDOW {
          rater := rater.(tokens := limit);
        }
        clients := clients[client := rater];
        if rater.tokens <= 0 {
          return false;
        }
        clients := clients[client := Rater(rater.tokens - 1, now)];
      }
      granted := granted + [Request(client, now)];
      accepted := true;
    }
  }
}
