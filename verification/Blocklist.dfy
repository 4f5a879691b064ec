/**
 Banning addresses after repeated failures.

 A tracker counts an address's failures since the first of its group; the fifth within five minutes
 bans the address for half an hour. Requests are single steps here; BlocklistRaces takes them apart.
 */
module Blocklist {
  import opened Collections

  const MAX_FAILURES := 5

  /** Half an hour and five minutes, in nanoseconds. */
  const BAN_DURATION: int := 1_800_000_000_000
  const TRACK_DURATION: int := 300_000_000_000

  datatype Attempt = Attempt(count: int, firstFail: int, lastFail: int)

  /** A request: when its address is checked, whether it fails, and when the failure is recorded. */
  datatype Request = Request(ip: string, checkedAt: int, fails: bool, failedAt: int)

  /** A recorded failure, and whether it banned its address. */
  datatype Mark = Mark(ip: string, at: int, banned: bool)

  /** log is history: the recorded failures, oldest first. */
  datatype State = State(bans: map<string, int>, tracker: map<string, Attempt>, log: seq<Mark>)

  const Fresh := State(map[], map[], [])

  predicate Blocked(bans: map<string, int>, ip: string, now: int) {
    ip in bans && now < bans[ip]
  }

  /** IsIPBlocked drops a ban that has run out. */
  function Checked(s: State, ip: string, now: int): State {
    if Blocked(s.bans, ip, now) then s else s.(bans := s.bans - {ip})
  }

  predicate Bans(tracker: map<string, Attempt>, ip: string, now: int) {
    ip in tracker && now - tracker[ip].firstFail <= TRACK_DURATION && tracker[ip].count + 1 >= MAX_FAILURES
  }

  /** RecordFailedAttempt. */
  function Record(s: State, ip: string, now: int): State {
    var log := s.log + [Mark(ip, now, Bans(s.tracker, ip, now))];
    if Bans(s.tracker, ip, now) then
      State(s.bans[ip := now + BAN_DURATION], s.tracker - {ip}, log)
    else if ip in s.tracker && now - s.tracker[ip].firstFail <= TRACK_DURATION then
      State(s.bans, s.tracker[ip := Attempt(s.tracker[ip].count + 1, s.tracker[ip].firstFail, now)], log)
    else
      State(s.bans, s.tracker[ip := Attempt(1, now, now)], log)
  }

  function Step(s: State, q: Request): State {
    if Blocked(s.bans, q.ip, q.checkedAt) || !q.fails then Checked(s, q.ip, q.checkedAt)
    else Record(Checked(s, q.ip, q.checkedAt), q.ip, q.failedAt)
  }

  function Run(trace: seq<Request>): State {
    if trace == [] then Fresh else Step(Run(trace[..|trace| - 1]), trace[|trace| - 1])
  }

  // ---------- The same, from the failures of one address ----------

  function Of(log: seq<Mark>, ip: string): seq<Mark> {
    if log == [] then []
    else
      var before, last := Of(log[..|log| - 1], ip), log[|log| - 1];
      if last.ip == ip then before + [last] else before
  }

  /** How many of the last failures form the group still open: since the last ban or the last restart of the count. */
  function Open(p: seq<Mark>): (n: nat)
    ensures n <= |p|
  {
    if p == [] || p[|p| - 1].banned then 0
    else
      var front := p[..|p| - 1];
      var n := Open(front);
      if n == 0 || p[|p| - 1].at - front[|front| - n].at > TRACK_DURATION then 1 else n + 1
  }

  /** The failure at the end completes the open group. */
  predicate Completes(p: seq<Mark>, now: int) {
    Open(p) >= MAX_FAILURES - 1 && now - p[|p| - Open(p)].at <= TRACK_DURATION
  }

  /** Bans fall exactly on the failures that complete a group. */
  predicate Lawful(p: seq<Mark>) {
    p == [] ||
    var front, last := p[..|p| - 1], p[|p| - 1];
    Lawful(front) && (last.banned <==> Completes(front, last.at))
  }

  predicate Ordered(p: seq<Mark>, now: int) {
    && (forall i, j | 0 <= i < j < |p| :: p[i].at <= p[j].at)
    && (forall i | 0 <= i < |p| :: p[i].at <= now)
  }

  /** Nothing is recorded of a banned address until its ban has run out. */
  predicate Spaced(p: seq<Mark>) {
    forall i, j | 0 <= i < j < |p| && p[i].banned :: p[i].at + BAN_DURATION <= p[j].at
  }

  /** A ban under half an hour old. */
  predicate StandingBan(p: seq<Mark>, now: int) {
    exists k | 0 <= k < |p| :: p[k].banned && now < p[k].at + 1_800_000_000_000
  }

  lemma OfAppend(log: seq<Mark>, m: Mark, ip: string)
    ensures Of(log + [m], ip) == if m.ip == ip then Of(log, ip) + [m] else Of(log, ip)
  {
    assert (log + [m])[..|log|] == log;
  }

  /** What the tracker holds for an address with these failures. */
  predicate TrackerIs(tracker: map<string, Attempt>, ip: string, p: seq<Mark>) {
    && (ip in tracker <==> Open(p) > 0)
    && (ip in tracker ==> tracker[ip] == Attempt(Open(p), p[|p| - Open(p)].at, p[|p| - 1].at))
  }

  predicate Expires(p: seq<Mark>, expiry: int) {
    exists k | 0 <= k < |p| :: p[k].banned && expiry == p[k].at + BAN_DURATION
  }

  /** What the ban list holds: of the last ban, unless a check has dropped it. */
  predicate BansAre(bans: map<string, int>, ip: string, p: seq<Mark>, now: int) {
    && (ip in bans ==> exists k | 0 <= k < |p| :: p[k].banned && bans[ip] == p[k].at + BAN_DURATION)
    && (forall k | 0 <= k < |p| && p[k].banned && now < p[k].at + BAN_DURATION ::
          ip in bans && p[k].at + BAN_DURATION <= bans[ip])
  }

  predicate InvOf(p: seq<Mark>, bans: map<string, int>, tracker: map<string, Attempt>, ip: string, now: int) {
    Lawful(p) && Ordered(p, now) && Spaced(p) && TrackerIs(tracker, ip, p) && BansAre(bans, ip, p, now)
  }

  predicate Inv(s: State, ip: string, now: int) {
    InvOf(Of(s.log, ip), s.bans, s.tracker, ip, now)
  }

  lemma {:induction false} LawfulPrefix(p: seq<Mark>, k: nat)
    requires Lawful(p) && k <= |p|
    ensures Lawful(p[..k])
    ensures k < |p| ==> (p[k].banned <==> Completes(p[..k], p[k].at))
    decreases |p|
  {
    if k < |p| - 1 {
      LawfulPrefix(p[..|p| - 1], k);
      assert p[..|p| - 1][..k] == p[..k];
    } else if k == |p| {
      assert p[..k] == p;
    }
  }

  lemma {:induction false} OpenIsSmall(p: seq<Mark>)
    requires Lawful(p)
    ensures Open(p) < MAX_FAILURES
    decreases |p|
  {
    if p != [] {
      OpenIsSmall(p[..|p| - 1]);
    }
  }

  lemma CheckKeepsInv(s: State, q: string, ip: string, before: int, now: int)
    requires Inv(s, ip, before) && before <= now
    ensures Inv(Checked(s, q, now), ip, now)
    ensures q == ip ==> (Blocked(s.bans, ip, now) <==> StandingBan(Of(s.log, ip), now))
  {
  }

  lemma LawfulAppend(p: seq<Mark>, m: Mark)
    requires Lawful(p) && (m.banned <==> Completes(p, m.at))
    ensures Lawful(p + [m])
  {
    assert (p + [m])[..|p|] == p;
  }

  lemma RecordKeepsTracker(s: State, ip: string, now: int)
    requires Inv(s, ip, now)
    ensures Bans(s.tracker, ip, now) <==> Completes(Of(s.log, ip), now)
    ensures
      var m := Mark(ip, now, Bans(s.tracker, ip, now));
      Lawful(Of(s.log, ip) + [m]) && TrackerIs(Record(s, ip, now).tracker, ip, Of(s.log, ip) + [m])
  {
    var p := Of(s.log, ip);
    var m := Mark(ip, now, Bans(s.tracker, ip, now));
    OpenIsSmall(p);
    LawfulAppend(p, m);
    assert (p + [m])[..|p|] == p;
  }

  lemma ExpiresAppend(p: seq<Mark>, m: Mark, expiry: int)
    requires Expires(p, expiry) || (m.banned && expiry == m.at + BAN_DURATION)
    ensures Expires(p + [m], expiry)
  {
    var p' := p + [m];
    if Expires(p, expiry) {
      var k :| 0 <= k < |p| && p[k].banned && expiry == p[k].at + BAN_DURATION;
      assert p'[k].banned;
    } else {
      assert p'[|p|].banned;
    }
  }

  lemma NoStandingBan(bans: map<string, int>, ip: string, p: seq<Mark>, now: int)
    requires BansAre(bans, ip, p, now) && !Blocked(bans, ip, now)
    ensures forall k | 0 <= k < |p| && p[k].banned :: p[k].at + BAN_DURATION <= now
  {
  }

  lemma RecordKeepsBans(bans: map<string, int>, ip: string, p: seq<Mark>, m: Mark)
    requires BansAre(bans, ip, p, m.at) && !Blocked(bans, ip, m.at) && Spaced(p) && Ordered(p, m.at)
    ensures Ordered(p + [m], m.at) && Spaced(p + [m])
    ensures BansAre(if m.banned then bans[ip := m.at + BAN_DURATION] else bans, ip, p + [m], m.at)
  {
    var p' := p + [m];
    NoStandingBan(bans, ip, p, m.at);
    assert forall k | 0 <= k < |p| :: p'[k] == p[k];
    if m.banned {
      ExpiresAppend(p, m, m.at + BAN_DURATION);
    } else if ip in bans {
      ExpiresAppend(p, m, bans[ip]);
    }
  }

  lemma RecordKeepsInv(s: State, ip: string, now: int)
    requires Inv(s, ip, now) && !Blocked(s.bans, ip, now)
    ensures Inv(Record(s, ip, now), ip, now)
  {
    var m := Mark(ip, now, Bans(s.tracker, ip, now));
    OfAppend(s.log, m, ip);
    RecordKeepsTracker(s, ip, now);
    RecordKeepsBans(s.bans, ip, Of(s.log, ip), m);
    assert Record(s, ip, now).bans == if m.banned then s.bans[ip := now + BAN_DURATION] else s.bans;
  }

  /** Recording a failure of one address leaves the others alone. */
  lemma RecordFrame(s: State, other: string, ip: string, now: int)
    requires Inv(s, ip, now) && other != ip
    ensures Inv(Record(s, other, now), ip, now)
  {
    var s' := Record(s, other, now);
    OfAppend(s.log, Mark(other, now, Bans(s.tracker, other, now)), ip);
    assert Of(s'.log, ip) == Of(s.log, ip);
    Untouched(Of(s.log, ip), s, s', ip, now);
  }

  lemma Untouched(p: seq<Mark>, s: State, s': State, ip: string, now: int)
    requires InvOf(p, s.bans, s.tracker, ip, now)
    requires ip in s'.bans <==> ip in s.bans
    requires ip in s'.tracker <==> ip in s.tracker
    requires ip in s.bans ==> s'.bans[ip] == s.bans[ip]
    requires ip in s.tracker ==> s'.tracker[ip] == s.tracker[ip]
    ensures InvOf(p, s'.bans, s'.tracker, ip, now)
  {
  }

  lemma StepKeepsInv(s: State, q: Request, ip: string, now: int)
    requires Inv(s, ip, now) && now <= q.checkedAt <= q.failedAt
    ensures Inv(Step(s, q), ip, q.failedAt)
  {
    CheckKeepsInv(s, q.ip, ip, now, q.checkedAt);
    var c := Checked(s, q.ip, q.checkedAt);
    InvLasts(c, ip, q.checkedAt, q.failedAt);
    if !Blocked(s.bans, q.ip, q.checkedAt) && q.fails {
      if q.ip == ip {
        RecordKeepsInv(c, ip, q.failedAt);
      } else {
        RecordFrame(c, q.ip, ip, q.failedAt);
      }
    }
  }

  /** The clock does not go back, within a request or from one to the next. */
  predicate ClockMovesOn(trace: seq<Request>) {
    && (forall i | 0 <= i < |trace| :: trace[i].checkedAt <= trace[i].failedAt)
    && (forall i, j | 0 <= i < j < |trace| :: trace[i].failedAt <= trace[j].checkedAt)
  }

  predicate After(trace: seq<Request>, now: int) {
    forall i | 0 <= i < |trace| :: trace[i].failedAt <= now
  }

  lemma {:induction false} RunKeepsInv(trace: seq<Request>, ip: string, now: int)
    requires ClockMovesOn(trace) && After(trace, now)
    ensures Inv(Run(trace), ip, now)
    decreases |trace|
  {
    if trace != [] {
      var front, q := trace[..|trace| - 1], trace[|trace| - 1];
      RunKeepsInv(front, ip, q.checkedAt);
      StepKeepsInv(Run(front), q, ip, q.checkedAt);
      InvLasts(Run(trace), ip, q.failedAt, now);
    }
  }

  lemma InvLasts(s: State, ip: string, before: int, now: int)
    requires Inv(s, ip, before) && before <= now
    ensures Inv(s, ip, now)
  {
  }

  // ---------- What it means for an address ----------

  /** An address is refused exactly while one of its bans is less than half an hour old. */
  lemma {:induction false} BlockedIff(trace: seq<Request>, ip: string, now: int)
    requires ClockMovesOn(trace) && After(trace, now)
    ensures Blocked(Run(trace).bans, ip, now) <==> StandingBan(Of(Run(trace).log, ip), now)
  {
    RunKeepsInv(trace, ip, now);
    CheckKeepsInv(Run(trace), ip, ip, now, now);
  }

  /** Counts stay between one and four, and an address under a ban has none. */
  lemma {:induction false} TrackerIsShort(trace: seq<Request>, ip: string, now: int)
    requires ClockMovesOn(trace) && After(trace, now)
    ensures ip in Run(trace).tracker ==> 1 <= Run(trace).tracker[ip].count <= 4
    ensures Blocked(Run(trace).bans, ip, now) ==> ip !in Run(trace).tracker
  {
    RunKeepsInv(trace, ip, now);
    var p := Of(Run(trace).log, ip);
    OpenIsSmall(p);
    if Blocked(Run(trace).bans, ip, now) {
      var k :| 0 <= k < |p| && p[k].banned && Run(trace).bans[ip] == p[k].at + BAN_DURATION;
      assert k == |p| - 1;
    }
  }

  /** The failures of the open group lie within the tracking time, and none of them banned. */
  lemma {:induction false} OpenGroup(p: seq<Mark>)
    ensures forall j | |p| - Open(p) <= j < |p| :: !p[j].banned
    decreases |p|
  {
    if p != [] && !p[|p| - 1].banned {
      var front := p[..|p| - 1];
      OpenGroup(front);
      assert forall j | 0 <= j < |front| :: front[j] == p[j];
    }
  }

  /** The failure at k is the fifth of five within the tracking time, none of which banned before. */
  predicate FifthOfFive(p: seq<Mark>, k: int)
    requires 0 <= k < |p|
  {
    k >= 4 && p[k].at - p[k - 4].at <= 300_000_000_000 && forall j | k - 4 <= j < k :: !p[j].banned
  }

  /** Eight failures from i on lie within five minutes. */
  predicate EightWithin(p: seq<Mark>, i: int) {
    0 <= i && i + 8 <= |p| && p[i + 7].at - p[i].at <= 300_000_000_000
  }

  predicate BanAmong(p: seq<Mark>, i: int)
    requires EightWithin(p, i)
  {
    exists j | i <= j < i + 8 :: p[j].banned
  }

  lemma BanIsEarned(p: seq<Mark>, k: nat)
    requires Lawful(p) && k < |p| && p[k].banned
    ensures FifthOfFive(p, k)
  {
    var front := p[..k];
    LawfulPrefix(p, k);
    OpenIsSmall(front);
    OpenGroup(front);
    assert Open(front) == 4;
    assert forall j | k - 4 <= j < k :: p[j] == front[j];
  }

  /** The group begun at f is still open. */
  lemma {:induction false} GroupGrows(p: seq<Mark>, f: nat, j: nat)
    requires f <= j < |p| && Open(p[..f + 1]) == 1
    requires forall i | f <= i <= j :: !p[i].banned && p[i].at - p[f].at <= TRACK_DURATION
    ensures Open(p[..j + 1]) == j - f + 1
    decreases j
  {
    if f < j {
      GroupGrows(p, f, j - 1);
      assert p[..j + 1][..j] == p[..j];
    }
  }

  /** Among any four failures without a ban, one begins a group. */
  lemma GroupBegins(p: seq<Mark>, i: nat) returns (f: nat)
    requires Lawful(p) && i + 4 <= |p| && forall j | i <= j < i + 4 :: !p[j].banned
    ensures i <= f < i + 4 && Open(p[..f + 1]) == 1
  {
    f := i;
    while Open(p[..f + 1]) != 1
      invariant i <= f < i + 4
      invariant Open(p[..f + 1]) == 1 || Open(p[..f + 1]) >= f - i + 2
      decreases i + 4 - f
    {
      assert p[..f + 1][..f] == p[..f];
      if f == i + 3 {
        LawfulPrefix(p, f + 1);
        OpenIsSmall(p[..f + 1]);
        assert false;
      }
      assert p[..f + 2][..f + 1] == p[..f + 1];
      f := f + 1;
    }
  }

  lemma EightFailuresBan(p: seq<Mark>, now: int, i: nat)
    requires Lawful(p) && Ordered(p, now) && EightWithin(p, i)
    ensures BanAmong(p, i)
  {
    if !BanAmong(p, i) {
      assert forall j | i <= j < i + 8 :: !p[j].banned;
      var f := GroupBegins(p, i);
      assert p[i].at <= p[f].at && p[f + 4].at <= p[i + 7].at;
      FifthBans(p, f);
      assert false;
    }
  }

  lemma FifthBans(p: seq<Mark>, f: nat)
    requires Lawful(p) && f + 5 <= |p| && Open(p[..f + 1]) == 1
    requires forall i | f <= i <= f + 4 :: p[i].at - p[f].at <= TRACK_DURATION
    requires forall j | f <= j < f + 4 :: !p[j].banned
    ensures p[f + 4].banned
  {
    var front := p[..f + 4];
    GroupGrows(p, f, f + 3);
    LawfulPrefix(p, f + 4);
    assert front == p[..f + 3 + 1] && Open(front) == 4;
    assert front[|front| - 4] == p[f];
  }

  /**
   Over any run: every ban falls on the fifth of five failures within the tracking time, none of which
   banned before; any eight failures within the tracking time include a ban; and from a ban on nothing
   is recorded of its address for the length of the ban.
   */
  lemma {:induction false} BansAreExact(trace: seq<Request>, ip: string, now: int)
    requires ClockMovesOn(trace) && After(trace, now)
    ensures
      var p := Of(Run(trace).log, ip);
      && (forall k | 0 <= k < |p| && p[k].banned :: FifthOfFive(p, k))
      && (forall i | EightWithin(p, i) :: BanAmong(p, i))
      && (forall k, j | 0 <= k < j < |p| && p[k].banned :: p[k].at + BAN_DURATION <= p[j].at)
  {
    RunKeepsInv(trace, ip, now);
    var p := Of(Run(trace).log, ip);
    forall k | 0 <= k < |p| && p[k].banned
      ensures FifthOfFive(p, k)
    {
      BanIsEarned(p, k);
    }
    forall i | EightWithin(p, i)
      ensures BanAmong(p, i)
    {
      EightFailuresBan(p, now, i);
    }
  }

  lemma RunSnoc(trace: seq<Request>, q: Request)
    ensures Run(trace + [q]) == Step(Run(trace), q)
  {
    assert (trace + [q])[..|trace|] == trace;
  }

  const SECOND: int := 1_000_000_000

  function FailureAt(second: int): Request {
    Request("a", second * SECOND, true, second * SECOND)
  }

  /** Of the address "a": the tracker's record, no ban, and so many failures. */
  predicate Counted(s: State, attempt: Attempt, failures: nat) {
    s.bans == map[] && s.tracker == map["a" := attempt] && |Of(s.log, "a")| == failures
  }

  function CountedUp(attempt: Attempt, now: int): Attempt {
    if now - attempt.firstFail > TRACK_DURATION then Attempt(1, now, now) else Attempt(attempt.count + 1, attempt.firstFail, now)
  }

  lemma FailOnce(s: State, attempt: Attempt, failures: nat, second: int)
    requires Counted(s, attempt, failures)
    requires attempt.count < 4 || second * SECOND - attempt.firstFail > TRACK_DURATION
    ensures Counted(Step(s, FailureAt(second)), CountedUp(attempt, second * SECOND), failures + 1)
  {
    var now := second * SECOND;
    OfAppend(s.log, Mark("a", now, false), "a");
    assert Checked(s, "a", now) == s;
    assert !Bans(s.tracker, "a", now);
  }

  /** Eight is the least: seven failures in two seconds need not ban, when an earlier one began their count. */
  lemma SevenMayNotBan()
    ensures
      var late := [FailureAt(299), FailureAt(299), FailureAt(299),
                   FailureAt(301), FailureAt(301), FailureAt(301), FailureAt(301)];
      Counted(Run([FailureAt(0)] + late), Attempt(4, 301 * SECOND, 301 * SECOND), 8)
  {
    var first, second, third := FailureAt(0), FailureAt(299), FailureAt(301);
    var t1 := [first];
    RunSnoc([], first);
    OfAppend([], Mark("a", 0, false), "a");
    assert [] + [first] == t1 && [] + [Mark("a", 0, false)] == [Mark("a", 0, false)];
    assert Counted(Run(t1), Attempt(1, 0, 0), 1);
    var t4 := t1 + [second] + [second] + [second];
    ThreeMore(t1, Attempt(1, 0, 0), 1, 299);
    assert Counted(Run(t4), Attempt(4, 0, 299 * SECOND), 4);
    FailOnce(Run(t4), Attempt(4, 0, 299 * SECOND), 4, 301);
    var t5 := t4 + [third];
    RunSnoc(t4, third);
    ThreeMore(t5, Attempt(1, 301 * SECOND, 301 * SECOND), 5, 301);
    assert t5 + [third] + [third] + [third] == [first] + [second, second, second, third, third, third, third];
  }

  lemma ThreeMore(trace: seq<Request>, attempt: Attempt, failures: nat, second: int)
    requires Counted(Run(trace), attempt, failures)
    requires attempt.count == 1 && second * SECOND - attempt.firstFail <= TRACK_DURATION
    ensures
      var q := FailureAt(second);
      Counted(Run(trace + [q] + [q] + [q]), Attempt(4, attempt.firstFail, second * SECOND), failures + 3)
  {
    var q := FailureAt(second);
    var s := Run(trace);
    RunSnoc(trace, q);
    RunSnoc(trace + [q], q);
    RunSnoc(trace + [q] + [q], q);
    var a2 := CountedUp(attempt, second * SECOND);
    FailOnce(s, attempt, failures, second);
    FailOnce(Step(s, q), a2, failures + 1, second);
    FailOnce(Step(Step(s, q), q), CountedUp(a2, second * SECOND), failures + 2, second);
  }

  // ---------- The middleware ----------

  class Blocklist {
    var bans: map<string, int>
    var tracker: map<string, Attempt>
    ghost var log: seq<Mark>

    ghost function Now(): State
      reads this
    {
      State(bans, tracker, log)
    }

    constructor ()
      ensures Now() == Fresh
    {
      bans, tracker, log := map[], map[], [];
    }

    method IsIPBlocked(ip: string, now: int) returns (blocked: bool)
      modifies this
      ensures Now() == Checked(old(Now()), ip, now)
      ensures blocked == Blocked(old(bans), ip, now) && blocked == Blocked(bans, ip, now)
    {
      if ip in bans {
        if now < bans[ip] {
          return true;
        }
        bans := bans - {ip};
      }
      assert bans == old(bans) - {ip};
      blocked := false;
    }

    method RecordFailedAttempt(ip: string, now: int) returns (banned: bool)
      modifies this
      ensures Now() == Record(old(Now()), ip, now) && banned == Bans(old(tracker), ip, now)
    {
      log := log + [Mark(ip, now, Bans(tracker, ip, now))];
      if ip !in tracker {
        tracker := tracker[ip := Attempt(1, now, now)];
        return false;
      }
      var attempt := tracker[ip];
      if now - attempt.firstFail > TRACK_DURATION {
        tracker := tracker[ip := Attempt(1, now, now)];
        return false;
      }
      attempt := Attempt(attempt.count + 1, attempt.firstFail, now);
      if attempt.count >= MAX_FAILURES {
        bans := bans[ip := now + BAN_DURATION];
        tracker := tracker - {ip};
        return true;
      }
      tracker := tracker[ip := attempt];
      banned := false;
    }

    /** One request: checked first, and recorded if it then fails. */
    method Handle(q: Request) returns (refused: bool)
      modifies this
      ensures Now() == Step(old(Now()), q) && refused == (Blocked(old(bans), q.ip, q.checkedAt) || q.fails)
    {
      var blocked := IsIPBlocked(q.ip, q.checkedAt);
      if !blocked && q.fails {
        var _ := RecordFailedAttempt(q.ip, q.failedAt);
      }
      refused := blocked || q.fails;
    }
  }
}
