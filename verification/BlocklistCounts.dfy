/**
 Which failures count when requests race, and how often.

 A stored failure should count exactly once: in one ban, in the tracker, or in a group that was replaced
 because it had expired. That holds at every moment of a run exactly when no store and no deletion
 works on a record other than the one it saw. Such runs ban as requests taken one at a time do.
 */
module BlocklistCounts {
  import opened Collections
  import opened Blocklist
  import opened BlocklistRaces

  // ---------- How often a failure counts ----------

  function BanTimes(bans: seq<Ban>, c: int): nat {
    if bans == [] then 0
    else BanTimes(bans[..|bans| - 1], c) + if c in bans[|bans| - 1].earnedBy then 1 else 0
  }

  function DropTimes(dropped: seq<set<int>>, c: int): nat {
    if dropped == [] then 0
    else DropTimes(dropped[..|dropped| - 1], c) + if c in dropped[|dropped| - 1] then 1 else 0
  }

  /** The tracker counts the failure, in a record no ban has been made of. */
  predicate InTracker(s: Racing, c: int) {
    c in s.failures && s.failures[c].ip in s.behind && s.failures[c].ip !in s.spent && c in s.behind[s.failures[c].ip]
  }

  function Times(s: Racing, c: int): nat {
    BanTimes(s.bans, c) + DropTimes(s.dropped, c) + if InTracker(s, c) then 1 else 0
  }

  /** Every stored failure counts exactly once. */
  predicate Exact(s: Racing) {
    forall c | c in s.stored :: Times(s, c) == 1
  }

  /**
   The step works on the record it saw. A call that counts up, or bans, needs that very record in the
   tracker, with no ban made of it; one that begins afresh needs that record, or none to replace that
   still counts; and a deletion must not find one that still counts.
   */
  predicate Safe(s: Racing, e: Event)
    requires Enabled(s, e)
  {
    match e
    case Store(call) =>
      Current(s, call) || (!Continues(s.calls[call]) && (s.calls[call].ip !in s.tracker || s.calls[call].ip in s.spent))
    case Delete(call) => s.calls[call].ip !in s.tracker || s.calls[call].ip in s.spent
    case _ => true
  }

  lemma {:induction false} UnstoredInNoBan(bans: seq<Ban>, stored: set<int>, c: int)
    requires c !in stored && forall i | 0 <= i < |bans| :: bans[i].earnedBy <= stored
    ensures BanTimes(bans, c) == 0
    decreases |bans|
  {
    if bans != [] {
      UnstoredInNoBan(bans[..|bans| - 1], stored, c);
    }
  }

  lemma {:induction false} UnstoredNotDropped(dropped: seq<set<int>>, stored: set<int>, c: int)
    requires c !in stored && forall i | 0 <= i < |dropped| :: dropped[i] <= stored
    ensures DropTimes(dropped, c) == 0
    decreases |dropped|
  {
    if dropped != [] {
      UnstoredNotDropped(dropped[..|dropped| - 1], stored, c);
    }
  }

  lemma UnstoredIsUncounted(s: Racing, c: int)
    requires RaceInv(s) && c !in s.stored
    ensures BanTimes(s.bans, c) == 0 && DropTimes(s.dropped, c) == 0 && !InTracker(s, c)
  {
    UnstoredInNoBan(s.bans, s.stored, c);
    UnstoredNotDropped(s.dropped, s.stored, c);
  }

  lemma BanTimesSnoc(bans: seq<Ban>, b: Ban, c: int)
    ensures BanTimes(bans + [b], c) == BanTimes(bans, c) + if c in b.earnedBy then 1 else 0
  {
    assert (bans + [b])[..|bans|] == bans;
  }

  lemma DropTimesSnoc(dropped: seq<set<int>>, g: set<int>, c: int)
    ensures DropTimes(dropped + [g], c) == DropTimes(dropped, c) + if c in g then 1 else 0
  {
    assert (dropped + [g])[..|dropped|] == dropped;
  }

  /** What the call holds: stored failures of its address, some if it saw a record. */
  lemma HeldFailures(s: Racing, call: int)
    requires RaceInv(s) && Enabled(s, Store(call))
    ensures forall h | h in s.inHand[call] :: h in s.stored && h in s.failures && s.failures[h].ip == s.calls[call].ip
    ensures s.calls[call].phase.seen.Some? <==> s.inHand[call] != {}
    ensures call !in s.stored && call in s.failures && s.failures[call] == Failure(s.calls[call].ip, s.calls[call].at)
  {
    assert CallBacked(s, call);
  }

  /** A record the tracker has counts at least one failure, each stored and of its address. */
  lemma TrackedFailures(s: Racing, ip: string)
    requires RaceInv(s) && ip in s.tracker
    ensures s.behind[ip] != {}
    ensures forall h | h in s.behind[ip] :: h in s.stored && h in s.failures && s.failures[h].ip == ip
  {
  }

  // ---------- Each kind of step ----------

  /** A ban moves its failures out of the tracker if they are there; otherwise it counts them once more. */
  lemma BanExactIff(s: Racing, call: int)
    requires RaceInv(s) && Exact(s) && Enabled(s, Store(call)) && NextRecord(s.calls[call]).count >= MAX_FAILURES
    ensures Exact(StoreBan(s, call)) <==> Current(s, call)
  {
    var t, ip, held := StoreBan(s, call), s.calls[call].ip, s.inHand[call];
    HeldFailures(s, call);
    UnstoredIsUncounted(s, call);
    var b := t.bans[|s.bans|];
    assert t.bans == s.bans + [b] && b.earnedBy == held + {call};
    forall c
      ensures BanTimes(t.bans, c) == BanTimes(s.bans, c) + if c in held + {call} then 1 else 0
    {
      BanTimesSnoc(s.bans, b, c);
    }
    if Current(s, call) {
      forall c | c in t.stored
        ensures Times(t, c) == 1
      {
        if c in held {
          assert InTracker(s, c) && Times(s, c) == 1;
        }
      }
    } else {
      var h := Pick(held);
      assert InTracker(t, h) == InTracker(s, h) && Times(t, h) == Times(s, h) + 1;
    }
  }

  /** Counting up keeps the count exact if it adds to the record in the tracker; otherwise some failure is lost or doubled. */
  lemma CountUpExactIff(s: Racing, call: int)
    requires RaceInv(s) && Exact(s) && Enabled(s, Store(call))
    requires NextRecord(s.calls[call]).count < MAX_FAILURES && Continues(s.calls[call])
    ensures Exact(StoreRecord(s, call)) <==> Current(s, call)
  {
    var t, ip, held := StoreRecord(s, call), s.calls[call].ip, s.inHand[call];
    HeldFailures(s, call);
    UnstoredIsUncounted(s, call);
    assert t.behind[ip] == held + {call} && ip !in t.spent;
    forall c | c in s.failures && c != call
      ensures InTracker(t, c) <==> if s.failures[c].ip == ip then c in held else InTracker(s, c)
    {
    }
    if Current(s, call) {
      forall c | c in t.stored
        ensures Times(t, c) == 1
      {
        assert c != call ==> Times(s, c) == 1;
      }
    } else {
      var h := MisplacedFailure(s, call);
      assert h != call && Times(s, h) == 1 && Times(t, h) != 1;
    }
  }

  /** If the tracker has another record than the call holds, some failure is in one of them only. */
  lemma MisplacedFailure(s: Racing, call: int) returns (h: int)
    requires RaceInv(s) && Enabled(s, Store(call)) && !Current(s, call) && Continues(s.calls[call])
    ensures h in s.stored && h in s.failures && s.failures[h].ip == s.calls[call].ip
    ensures h in s.inHand[call] <==> !InTracker(s, h)
  {
    var ip, held := s.calls[call].ip, s.inHand[call];
    HeldFailures(s, call);
    if ip !in s.tracker || ip in s.spent {
      h := Pick(held);
    } else {
      TrackedFailures(s, ip);
      if held - s.behind[ip] != {} {
        h := Pick(held - s.behind[ip]);
      } else {
        h := Pick(s.behind[ip] - held);
      }
    }
  }

  /** Beginning afresh loses nothing exactly when what it replaces is the expired record it saw, or does not count. */
  lemma RestartExactIff(s: Racing, call: int)
    requires RaceInv(s) && Exact(s) && Enabled(s, Store(call)) && !Continues(s.calls[call])
    ensures Exact(StoreRecord(s, call)) <==> Safe(s, Store(call))
  {
    var t := StoreRecord(s, call);
    RestartTimes(s, call);
    HeldFailures(s, call);
    UnstoredIsUncounted(s, call);
    if Safe(s, Store(call)) {
      forall c | c in t.stored
        ensures Times(t, c) == 1
      {
        assert c != call ==> Times(s, c) == 1;
      }
    } else {
      TrackedFailures(s, s.calls[call].ip);
      var h := Pick(s.behind[s.calls[call].ip]);
      assert InTracker(s, h) && !InTracker(t, h) && Times(s, h) == 1;
    }
  }

  /** The new record counts its call alone; the one it saw, if still there, is dropped. */
  lemma RestartTimes(s: Racing, call: int)
    requires RaceInv(s) && Enabled(s, Store(call)) && !Continues(s.calls[call])
    ensures
      var t := StoreRecord(s, call);
      && InTracker(t, call) && t.bans == s.bans
      && (forall c :: DropTimes(t.dropped, c) == DropTimes(s.dropped, c) + if Current(s, call) && c in s.inHand[call] then 1 else 0)
      && (forall c | c in s.failures && c != call :: InTracker(t, c) <==> s.failures[c].ip != s.calls[call].ip && InTracker(s, c))
  {
    var t, ip, held := StoreRecord(s, call), s.calls[call].ip, s.inHand[call];
    HeldFailures(s, call);
    assert t.behind[ip] == {call} && ip !in t.spent;
    forall c
      ensures DropTimes(t.dropped, c) == DropTimes(s.dropped, c) + if Current(s, call) && c in held then 1 else 0
    {
      DropTimesSnoc(s.dropped, held, c);
    }
  }

  /** A deletion loses nothing exactly when the record it finds does not count. */
  lemma DeleteExactIff(s: Racing, call: int)
    requires RaceInv(s) && Exact(s) && Enabled(s, Delete(call))
    ensures Exact(Apply(s, Delete(call))) <==> Safe(s, Delete(call))
  {
    var t, ip := Apply(s, Delete(call)), s.calls[call].ip;
    forall c | c in s.failures
      ensures InTracker(t, c) <==> s.failures[c].ip != ip && InTracker(s, c)
    {
    }
    if Safe(s, Delete(call)) {
      forall c | c in t.stored
        ensures Times(t, c) == 1
      {
        assert Times(s, c) == 1;
      }
    } else {
      TrackedFailures(s, ip);
      var h := Pick(s.behind[ip]);
      assert InTracker(s, h) && Times(s, h) == 1;
    }
  }

  lemma LookingIsExact(s: Racing, e: Event)
    requires RaceInv(s) && Exact(s) && Enabled(s, e) && (e.ReadClock? || e.Load?)
    ensures Exact(Apply(s, e))
  {
    var t := Apply(s, e);
    forall c | c in t.stored
      ensures Times(t, c) == 1
    {
      assert Times(s, c) == 1 && InTracker(t, c) == InTracker(s, c);
    }
  }

  /** One step keeps every failure counted once exactly when it works on the record it saw. */
  lemma StepExactIff(s: Racing, e: Event)
    requires RaceInv(s) && Exact(s) && Enabled(s, e)
    ensures Exact(Apply(s, e)) <==> Safe(s, e)
  {
    match e
    case Store(call) =>
      if NextRecord(s.calls[call]).count >= MAX_FAILURES {
        BanExactIff(s, call);
      } else if Continues(s.calls[call]) {
        CountUpExactIff(s, call);
      } else {
        RestartExactIff(s, call);
      }
    case Delete(call) => DeleteExactIff(s, call);
    case _ => LookingIsExact(s, e);
  }

  // ---------- Runs ----------

  /** Every failure counts once at every moment of the run. */
  ghost predicate AlwaysExact(s: Racing, trace: seq<Event>, s': Racing)
    requires Race(s, trace, s')
    decreases |trace|
  {
    Exact(s) && (trace != [] ==> AlwaysExact(Apply(s, trace[0]), trace[1..], s'))
  }

  ghost predicate AllSafe(s: Racing, trace: seq<Event>, s': Racing)
    requires Race(s, trace, s')
    decreases |trace|
  {
    trace != [] ==> Safe(s, trace[0]) && AllSafe(Apply(s, trace[0]), trace[1..], s')
  }

  lemma {:induction false} RunExactIff(s: Racing, trace: seq<Event>, s': Racing)
    requires RaceInv(s) && Exact(s) && Race(s, trace, s')
    ensures AlwaysExact(s, trace, s') <==> AllSafe(s, trace, s')
    decreases |trace|
  {
    if trace != [] {
      var t := Apply(s, trace[0]);
      StepExactIff(s, trace[0]);
      RaceStepKeepsInv(s, trace[0]);
      if Exact(t) {
        RunExactIff(t, trace[1..], s');
      }
    }
  }

  /**
   Over every run: each stored failure counts exactly once at every moment, in one ban, in the tracker or
   in an expired group, exactly when every store and every deletion works on the record it saw.
   */
  lemma FailuresCountOnceIff(trace: seq<Event>, s: Racing)
    requires Race(Start, trace, s)
    ensures AlwaysExact(Start, trace, s) <==> AllSafe(Start, trace, s)
  {
    RunExactIff(Start, trace, s);
  }

  lemma {:induction false} AlwaysExactEnds(s: Racing, trace: seq<Event>, s': Racing)
    requires Race(s, trace, s') && AlwaysExact(s, trace, s')
    ensures Exact(s')
    decreases |trace|
  {
    if trace != [] {
      AlwaysExactEnds(Apply(s, trace[0]), trace[1..], s');
    }
  }

  lemma {:induction false} BanTimesOf(bans: seq<Ban>, c: int, i: nat)
    requires i < |bans| && c in bans[i].earnedBy
    ensures BanTimes(bans, c) >= 1
    ensures forall j | 0 <= j < |bans| && j != i && c in bans[j].earnedBy :: BanTimes(bans, c) >= 2
    decreases |bans|
  {
    var n := |bans| - 1;
    var front := bans[..n];
    if i < n {
      BanTimesOf(front, c, i);
      assert forall j | 0 <= j < n :: front[j] == bans[j];
    } else {
      forall j | 0 <= j < n && c in bans[j].earnedBy
        ensures BanTimes(bans, c) >= 2
      {
        assert front[j] == bans[j];
        BanTimesOf(front, c, j);
      }
    }
  }

  /** Where every failure counts once, no failure is in two bans. */
  lemma NoFailureInTwoBans(s: Racing, i: nat, j: nat)
    requires RaceInv(s) && Exact(s) && i < j < |s.bans|
    ensures s.bans[i].earnedBy !! s.bans[j].earnedBy
  {
    forall c | c in s.bans[i].earnedBy && c in s.bans[j].earnedBy
      ensures false
    {
      assert c in s.stored && Times(s, c) == 1;
      BanTimesOf(s.bans, c, i);
    }
  }

  // ---------- Bans in safe runs ----------

  /** The tracker is what the stored failures of an address, in their order, leave of it one at a time. */
  predicate AsIfOneByOne(s: Racing, ip: string) {
    Lawful(Of(s.log, ip)) && Fits(s.tracker, s.spent, ip, Of(s.log, ip))
  }

  predicate Fits(tracker: map<string, Attempt>, spent: set<string>, ip: string, p: seq<Mark>) {
    && (ip in tracker && ip !in spent <==> Open(p) > 0)
    && (ip in tracker && ip !in spent ==> tracker[ip] == Attempt(Open(p), p[|p| - Open(p)].at, p[|p| - 1].at))
  }

  /** What a safe store does to the failures of its address. */
  lemma SafeStoreIsRecord(s: Racing, call: int)
    requires RaceInv(s) && Enabled(s, Store(call)) && Safe(s, Store(call)) && AsIfOneByOne(s, s.calls[call].ip)
    ensures
      var c, p := s.calls[call], Of(s.log, s.calls[call].ip);
      && (NextRecord(c).count >= MAX_FAILURES <==> Completes(p, c.at))
      && (Continues(c) ==> Open(p) > 0 && c.at - p[|p| - Open(p)].at <= TRACK_DURATION
                           && c.phase.seen.value.count == Open(p) && c.phase.seen.value.firstFail == p[|p| - Open(p)].at)
      && (!Continues(c) ==> Open(p) == 0 || c.at - p[|p| - Open(p)].at > TRACK_DURATION)
  {
    var c := s.calls[call];
    assert CallBacked(s, call);
    HeldFailures(s, call);
    if Current(s, call) {
      TrackedFailures(s, c.ip);
      assert s.tracker[c.ip] == c.phase.seen.value;
    }
    OpenIsSmall(Of(s.log, c.ip));
  }

  lemma StoreOneByOne(s: Racing, call: int)
    requires RaceInv(s) && Enabled(s, Store(call)) && Safe(s, Store(call)) && AsIfOneByOne(s, s.calls[call].ip)
    ensures AsIfOneByOne(Apply(s, Store(call)), s.calls[call].ip)
  {
    if NextRecord(s.calls[call]).count >= MAX_FAILURES {
      BanOneByOne(s, call);
    } else {
      CountOneByOne(s, call);
    }
  }

  lemma BanOneByOne(s: Racing, call: int)
    requires RaceInv(s) && Enabled(s, Store(call)) && Safe(s, Store(call)) && AsIfOneByOne(s, s.calls[call].ip)
    requires NextRecord(s.calls[call]).count >= MAX_FAILURES
    ensures AsIfOneByOne(StoreBan(s, call), s.calls[call].ip)
  {
    var c, p := s.calls[call], Of(s.log, s.calls[call].ip);
    var m := Mark(c.ip, c.at, true);
    SafeStoreIsRecord(s, call);
    OfAppend(s.log, m, c.ip);
    LawfulAppend(p, m);
    NextOpen(p, m);
    BanIsCurrent(s, call);
  }

  lemma CountOneByOne(s: Racing, call: int)
    requires RaceInv(s) && Enabled(s, Store(call)) && Safe(s, Store(call)) && AsIfOneByOne(s, s.calls[call].ip)
    requires NextRecord(s.calls[call]).count < MAX_FAILURES
    ensures AsIfOneByOne(StoreRecord(s, call), s.calls[call].ip)
  {
    var c, p := s.calls[call], Of(s.log, s.calls[call].ip);
    var m := Mark(c.ip, c.at, false);
    SafeStoreIsRecord(s, call);
    OfAppend(s.log, m, c.ip);
    LawfulAppend(p, m);
    NextOpen(p, m);
    StoredFits(s, call, p);
  }

  lemma StoredFits(s: Racing, call: int, p: seq<Mark>)
    requires Enabled(s, Store(call)) && NextRecord(s.calls[call]).count < MAX_FAILURES
    requires
      var c, q := s.calls[call], p + [Mark(s.calls[call].ip, s.calls[call].at, false)];
      Open(q) > 0 && NextRecord(c) == Attempt(Open(q), q[|q| - Open(q)].at, c.at)
    ensures
      var t, q := StoreRecord(s, call), p + [Mark(s.calls[call].ip, s.calls[call].at, false)];
      Fits(t.tracker, t.spent, s.calls[call].ip, q)
  {
  }

  /** The open group after one more failure. */
  lemma NextOpen(p: seq<Mark>, m: Mark)
    ensures
      var q := p + [m];
      var first := if Open(p) == 0 || m.at - p[|p| - Open(p)].at > TRACK_DURATION then m.at else p[|p| - Open(p)].at;
      && (m.banned ==> Open(q) == 0)
      && (!m.banned ==>
            && Open(q) == (if Open(p) == 0 || m.at - p[|p| - Open(p)].at > TRACK_DURATION then 1 else Open(p) + 1)
            && q[|q| - Open(q)].at == first && q[|q| - 1].at == m.at)
  {
    assert (p + [m])[..|p|] == p;
  }

  /** A safe ban is made of the record in the tracker. */
  lemma BanIsCurrent(s: Racing, call: int)
    requires RaceInv(s) && Enabled(s, Store(call)) && Safe(s, Store(call)) && NextRecord(s.calls[call]).count >= MAX_FAILURES
    ensures Current(s, call) && StoreBan(s, call).spent == s.spent + {s.calls[call].ip}
  {
    assert Continues(s.calls[call]);
  }

  lemma OthersOneByOne(s: Racing, e: Event, ip: string)
    requires RaceInv(s) && Enabled(s, e) && AsIfOneByOne(s, ip)
    requires e.ReadClock? || e.Load? || s.calls[e.call].ip != ip
    ensures AsIfOneByOne(Apply(s, e), ip)
  {
    var t := Apply(s, e);
    OthersKept(s, e, ip);
    assert Of(t.log, ip) == Of(s.log, ip);
  }

  lemma OthersKept(s: Racing, e: Event, ip: string)
    requires Enabled(s, e) && (e.ReadClock? || e.Load? || s.calls[e.call].ip != ip)
    ensures
      var t := Apply(s, e);
      && Of(t.log, ip) == Of(s.log, ip) && (ip in t.spent <==> ip in s.spent)
      && (ip in t.tracker <==> ip in s.tracker) && (ip in s.tracker ==> t.tracker[ip] == s.tracker[ip])
  {
    if e.Store? {
      var c := s.calls[e.call];
      OfAppend(s.log, Mark(c.ip, c.at, NextRecord(c).count >= MAX_FAILURES), ip);
    }
  }

  lemma StepOneByOne(s: Racing, e: Event, ip: string)
    requires RaceInv(s) && Enabled(s, e) && Safe(s, e) && AsIfOneByOne(s, ip)
    ensures AsIfOneByOne(Apply(s, e), ip)
  {
    if (e.Store? || e.Delete?) && s.calls[e.call].ip == ip {
      if e.Store? {
        StoreOneByOne(s, e.call);
      }
    } else {
      OthersOneByOne(s, e, ip);
    }
  }

  lemma {:induction false} SafeRunOneByOne(s: Racing, trace: seq<Event>, s': Racing, ip: string)
    requires RaceInv(s) && AsIfOneByOne(s, ip) && Race(s, trace, s') && AllSafe(s, trace, s')
    ensures AsIfOneByOne(s', ip)
    decreases |trace|
  {
    if trace != [] {
      RaceStepKeepsInv(s, trace[0]);
      StepOneByOne(s, trace[0], ip);
      SafeRunOneByOne(Apply(s, trace[0]), trace[1..], s', ip);
    }
  }

  /** Eight failures from i on lie within the tracking time of each other. */
  predicate SpreadWithin(p: seq<Mark>, i: int) {
    0 <= i && i + 8 <= |p| && forall j, k | i <= j < i + 8 && i <= k < i + 8 :: p[j].at - p[k].at <= TRACK_DURATION
  }

  predicate BanIn(p: seq<Mark>, i: int)
    requires 0 <= i && i + 8 <= |p|
  {
    exists j | i <= j < i + 8 :: p[j].banned
  }

  lemma EightStoredBan(p: seq<Mark>, i: nat)
    requires Lawful(p) && SpreadWithin(p, i)
    ensures BanIn(p, i)
  {
    if !BanIn(p, i) {
      assert forall j | i <= j < i + 8 :: !p[j].banned;
      var f := GroupBegins(p, i);
      FifthBans(p, f);
      assert false;
    }
  }

  /**
   Safe runs promise what requests taken one at a time do, whatever the clock did: no failure is in two
   bans; every ban falls on the fifth of five failures stored one after the other, the last within the
   tracking time of the first; and any eight stored one after the other within the tracking time of each
   other contain a ban.
   */
  lemma SafeRunsBanExactly(trace: seq<Event>, s: Racing, ip: string)
    requires Race(Start, trace, s) && AllSafe(Start, trace, s)
    ensures forall i, j | 0 <= i < j < |s.bans| :: s.bans[i].earnedBy !! s.bans[j].earnedBy
    ensures
      var p := Of(s.log, ip);
      && (forall k | 0 <= k < |p| && p[k].banned :: FifthOfFive(p, k))
      && (forall i | SpreadWithin(p, i) :: BanIn(p, i))
  {
    FailuresCountOnceIff(trace, s);
    AlwaysExactEnds(Start, trace, s);
    RaceKeepsInv(Start, trace, s);
    SafeRunOneByOne(Start, trace, s, ip);
    var p := Of(s.log, ip);
    forall i, j | 0 <= i < j < |s.bans|
      ensures s.bans[i].earnedBy !! s.bans[j].earnedBy
    {
      NoFailureInTwoBans(s, i, j);
    }
    forall k | 0 <= k < |p| && p[k].banned
      ensures FifthOfFive(p, k)
    {
      BanIsEarned(p, k);
    }
    forall i | SpreadWithin(p, i)
      ensures BanIn(p, i)
    {
      EightStoredBan(p, i);
    }
  }

  // ---------- Calls one after the other ----------

  /** What the program has, without the calls in flight. */
  function Settled(s: Racing): State {
    State(s.banList, s.tracker, s.log)
  }

  /** A whole call: to its record, or to its ban and the deletion of the record. */
  function WholeCall(s: Racing, call: int, f: Failure): seq<Event> {
    [ReadClock(call, f.ip, f.at), Load(call), Store(call)] + if Bans(s.tracker, f.ip, f.at) then [Delete(call)] else []
  }

  /** Taken as a whole, a call makes the step of requests taken one at a time, safely. */
  lemma WholeCallIsRecord(s: Racing, call: int, f: Failure) returns (u: Racing)
    requires RaceInv(s) && call !in s.failures && s.spent == {}
    ensures Race(s, WholeCall(s, call, f), u) && AllSafe(s, WholeCall(s, call, f), u)
    ensures Settled(u) == Record(Settled(s), f.ip, f.at) && u.spent == {} && u.failures == s.failures[call := f]
    ensures u.calls == s.calls
  {
    StoredAsRecord(s, call, f);
    u := Apply(Looked(s, call, f), Store(call));
    if Bans(s.tracker, f.ip, f.at) {
      u := Apply(u, Delete(call));
    }
    WholeCallRuns(s, call, f, u);
  }

  lemma WholeCallRuns(s: Racing, call: int, f: Failure, u: Racing)
    requires call !in s.failures && Enabled(Looked(s, call, f), Store(call)) && Safe(Looked(s, call, f), Store(call))
    requires
      var t := Apply(Looked(s, call, f), Store(call));
      if Bans(s.tracker, f.ip, f.at) then Enabled(t, Delete(call)) && Safe(t, Delete(call)) && u == Apply(t, Delete(call)) else u == t
    ensures Race(s, WholeCall(s, call, f), u) && AllSafe(s, WholeCall(s, call, f), u)
  {
    var rest: seq<Event> := if Bans(s.tracker, f.ip, f.at) then [Delete(call)] else [];
    var loaded := Looked(s, call, f);
    if Bans(s.tracker, f.ip, f.at) {
      SafeStep(Apply(loaded, Store(call)), Delete(call), [], u);
    }
    SafeStep(loaded, Store(call), rest, u);
    LookSafely(s, call, f, [Store(call)] + rest, u);
    assert [ReadClock(call, f.ip, f.at), Load(call)] + ([Store(call)] + rest) == WholeCall(s, call, f);
  }

  /** After reading the clock and loading the record. */
  function Looked(s: Racing, call: int, f: Failure): Racing
    requires call !in s.failures
  {
    Apply(Apply(s, ReadClock(call, f.ip, f.at)), Load(call))
  }

  lemma LookedAt(s: Racing, call: int, f: Failure)
    requires RaceInv(s) && call !in s.failures && s.spent == {}
    ensures
      var t := Looked(s, call, f);
      && t.tracker == s.tracker && t.behind == s.behind && t.banList == s.banList && t.log == s.log && t.spent == {}
      && t.failures == s.failures[call := f] && Enabled(t, Store(call))
      && t.calls[call] == Call(f.ip, f.at, Loaded(if f.ip in s.tracker then Some(s.tracker[f.ip]) else None))
      && (Current(t, call) || f.ip !in t.tracker)
  {
  }

  lemma LookSafely(s: Racing, call: int, f: Failure, rest: seq<Event>, u: Racing)
    requires call !in s.failures && Race(Looked(s, call, f), rest, u) && AllSafe(Looked(s, call, f), rest, u)
    ensures
      var trace := [ReadClock(call, f.ip, f.at), Load(call)] + rest;
      Race(s, trace, u) && AllSafe(s, trace, u)
  {
    var read := Apply(s, ReadClock(call, f.ip, f.at));
    SafeStep(read, Load(call), rest, u);
    SafeStep(s, ReadClock(call, f.ip, f.at), [Load(call)] + rest, u);
    assert [ReadClock(call, f.ip, f.at)] + ([Load(call)] + rest) == [ReadClock(call, f.ip, f.at), Load(call)] + rest;
  }

  lemma StoredAsRecord(s: Racing, call: int, f: Failure)
    requires RaceInv(s) && call !in s.failures && s.spent == {}
    ensures
      var loaded := Looked(s, call, f);
      && Enabled(loaded, Store(call)) && Safe(loaded, Store(call))
      && var t := Apply(loaded, Store(call));
         && t.failures == s.failures[call := f]
         && t.calls - {call} == s.calls && (!Bans(s.tracker, f.ip, f.at) ==> call !in t.calls)
         && (!Bans(s.tracker, f.ip, f.at) ==> Settled(t) == Record(Settled(s), f.ip, f.at) && t.spent == {})
         && (Bans(s.tracker, f.ip, f.at) ==>
               && Enabled(t, Delete(call)) && Apply(t, Delete(call)).calls == t.calls - {call} && Safe(t, Delete(call)) && t.spent == {f.ip}
               && Settled(Apply(t, Delete(call))) == Record(Settled(s), f.ip, f.at))
  {
    LookedAt(s, call, f);
    NewCall(s, call, f);
    if Bans(s.tracker, f.ip, f.at) {
      StoredAsBan(Looked(s, call, f), call, f);
    } else {
      StoredAsCount(Looked(s, call, f), call, f);
    }
  }

  lemma NewCall(s: Racing, call: int, f: Failure)
    requires RaceInv(s) && call !in s.failures
    ensures Looked(s, call, f).calls - {call} == s.calls
  {
    assert call in s.calls ==> CallBacked(s, call);
  }

  /** The call has just loaded what the tracker has. */
  predicate JustLooked(s: Racing, call: int, f: Failure) {
    && Enabled(s, Store(call)) && s.spent == {} && (Current(s, call) || f.ip !in s.tracker)
    && s.calls[call] == Call(f.ip, f.at, Loaded(if f.ip in s.tracker then Some(s.tracker[f.ip]) else None))
  }

  lemma StoredAsCount(s: Racing, call: int, f: Failure)
    requires JustLooked(s, call, f) && !Bans(s.tracker, f.ip, f.at)
    ensures
      var t := Apply(s, Store(call));
      Safe(s, Store(call)) && t.failures == s.failures && t.calls == s.calls - {call} && t.spent == {} && Settled(t) == Record(Settled(s), f.ip, f.at)
  {
    assert NextRecord(s.calls[call]).count < MAX_FAILURES;
  }

  lemma StoredAsBan(s: Racing, call: int, f: Failure)
    requires JustLooked(s, call, f) && Bans(s.tracker, f.ip, f.at)
    ensures
      var t := Apply(s, Store(call));
      && Safe(s, Store(call)) && t.failures == s.failures && t.calls - {call} == s.calls - {call} && t.spent == {f.ip}
      && Enabled(t, Delete(call)) && Safe(t, Delete(call))
      && Settled(Apply(t, Delete(call))) == Record(Settled(s), f.ip, f.at)
  {
    assert Continues(s.calls[call]) && NextRecord(s.calls[call]).count >= MAX_FAILURES;
  }

  lemma SafeStep(s: Racing, e: Event, rest: seq<Event>, u: Racing)
    requires Enabled(s, e) && Safe(s, e) && Race(Apply(s, e), rest, u) && AllSafe(Apply(s, e), rest, u)
    ensures Race(s, [e] + rest, u) && AllSafe(s, [e] + rest, u)
  {
    assert ([e] + rest)[1..] == rest;
  }

  function RecordAll(failures: seq<Failure>): State {
    if failures == [] then State(map[], map[], [])
    else
      var last := failures[|failures| - 1];
      Record(RecordAll(failures[..|failures| - 1]), last.ip, last.at)
  }

  lemma {:induction false} SafeJoin(s: Racing, one: seq<Event>, mid: Racing, two: seq<Event>, u: Racing)
    requires Race(s, one, mid) && AllSafe(s, one, mid) && Race(mid, two, u) && AllSafe(mid, two, u)
    ensures Race(s, one + two, u) && AllSafe(s, one + two, u)
    decreases |one|
  {
    if one == [] {
      assert one + two == two;
    } else {
      SafeJoin(Apply(s, one[0]), one[1..], mid, two, u);
      assert one + two == [one[0]] + (one[1..] + two);
      SafeStep(s, one[0], one[1..] + two, u);
    }
  }

  /** Failures recorded by calls that do not overlap are recorded as if each were one step. */
  lemma {:induction false} CallsInTurn(failures: seq<Failure>) returns (trace: seq<Event>, s: Racing)
    ensures Race(Start, trace, s) && AllSafe(Start, trace, s)
    ensures Settled(s) == RecordAll(failures) && s.spent == {} && s.calls == map[]
    ensures forall c | c in s.failures :: 0 <= c < |failures|
    decreases |failures|
  {
    if failures == [] {
      trace, s := [], Start;
    } else {
      var n := |failures| - 1;
      var before, mid := CallsInTurn(failures[..n]);
      RaceKeepsInv(Start, before, mid);
      s := WholeCallIsRecord(mid, n, failures[n]);
      SafeJoin(Start, before, mid, WholeCall(mid, n, failures[n]), s);
      trace := before + WholeCall(mid, n, failures[n]);
    }
  }
}
