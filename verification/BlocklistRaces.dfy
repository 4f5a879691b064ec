/**
 Recording failures when requests race.

 RecordFailedAttempt reads the clock, loads the tracker's record and stores the new one, or stores a ban
 and then deletes the record, with nothing held in between. So concurrent failures may work from the
 same record, and a call may load long after it read the clock. Every ban still counts five failures
 none of which is later than the tracking time allows.
 */
module BlocklistRaces {
  import opened Collections
  import opened Blocklist

  /** A call has read the clock, also loaded the tracker's record, or stored a ban whose record it will delete. */
  datatype Phase = Clocked | Loaded(seen: Option<Attempt>) | Banning

  datatype Call = Call(ip: string, at: int, phase: Phase)

  datatype Failure = Failure(ip: string, at: int)

  /** firstFail is that of the record the ban completes. */
  datatype Ban = Ban(ip: string, at: int, firstFail: int, earnedBy: set<int>)

  /**
   tracker, banList and calls are what the program has. The rest is history: the failure each call
   reports; the calls that each record in the tracker, or in a call's hands, counts; the calls that have
   loaded and stored; the addresses whose record has made a ban and awaits deletion; the groups replaced
   as expired; every ban with the calls it counted; and the failures in the order they were stored.
   */
  datatype Racing = Racing(tracker: map<string, Attempt>, banList: map<string, int>, calls: map<int, Call>,
                           failures: map<int, Failure>, behind: map<string, set<int>>, inHand: map<int, set<int>>,
                           loaded: set<int>, stored: set<int>, spent: set<string>, dropped: seq<set<int>>,
                           bans: seq<Ban>, log: seq<Mark>)

  datatype Event = ReadClock(call: int, ip: string, at: int) | Load(call: int) | Store(call: int) | Delete(call: int)

  const Start := Racing(map[], map[], map[], map[], map[], map[], {}, {}, {}, [], [], [])

  predicate Enabled(s: Racing, e: Event) {
    match e
    case ReadClock(call, _, _) => call !in s.failures
    case Load(call) => call in s.calls && s.calls[call].phase.Clocked?
    case Store(call) => call in s.calls && s.calls[call].phase.Loaded? && call in s.inHand
    case Delete(call) => call in s.calls && s.calls[call].phase.Banning?
  }

  predicate Continues(c: Call) {
    c.phase.Loaded? && c.phase.seen.Some? && c.at - c.phase.seen.value.firstFail <= TRACK_DURATION
  }

  /** The record the call goes on to store: counted up, or begun afresh. */
  function NextRecord(c: Call): Attempt {
    if Continues(c) then Attempt(c.phase.seen.value.count + 1, c.phase.seen.value.firstFail, c.at)
    else Attempt(1, c.at, c.at)
  }

  /** The calls that record counts. */
  function Counting(c: Call, call: int, inHand: set<int>): set<int> {
    if Continues(c) then inHand + {call} else {call}
  }

  /** The tracker still holds the very record the call loaded, and no ban has been made of it. */
  predicate Current(s: Racing, call: int)
    requires call in s.calls && call in s.inHand
  {
    var ip := s.calls[call].ip;
    ip in s.behind && ip !in s.spent && s.behind[ip] == s.inHand[call]
  }

  function Apply(s: Racing, e: Event): Racing
    requires Enabled(s, e)
  {
    match e
    case ReadClock(call, ip, at) =>
      s.(calls := s.calls[call := Call(ip, at, Clocked)], failures := s.failures[call := Failure(ip, at)])
    case Load(call) =>
      var c := s.calls[call];
      s.(calls := s.calls[call := c.(phase := Loaded(if c.ip in s.tracker then Some(s.tracker[c.ip]) else None))],
         inHand := s.inHand[call := if c.ip in s.behind then s.behind[c.ip] else {}],
         loaded := s.loaded + {call})
    case Store(call) => if NextRecord(s.calls[call]).count >= MAX_FAILURES then StoreBan(s, call) else StoreRecord(s, call)
    case Delete(call) =>
      var ip := s.calls[call].ip;
      s.(calls := s.calls - {call}, tracker := s.tracker - {ip}, behind := s.behind - {ip}, spent := s.spent - {ip})
  }

  function StoreBan(s: Racing, call: int): Racing
    requires Enabled(s, Store(call))
  {
    var c := s.calls[call];
    s.(calls := s.calls[call := c.(phase := Banning)], inHand := s.inHand - {call}, stored := s.stored + {call},
       banList := s.banList[c.ip := c.at + BAN_DURATION],
       bans := s.bans + [Ban(c.ip, c.at, NextRecord(c).firstFail, Counting(c, call, s.inHand[call]))],
       spent := if Current(s, call) then s.spent + {c.ip} else s.spent,
       log := s.log + [Mark(c.ip, c.at, true)])
  }

  function StoreRecord(s: Racing, call: int): Racing
    requires Enabled(s, Store(call))
  {
    var c := s.calls[call];
    s.(calls := s.calls - {call}, inHand := s.inHand - {call}, stored := s.stored + {call},
       tracker := s.tracker[c.ip := NextRecord(c)], behind := s.behind[c.ip := Counting(c, call, s.inHand[call])],
       spent := s.spent - {c.ip},
       dropped := if !Continues(c) && Current(s, call) then s.dropped + [s.inHand[call]] else s.dropped,
       log := s.log + [Mark(c.ip, c.at, false)])
  }

  ghost predicate Race(s: Racing, trace: seq<Event>, s': Racing)
    decreases |trace|
  {
    if trace == [] then s' == s else Enabled(s, trace[0]) && Race(Apply(s, trace[0]), trace[1..], s')
  }

  // ---------- What every schedule keeps ----------

  /** So many calls of the address, one of them the first failure, and none later than the tracking time after it. */
  predicate Backed(failures: map<int, Failure>, ip: string, firstFail: int, count: int, calls: set<int>) {
    && |calls| == count
    && (forall c | c in calls :: c in failures && failures[c].ip == ip && failures[c].at - firstFail <= TRACK_DURATION)
    && (exists c :: c in calls && c in failures && failures[c].at == firstFail)
  }

  predicate TrackerBacked(s: Racing) {
    && s.tracker.Keys == s.behind.Keys && s.spent <= s.tracker.Keys
    && forall ip | ip in s.tracker ::
         s.tracker[ip].count < MAX_FAILURES && s.behind[ip] <= s.stored
         && Backed(s.failures, ip, s.tracker[ip].firstFail, s.tracker[ip].count, s.behind[ip])
  }

  predicate CallBacked(s: Racing, call: int)
    requires call in s.calls
  {
    var c := s.calls[call];
    && call in s.failures && s.failures[call] == Failure(c.ip, c.at)
    && match c.phase
       case Clocked => call !in s.loaded
       case Loaded(seen) => call in s.loaded && call !in s.stored && call in s.inHand && HandBacked(s, call, c.ip, seen)
       case Banning => call in s.stored
  }

  /** What a call holds is a record as it was; if the tracker still counts the same calls, the very record it has. */
  predicate HandBacked(s: Racing, call: int, ip: string, seen: Option<Attempt>)
    requires call in s.inHand
  {
    && s.inHand[call] <= s.stored
    && match seen
       case None => s.inHand[call] == {}
       case Some(a) =>
         && a.count < MAX_FAILURES && Backed(s.failures, ip, a.firstFail, a.count, s.inHand[call])
         && (ip in s.tracker && ip in s.behind && s.behind[ip] == s.inHand[call] ==> s.tracker[ip] == a)
  }

  predicate BanBacked(failures: map<int, Failure>, b: Ban) {
    Backed(failures, b.ip, b.firstFail, MAX_FAILURES, b.earnedBy)
    && exists c :: c in b.earnedBy && c in failures && failures[c].at == b.at
  }

  predicate BansBacked(s: Racing) {
    && (forall i | 0 <= i < |s.bans| :: BanBacked(s.failures, s.bans[i]) && s.bans[i].earnedBy <= s.stored)
    && (forall i | 0 <= i < |s.dropped| :: s.dropped[i] <= s.stored)
  }

  predicate RaceInv(s: Racing) {
    && s.stored <= s.loaded <= s.failures.Keys
    && TrackerBacked(s) && BansBacked(s)
    && (forall call | call in s.calls :: CallBacked(s, call))
  }

  lemma BackedGrows(failures: map<int, Failure>, call: int, f: Failure, ip: string, first: int, count: int, calls: set<int>)
    requires Backed(failures, ip, first, count, calls) && call !in failures
    ensures Backed(failures[call := f], ip, first, count, calls)
  {
    var c :| c in calls && c in failures && failures[c].at == first;
    assert failures[call := f][c].at == first;
  }

  lemma ClockKeepsInv(s: Racing, e: Event)
    requires RaceInv(s) && e.ReadClock? && Enabled(s, e)
    ensures RaceInv(Apply(s, e))
  {
    var s' := Apply(s, e);
    var f := Failure(e.ip, e.at);
    forall ip | ip in s.tracker
      ensures Backed(s'.failures, ip, s.tracker[ip].firstFail, s.tracker[ip].count, s.behind[ip])
    {
      BackedGrows(s.failures, e.call, f, ip, s.tracker[ip].firstFail, s.tracker[ip].count, s.behind[ip]);
    }
    forall call | call in s.calls
      ensures CallBacked(s', call)
    {
      var c := s.calls[call];
      assert CallBacked(s, call);
      if c.phase.Loaded? && c.phase.seen.Some? {
        var a := c.phase.seen.value;
        BackedGrows(s.failures, e.call, f, c.ip, a.firstFail, a.count, s.inHand[call]);
      }
    }
    forall i | 0 <= i < |s.bans|
      ensures BanBacked(s'.failures, s.bans[i])
    {
      BanGrows(s.failures, e.call, f, s.bans[i]);
    }
  }

  lemma BanGrows(failures: map<int, Failure>, call: int, f: Failure, b: Ban)
    requires BanBacked(failures, b) && call !in failures
    ensures BanBacked(failures[call := f], b)
  {
    BackedGrows(failures, call, f, b.ip, b.firstFail, MAX_FAILURES, b.earnedBy);
    var c :| c in b.earnedBy && c in failures && failures[c].at == b.at;
    assert failures[call := f][c].at == b.at;
  }

  lemma LoadKeepsInv(s: Racing, e: Event)
    requires RaceInv(s) && e.Load? && Enabled(s, e)
    ensures RaceInv(Apply(s, e))
  {
    var s' := Apply(s, e);
    assert CallBacked(s, e.call);
    forall call | call in s'.calls
      ensures CallBacked(s', call)
    {
      assert CallBacked(s, call);
    }
  }

  /** The record a call stores is backed by the calls it counts. */
  lemma CountedIsBacked(s: Racing, call: int)
    requires RaceInv(s) && Enabled(s, Store(call))
    ensures
      var c, counting := s.calls[call], Counting(s.calls[call], call, s.inHand[call]);
      && Backed(s.failures, c.ip, NextRecord(c).firstFail, NextRecord(c).count, counting)
      && NextRecord(c).count <= MAX_FAILURES && call in counting && counting <= s.stored + {call}
      && call !in s.stored && call in s.loaded && call in s.failures && s.failures[call] == Failure(c.ip, c.at)
  {
    var c := s.calls[call];
    assert CallBacked(s, call);
    if Continues(c) {
      var first := c.phase.seen.value.firstFail;
      var f :| f in s.inHand[call] && f in s.failures && s.failures[f].at == first;
      assert f in Counting(c, call, s.inHand[call]);
    }
  }

  lemma StoreRecordKeepsInv(s: Racing, call: int)
    requires RaceInv(s) && Enabled(s, Store(call)) && NextRecord(s.calls[call]).count < MAX_FAILURES
    ensures RaceInv(StoreRecord(s, call))
  {
    var s' := StoreRecord(s, call);
    CountedIsBacked(s, call);
    forall other | other in s'.calls
      ensures CallBacked(s', other)
    {
      OtherCallKept(s, call, other);
    }
  }

  /** No other call holds the record just stored: it counts a call that had not stored before. */
  lemma OtherCallKept(s: Racing, call: int, other: int)
    requires RaceInv(s) && Enabled(s, Store(call)) && NextRecord(s.calls[call]).count < MAX_FAILURES
    requires other in s.calls && other != call
    ensures CallBacked(StoreRecord(s, call), other)
  {
    assert CallBacked(s, other);
    CountedIsBacked(s, call);
    if s.calls[other].phase.Loaded? {
      assert call in StoreRecord(s, call).behind[s.calls[call].ip] && call !in s.inHand[other];
    }
  }

  lemma StoreBanKeepsInv(s: Racing, call: int)
    requires RaceInv(s) && Enabled(s, Store(call)) && NextRecord(s.calls[call]).count >= MAX_FAILURES
    ensures RaceInv(StoreBan(s, call))
  {
    var s' := StoreBan(s, call);
    CountedIsBacked(s, call);
    forall other | other in s'.calls
      ensures CallBacked(s', other)
    {
      assert CallBacked(s, other);
    }
    BanOfRecord(s, call);
  }

  lemma BanOfRecord(s: Racing, call: int)
    requires RaceInv(s) && Enabled(s, Store(call)) && NextRecord(s.calls[call]).count >= MAX_FAILURES
    ensures
      var c := s.calls[call];
      BanBacked(s.failures, Ban(c.ip, c.at, NextRecord(c).firstFail, Counting(c, call, s.inHand[call])))
  {
    CountedIsBacked(s, call);
    assert s.failures[call].at == s.calls[call].at;
  }

  lemma DeleteKeepsInv(s: Racing, e: Event)
    requires RaceInv(s) && e.Delete? && Enabled(s, e)
    ensures RaceInv(Apply(s, e))
  {
    var s' := Apply(s, e);
    forall other | other in s'.calls
      ensures CallBacked(s', other)
    {
      assert CallBacked(s, other);
    }
  }

  lemma RaceStepKeepsInv(s: Racing, e: Event)
    requires RaceInv(s) && Enabled(s, e)
    ensures RaceInv(Apply(s, e))
  {
    match e
    case ReadClock(_, _, _) => ClockKeepsInv(s, e);
    case Load(_) => LoadKeepsInv(s, e);
    case Store(call) =>
      if NextRecord(s.calls[call]).count >= MAX_FAILURES {
        StoreBanKeepsInv(s, call);
      } else {
        StoreRecordKeepsInv(s, call);
      }
    case Delete(_) => DeleteKeepsInv(s, e);
  }

  lemma {:induction false} RaceKeepsInv(s: Racing, trace: seq<Event>, s': Racing)
    requires RaceInv(s) && Race(s, trace, s')
    ensures RaceInv(s')
    decreases |trace|
  {
    if trace != [] {
      RaceStepKeepsInv(s, trace[0]);
      RaceKeepsInv(Apply(s, trace[0]), trace[1..], s');
    }
  }

  /**
   Whatever the schedule, with no assumption on the clock: every ban counts five distinct failed requests
   of its address, the one that began the count among them, each read at most the tracking time after it.
   */
  lemma BansCountFive(trace: seq<Event>, s: Racing)
    requires Race(Start, trace, s)
    ensures forall i | 0 <= i < |s.bans| :: BanBacked(s.failures, s.bans[i])
  {
    RaceKeepsInv(Start, trace, s);
  }

  // ---------- When a ban is earned ----------

  /** Five failures of the address, no two of them further apart than the tracking time. */
  predicate Earned(failures: map<int, Failure>, b: Ban) {
    && |b.earnedBy| == MAX_FAILURES
    && (forall c | c in b.earnedBy :: c in failures && failures[c].ip == b.ip)
    && (forall c, d | c in b.earnedBy && d in b.earnedBy && c in failures && d in failures ::
          failures[c].at - failures[d].at <= TRACK_DURATION)
  }

  /** A counted call that read its clock before the call that began the count did. */
  predicate Overtaken(failures: map<int, Failure>, b: Ban, c: int) {
    c in b.earnedBy && c in failures && failures[c].at < b.firstFail
  }

  /**
   Exactly when a ban is earned: every counted call that was overtaken by the one that began the count
   read its clock at most the tracking time before each other counted call did. Calls that were not
   overtaken never spoil a ban.
   */
  lemma BanIsEarnedIff(trace: seq<Event>, s: Racing, i: nat)
    requires Race(Start, trace, s) && i < |s.bans|
    ensures
      var b := s.bans[i];
      Earned(s.failures, b) <==>
      forall c, d | Overtaken(s.failures, b, c) && d in b.earnedBy && d in s.failures ::
        s.failures[d].at - s.failures[c].at <= TRACK_DURATION
  {
    BansCountFive(trace, s);
    assert BanBacked(s.failures, s.bans[i]);
  }

  /** The next load is by a call whose clock reading is not before that of any call that has loaded. */
  predicate InClockOrder(s: Racing, e: Event) {
    e.Load? && e.call in s.failures ==>
      forall c | c in s.loaded && c in s.failures :: s.failures[c].at <= s.failures[e.call].at
  }

  /** A run in which calls load in the order in which they read the clock. */
  ghost predicate OrderedRun(s: Racing, trace: seq<Event>, s': Racing)
    decreases |trace|
  {
    if trace == [] then s' == s
    else Enabled(s, trace[0]) && InClockOrder(s, trace[0]) && OrderedRun(Apply(s, trace[0]), trace[1..], s')
  }

  /** The count of a record began with its earliest call. */
  predicate BeganFirst(failures: map<int, Failure>, firstFail: int, calls: set<int>) {
    forall c | c in calls && c in failures :: firstFail <= failures[c].at
  }

  predicate OrderInv(s: Racing) {
    && (forall ip | ip in s.tracker && ip in s.behind :: BeganFirst(s.failures, s.tracker[ip].firstFail, s.behind[ip]))
    && (forall call | call in s.calls && call in s.inHand && s.calls[call].phase.Loaded? && s.calls[call].phase.seen.Some? ::
          BeganFirst(s.failures, s.calls[call].phase.seen.value.firstFail, s.inHand[call])
          && s.calls[call].phase.seen.value.firstFail <= s.calls[call].at)
    && (forall i | 0 <= i < |s.bans| :: BeganFirst(s.failures, s.bans[i].firstFail, s.bans[i].earnedBy))
  }

  lemma OrderedClock(s: Racing, e: Event)
    requires RaceInv(s) && OrderInv(s) && Enabled(s, e) && e.ReadClock?
    ensures OrderInv(Apply(s, e))
  {
    forall call | call in s.calls
      ensures CallBacked(s, call)
    {
    }
  }

  lemma OrderedLoad(s: Racing, e: Event)
    requires RaceInv(s) && OrderInv(s) && Enabled(s, e) && e.Load? && InClockOrder(s, e)
    ensures OrderInv(Apply(s, e))
  {
    assert CallBacked(s, e.call);
    var c := s.calls[e.call];
    if c.ip in s.tracker {
      var f :| f in s.behind[c.ip] && f in s.failures && s.failures[f].at == s.tracker[c.ip].firstFail;
      assert f in s.loaded;
    }
  }

  lemma OrderedStore(s: Racing, e: Event)
    requires RaceInv(s) && OrderInv(s) && Enabled(s, e) && (e.Store? || e.Delete?)
    ensures OrderInv(Apply(s, e))
  {
    var c := s.calls[e.call];
    assert CallBacked(s, e.call);
    if e.Store? {
      assert BeganFirst(s.failures, NextRecord(c).firstFail, Counting(c, e.call, s.inHand[e.call]));
    }
  }

  lemma {:induction false} OrderedRunKeeps(s: Racing, trace: seq<Event>, s': Racing)
    requires RaceInv(s) && OrderInv(s) && OrderedRun(s, trace, s')
    ensures OrderInv(s') && Race(s, trace, s')
    decreases |trace|
  {
    if trace != [] {
      var e := trace[0];
      RaceStepKeepsInv(s, e);
      match e {
        case ReadClock(_, _, _) => OrderedClock(s, e);
        case Load(call) => OrderedLoad(s, e);
        case _ => OrderedStore(s, e);
      }
      OrderedRunKeeps(Apply(s, e), trace[1..], s');
    }
  }

  /** So when calls load in the order of their clock readings, however their stores race, every ban is earned. */
  lemma OrderedLoadsEarnBans(trace: seq<Event>, s: Racing)
    requires OrderedRun(Start, trace, s)
    ensures forall i | 0 <= i < |s.bans| :: Earned(s.failures, s.bans[i])
  {
    OrderedRunKeeps(Start, trace, s);
    BansCountFive(trace, s);
    forall i | 0 <= i < |s.bans|
      ensures Earned(s.failures, s.bans[i])
    {
      BanIsEarnedIff(trace, s, i);
      assert BanBacked(s.failures, s.bans[i]);
      assert BeganFirst(s.failures, s.bans[i].firstFail, s.bans[i].earnedBy);
    }
  }

  // ---------- Runs ----------

  lemma RunStep(s: Racing, e: Event, rest: seq<Event>, s': Racing)
    requires Enabled(s, e) && Race(Apply(s, e), rest, s')
    ensures Race(s, [e] + rest, s')
  {
    assert ([e] + rest)[1..] == rest;
  }

  lemma {:induction false} RunJoin(s: Racing, one: seq<Event>, mid: Racing, two: seq<Event>, s': Racing)
    requires Race(s, one, mid) && Race(mid, two, s')
    ensures Race(s, one + two, s')
    decreases |one|
  {
    if one == [] {
      assert one + two == two;
    } else {
      RunJoin(Apply(s, one[0]), one[1..], mid, two, s');
      assert (one + two)[1..] == one[1..] + two;
    }
  }
}
