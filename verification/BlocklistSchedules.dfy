/**
 Schedules of racing calls that go wrong: failures lost from the count, failures counted in two bans,
 and a ban that counts a failure of long before.
 */
module BlocklistSchedules {
  import opened Collections
  import opened Blocklist
  import opened BlocklistRaces
  import opened BlocklistCounts

  // ---------- Counting up to a ban ----------

  const HOUR: int := 3_600_000_000_000

  function FailuresOf(calls: set<int>): map<int, Failure> {
    map c | c in calls :: Failure("a", if c == 0 then 0 else HOUR)
  }

  /** Call 0 has read the clock at 0 and stalls; the calls counted have failed since, at an hour. */
  predicate AtHour(s: Racing, counted: set<int>) {
    && s.calls == map[0 := Call("a", 0, Clocked)] && s.failures == FailuresOf(counted + {0})
    && s.inHand == map[] && s.loaded == counted && s.stored == counted && s.spent == {} && s.bans == []
    && s.tracker == (if counted == {} then map[] else map["a" := Attempt(|counted|, HOUR, HOUR)])
    && s.behind == (if counted == {} then map[] else map["a" := counted])
  }

  /** What a call loads that finds them counted. */
  function Seen(counted: set<int>): Option<Attempt> {
    if counted == {} then None else Some(Attempt(|counted|, HOUR, HOUR))
  }

  function Look(call: int): seq<Event> {
    [ReadClock(call, "a", HOUR), Load(call)]
  }

  function AfterLook(s: Racing, call: int): Racing
    requires call !in s.failures
  {
    Apply(Apply(s, ReadClock(call, "a", HOUR)), Load(call))
  }

  lemma LookRuns(s: Racing, call: int)
    requires call !in s.failures
    ensures Race(s, Look(call), AfterLook(s, call))
  {
    var read := Apply(s, ReadClock(call, "a", HOUR));
    RunStep(read, Load(call), [], AfterLook(s, call));
    RunStep(s, ReadClock(call, "a", HOUR), [Load(call)] + [], AfterLook(s, call));
    assert [ReadClock(call, "a", HOUR)] + ([Load(call)] + []) == Look(call);
  }

  lemma StoreRuns(s: Racing, trace: seq<Event>, mid: Racing, e: Event)
    requires Race(s, trace, mid) && Enabled(mid, e)
    ensures Race(s, trace + [e], Apply(mid, e))
  {
    RunStep(mid, e, [], Apply(mid, e));
    RunJoin(s, trace, mid, [e] + [], Apply(mid, e));
    assert [e] + [] == [e];
  }

  lemma FailuresGrow(calls: set<int>, call: int)
    requires call != 0
    ensures FailuresOf(calls + {call}) == FailuresOf(calls)[call := Failure("a", HOUR)]
  {
  }

  lemma LookSees(s: Racing, counted: set<int>, call: int)
    requires AtHour(s, counted) && call !in counted && call != 0
    ensures
      var t := AfterLook(s, call);
      && t.calls == s.calls[call := Call("a", HOUR, Loaded(Seen(counted)))]
      && t.failures == FailuresOf(counted + {call} + {0}) && t.inHand == map[call := counted] && t.loaded == counted + {call}
      && t.stored == counted && t.spent == {} && t.bans == [] && t.tracker == s.tracker && t.behind == s.behind
  {
    FailuresGrow(counted + {0}, call);
    assert counted + {0} + {call} == counted + {call} + {0};
  }

  /** The call that has loaded stores the next record. */
  lemma StoreCounts(t: Racing, counted: set<int>, call: int)
    requires t.calls == map[0 := Call("a", 0, Clocked)][call := Call("a", HOUR, Loaded(Seen(counted)))]
    requires t.inHand == map[call := counted] && t.spent == {} && t.tracker.Keys <= {"a"} && t.behind.Keys <= {"a"}
    requires call !in counted && call != 0 && |counted| < 4
    ensures Enabled(t, Store(call))
    ensures
      var u := Apply(t, Store(call));
      && u.calls == map[0 := Call("a", 0, Clocked)] && u.inHand == map[] && u.spent == {} && u.stored == t.stored + {call}
      && u.tracker == map["a" := Attempt(|counted| + 1, HOUR, HOUR)] && u.behind == map["a" := counted + {call}]
      && u.failures == t.failures && u.loaded == t.loaded && u.bans == t.bans
  {
    var c := t.calls[call];
    assert c == Call("a", HOUR, Loaded(Seen(counted)));
    assert Counting(c, call, counted) == counted + {call};
    assert NextRecord(c) == Attempt(|counted| + 1, HOUR, HOUR);
  }

  lemma CountedAtHour(s: Racing, counted: set<int>, call: int)
    requires AtHour(s, counted) && call !in counted && call != 0 && 0 !in counted && |counted| < 4
    ensures Enabled(AfterLook(s, call), Store(call)) && AtHour(Apply(AfterLook(s, call), Store(call)), counted + {call})
  {
    LookSees(s, counted, call);
    StoreCounts(AfterLook(s, call), counted, call);
  }

  lemma CountOne(s: Racing, counted: set<int>, call: int) returns (u: Racing)
    requires AtHour(s, counted) && call !in counted && call != 0 && 0 !in counted && |counted| < 4
    ensures Race(s, Look(call) + [Store(call)], u) && AtHour(u, counted + {call})
  {
    CountedAtHour(s, counted, call);
    u := Apply(AfterLook(s, call), Store(call));
    LookThenStore(s, call);
  }

  lemma LookThenStore(s: Racing, call: int)
    requires call !in s.failures && Enabled(AfterLook(s, call), Store(call))
    ensures Race(s, Look(call) + [Store(call)], Apply(AfterLook(s, call), Store(call)))
  {
    LookRuns(s, call);
    StoreRuns(s, Look(call), AfterLook(s, call), Store(call));
  }

  function UpTo(n: nat): (calls: set<int>)
    ensures |calls| == n && forall c | c in calls :: 1 <= c <= n
  {
    if n == 0 then {} else UpTo(n - 1) + {n}
  }

  lemma {:induction false} CountUp(n: nat) returns (trace: seq<Event>, s: Racing)
    requires n <= 4
    ensures Race(Start, trace, s) && AtHour(s, UpTo(n))
  {
    if n == 0 {
      trace, s := [ReadClock(0, "a", 0)], Apply(Start, ReadClock(0, "a", 0));
      RunStep(Start, ReadClock(0, "a", 0), [], s);
      assert FailuresOf({} + {0}) == map[0 := Failure("a", 0)];
    } else {
      var before, mid := CountUp(n - 1);
      s := CountOne(mid, UpTo(n - 1), n);
      trace := before + (Look(n) + [Store(n)]);
      RunJoin(Start, before, mid, Look(n) + [Store(n)], s);
    }
  }

  // ---------- A stalled call ----------

  /** The stalled call loads after three others: its reading lies before the first failure, so it counts; the fifth call bans. */
  lemma StalledCounts(s: Racing, three: set<int>) returns (u: Racing)
    requires AtHour(s, three) && |three| == 3 && 0 !in three && 4 !in three
    ensures Race(s, [Load(0)] + [Store(0)] + (Look(4) + [Store(4)]), u)
    ensures u.bans == [Ban("a", HOUR, HOUR, three + {0} + {4})] && u.failures == FailuresOf(three + {0})[4 := Failure("a", HOUR)]
  {
    var loaded := Apply(s, Load(0));
    var counted := Apply(loaded, Store(0));
    StoreRuns(s, [], s, Load(0));
    assert [] + [Load(0)] == [Load(0)];
    StoreRuns(s, [Load(0)], loaded, Store(0));
    assert counted.tracker == map["a" := Attempt(4, HOUR, 0)] && counted.behind == map["a" := three + {0}];
    var t := AfterLook(counted, 4);
    LookRuns(counted, 4);
    u := Apply(t, Store(4));
    StoreRuns(counted, Look(4), t, Store(4));
    RunJoin(s, [Load(0)] + [Store(0)], counted, Look(4) + [Store(4)], u);
  }

  /**
   Found in the code: a call that reads the clock, stalls for an hour and then loads is counted with four
   failures of that later moment. The ban counts five failures, one of them an hour before the others.
   */
  lemma StalledCallSpoilsABan() returns (trace: seq<Event>, s: Racing)
    ensures Race(Start, trace, s) && |s.bans| == 1 && 0 in s.failures
    ensures 0 in s.bans[0].earnedBy && s.failures[0].at == 0 && s.bans[0].at == HOUR
    ensures Overtaken(s.failures, s.bans[0], 0) && !Earned(s.failures, s.bans[0])
  {
    var before, three := CountUp(3);
    s := StalledCounts(three, UpTo(3));
    trace := before + ([Load(0)] + [Store(0)] + (Look(4) + [Store(4)]));
    RunJoin(Start, before, three, [Load(0)] + [Store(0)] + (Look(4) + [Store(4)]), s);
    assert 4 in s.bans[0].earnedBy && s.failures[4].at - s.failures[0].at > TRACK_DURATION;
  }

  // ---------- Two bans from the same failures ----------

  /** The tracker has the record of the four failures. */
  predicate FourCounted(s: Racing, four: set<int>) {
    && "a" in s.tracker && s.tracker["a"] == Attempt(4, HOUR, HOUR)
    && "a" in s.behind && s.behind["a"] == four
  }

  /** The call has it in hand. */
  predicate HoldsFour(s: Racing, call: int, four: set<int>) {
    && call in s.calls && s.calls[call] == Call("a", HOUR, Loaded(Some(Attempt(4, HOUR, HOUR))))
    && call in s.inHand && s.inHand[call] == four
  }

  lemma LookHolds(s: Racing, call: int, four: set<int>)
    requires FourCounted(s, four) && call !in s.failures
    ensures
      var t := AfterLook(s, call);
      && FourCounted(t, four) && HoldsFour(t, call, four) && t.bans == s.bans
      && t.failures == s.failures[call := Failure("a", HOUR)]
      && forall other | other != call && HoldsFour(s, other, four) :: HoldsFour(t, other, four)
  {
  }

  lemma HoldingBans(s: Racing, call: int, four: set<int>)
    requires FourCounted(s, four) && HoldsFour(s, call, four)
    ensures Enabled(s, Store(call))
    ensures
      var u := Apply(s, Store(call));
      && FourCounted(u, four) && u.failures == s.failures && u.bans == s.bans + [Ban("a", HOUR, HOUR, four + {call})]
      && forall other | other != call && HoldsFour(s, other, four) :: HoldsFour(u, other, four)
  {
    assert NextRecord(s.calls[call]) == Attempt(5, HOUR, HOUR);
  }

  lemma FourAtHour(s: Racing, four: set<int>)
    requires AtHour(s, four) && |four| == 4
    ensures FourCounted(s, four) && s.bans == [] && forall c | c in s.failures :: c in four + {0}
  {
  }

  /** Two calls load the record of four failures, and then both store. */
  lemma BothLoadThenStore(s: Racing, four: set<int>) returns (u: Racing)
    requires FourCounted(s, four) && s.bans == [] && 5 !in s.failures && 6 !in s.failures
    ensures Race(s, Look(5) + Look(6) + [Store(5)] + [Store(6)], u)
    ensures u.bans == [Ban("a", HOUR, HOUR, four + {5}), Ban("a", HOUR, HOUR, four + {6})]
  {
    LookHolds(s, 5, four);
    var one := AfterLook(s, 5);
    LookHolds(one, 6, four);
    var two := AfterLook(one, 6);
    HoldingBans(two, 5, four);
    var three := Apply(two, Store(5));
    HoldingBans(three, 6, four);
    u := Apply(three, Store(6));
    LookRuns(s, 5);
    LookRuns(one, 6);
    RunJoin(s, Look(5), one, Look(6), two);
    StoreRuns(s, Look(5) + Look(6), two, Store(5));
    StoreRuns(s, Look(5) + Look(6) + [Store(5)], three, Store(6));
  }

  /** A call loads between another one's ban and the deletion of the record. */
  lemma LoadBeforeDeletion(s: Racing, four: set<int>) returns (u: Racing)
    requires FourCounted(s, four) && s.bans == [] && 5 !in s.failures && 6 !in s.failures
    ensures Race(s, Look(5) + [Store(5)] + (Look(6) + [Store(6)]), u)
    ensures u.bans == [Ban("a", HOUR, HOUR, four + {5}), Ban("a", HOUR, HOUR, four + {6})]
  {
    LookHolds(s, 5, four);
    HoldingBans(AfterLook(s, 5), 5, four);
    var one := Apply(AfterLook(s, 5), Store(5));
    LookHolds(one, 6, four);
    HoldingBans(AfterLook(one, 6), 6, four);
    u := Apply(AfterLook(one, 6), Store(6));
    LookThenStore(s, 5);
    LookThenStore(one, 6);
    RunJoin(s, Look(5) + [Store(5)], one, Look(6) + [Store(6)], u);
  }

  lemma TwoBans(s: Racing, four: set<int>, lateLoad: bool) returns (trace: seq<Event>, u: Racing)
    requires FourCounted(s, four) && s.bans == [] && 5 !in s.failures && 6 !in s.failures
    ensures Race(s, trace, u)
    ensures u.bans == [Ban("a", HOUR, HOUR, four + {5}), Ban("a", HOUR, HOUR, four + {6})]
  {
    if lateLoad {
      u := LoadBeforeDeletion(s, four);
      trace := Look(5) + [Store(5)] + (Look(6) + [Store(6)]);
    } else {
      u := BothLoadThenStore(s, four);
      trace := Look(5) + Look(6) + [Store(5)] + [Store(6)];
    }
  }

  /**
   Found in the code: the same four failures may count in two bans, when two calls load before either
   stores, or when the second loads between the first one's ban and its deletion of the record.
   */
  lemma FourFailuresInTwoBans(lateLoad: bool) returns (trace: seq<Event>, s: Racing)
    ensures Race(Start, trace, s) && |s.bans| == 2
    ensures s.bans[0].earnedBy == {1, 2, 3, 4, 5} && s.bans[1].earnedBy == {1, 2, 3, 4, 6}
    ensures !AllSafe(Start, trace, s)
  {
    var before, mid := CountUp(4);
    FourAtHour(mid, UpTo(4));
    var rest;
    rest, s := TwoBans(mid, UpTo(4), lateLoad);
    trace := before + rest;
    RunJoin(Start, before, mid, rest, s);
    FirstFour();
    assert 1 in s.bans[0].earnedBy && 1 in s.bans[1].earnedBy;
    SharedFailureIsUnsafe(trace, s, 1);
  }

  lemma FirstFour()
    ensures UpTo(4) == {1, 2, 3, 4}
  {
    assert UpTo(1) == {1} && UpTo(2) == {1, 2} && UpTo(3) == {1, 2, 3};
  }

  lemma SharedFailureIsUnsafe(trace: seq<Event>, s: Racing, c: int)
    requires Race(Start, trace, s) && |s.bans| == 2 && c in s.bans[0].earnedBy && c in s.bans[1].earnedBy
    ensures !AllSafe(Start, trace, s)
  {
    if AllSafe(Start, trace, s) {
      SafeRunsBanExactly(trace, s, "");
    }
  }

  // ---------- Lost failures ----------

  /** n calls read the clock at one moment and load. */
  function Loads(n: nat, at: int): seq<Event> {
    if n == 0 then [] else Loads(n - 1, at) + [ReadClock(n - 1, "a", at), Load(n - 1)]
  }

  function Stores(n: nat): seq<Event> {
    if n == 0 then [] else Stores(n - 1) + [Store(n - 1)]
  }

  /** n calls hold the empty record of one address. */
  predicate AllSawNothing(s: Racing, n: nat, at: int) {
    forall i | 0 <= i < n :: i in s.calls && i in s.inHand && s.calls[i] == Call("a", at, Loaded(None))
  }

  lemma {:induction false} AfterLoads(n: nat, at: int) returns (s: Racing)
    ensures Race(Start, Loads(n, at), s) && AllSawNothing(s, n, at)
    ensures s.tracker == map[] && s.bans == [] && forall i | i in s.failures :: 0 <= i < n
  {
    if n == 0 {
      s := Start;
    } else {
      var front := AfterLoads(n - 1, at);
      var read := Apply(front, ReadClock(n - 1, "a", at));
      s := Apply(read, Load(n - 1));
      RunStep(read, Load(n - 1), [], s);
      RunStep(front, ReadClock(n - 1, "a", at), [Load(n - 1)] + [], s);
      assert [ReadClock(n - 1, "a", at)] + ([Load(n - 1)] + []) == [ReadClock(n - 1, "a", at), Load(n - 1)];
      RunJoin(Start, Loads(n - 1, at), front, [ReadClock(n - 1, "a", at), Load(n - 1)], s);
    }
  }

  lemma {:induction false} AfterStores(loaded: Racing, total: nat, n: nat, at: int) returns (s: Racing)
    requires AllSawNothing(loaded, total, at) && loaded.tracker == map[] && loaded.bans == [] && 1 <= n <= total
    ensures Race(loaded, Stores(n), s) && s.tracker == map["a" := Attempt(1, at, at)] && s.bans == []
    ensures forall i | n <= i < total :: i in s.calls && i in s.inHand && s.calls[i] == loaded.calls[i]
  {
    var front := loaded;
    if n > 1 {
      front := AfterStores(loaded, total, n - 1, at);
    } else {
      assert Stores(0) == [];
    }
    s := Apply(front, Store(n - 1));
    StoreRuns(loaded, Stores(n - 1), front, Store(n - 1));
  }

  /** Found in the code: any number of failures at one instant, if they race, may count as one, and ban nobody. */
  lemma RacingFailuresCountAsOne(n: nat, at: int) returns (s: Racing)
    requires n >= 1
    ensures Race(Start, Loads(n, at) + Stores(n), s)
    ensures s.bans == [] && s.tracker == map["a" := Attempt(1, at, at)]
  {
    var mid := AfterLoads(n, at);
    s := AfterStores(mid, n, n, at);
    RunJoin(Start, Loads(n, at), mid, Stores(n), s);
  }
}
