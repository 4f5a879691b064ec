/**
 The content-addressed store: SaveCAS as a protocol over a shared disk.

 Any number of calls run at once. Each writes its stream to a temporary file while hashing it,
 asks whether objects/<checksum> is there, and then either discards the temporary file or renames
 it into place. Every file-system answer (copy errors, failed renames, failed removals, a stat that
 fails for another reason than absence) and a crash are events of the machine, so a theorem over
 all runs is a theorem over all interleavings and all faults.
 */
module CasStore {

  import opened Content

  // ---------- State ----------

  /** temps: objects/temp/temp_<stamp>; objects: objects/<checksum>. */
  datatype Disk = Disk(temps: map<int, Bytes>, objects: map<string, Bytes>)

  /** What stat answers. StatError is any failure other than "does not exist". */
  datatype Stat = Found | NotFound | StatError

  /** fileutil.Exists: only a definite "does not exist" counts as absent. */
  predicate Exists(answer: Stat) {
    answer != NotFound
  }

  datatype SaveResult = Stored(checksum: string, size: nat) | Failed

  datatype Phase =
    | Copying(copied: nat)   // the temporary file is open
    | Hashed                 // copied and closed, checksum known
    | Renaming               // the destination was reported absent
    | RenameFailed           // the rename returned an error
    | Discarding(ok: bool)   // about to remove the temporary file and return
    | Returned(result: SaveResult)

  datatype Call = Call(stamp: int, stream: Bytes, phase: Phase)

  /** A receipt handed to a caller: SaveCAS returned success for this stream. */
  datatype Receipt = Receipt(checksum: string, size: nat, stream: Bytes)

  /**
   streams and receipts are history: every stream ever offered, every success ever returned.
   They survive crashes because callers remember them.
   */
  datatype Store = Store(
    disk: Disk,
    calls: map<nat, Call>,
    streams: set<Bytes>,
    receipts: set<Receipt>)

  const EmptyStore := Store(Disk(map[], map[]), map[], {}, {})

  // ---------- Events ----------

  datatype Event =
    | Begin(id: nat, stamp: int, stream: Bytes)
    | CopyChunk(id: nat, n: nat)
    | CopyError(id: nat)
    | CopyEnd(id: nat)
    | Probe(id: nat, answer: Stat)
    | Rename(id: nat, ok: bool)
    | Reprobe(id: nat, answer: Stat)
    | Discard(id: nat, removed: bool)
    | Crash

  predicate Live(c: Call) {
    !c.phase.Returned?
  }

  /** The answer agrees with the disk, or stat failed. */
  predicate Truthful(answer: Stat, present: bool) {
    match answer
    case Found => present
    case NotFound => !present
    case StatError => true
  }

  ghost predicate Enabled(hash: Hasher, s: Store, e: Event) {
    match e
    case Begin(id, stamp, _) =>
      // Concurrent calls read distinct UnixNano stamps; a stale temporary file may carry the same one.
      id !in s.calls && forall j | j in s.calls && Live(s.calls[j]) :: s.calls[j].stamp != stamp
    case CopyChunk(id, n) =>
      id in s.calls && s.calls[id].phase.Copying? && s.calls[id].phase.copied + n <= |s.calls[id].stream|
    case CopyError(id) => id in s.calls && s.calls[id].phase.Copying?
    case CopyEnd(id) =>
      id in s.calls && s.calls[id].phase.Copying? && s.calls[id].phase.copied == |s.calls[id].stream|
    case Probe(id, answer) =>
      id in s.calls && s.calls[id].phase.Hashed?
      && Truthful(answer, hash(s.calls[id].stream) in s.disk.objects)
    case Rename(id, ok) =>
      id in s.calls && s.calls[id].phase.Renaming? && (ok ==> s.calls[id].stamp in s.disk.temps)
    case Reprobe(id, answer) =>
      id in s.calls && s.calls[id].phase.RenameFailed?
      && Truthful(answer, hash(s.calls[id].stream) in s.disk.objects)
    case Discard(id, _) => id in s.calls && s.calls[id].phase.Discarding?
    case Crash => true
  }

  function SetPhase(s: Store, id: nat, p: Phase): Store
    requires id in s.calls
  {
    s.(calls := s.calls[id := s.calls[id].(phase := p)])
  }

  function Return(hash: Hasher, s: Store, id: nat, ok: bool): Store
    requires id in s.calls
  {
    var stream := s.calls[id].stream;
    if ok then
      SetPhase(s, id, Returned(Stored(hash(stream), |stream|)))
        .(receipts := s.receipts + {Receipt(hash(stream), |stream|, stream)})
    else
      SetPhase(s, id, Returned(Failed))
  }

  /** One atomic file-system action of one call, or a crash. */
  ghost function Apply(hash: Hasher, s: Store, e: Event): Store
    requires Enabled(hash, s, e)
  {
    match e
    case Begin(id, stamp, stream) =>
      // os.Create truncates whatever an earlier, crashed run left there.
      s.(disk := s.disk.(temps := s.disk.temps[stamp := []]),
         calls := s.calls[id := Call(stamp, stream, Copying(0))],
         streams := s.streams + {stream})
    case CopyChunk(id, n) =>
      var c := s.calls[id];
      var present := if c.stamp in s.disk.temps then s.disk.temps[c.stamp] else [];
      var chunk := c.stream[c.phase.copied..c.phase.copied + n];
      SetPhase(s, id, Copying(c.phase.copied + n))
        .(disk := s.disk.(temps := s.disk.temps[c.stamp := present + chunk]))
    case CopyError(id) => SetPhase(s, id, Discarding(false))
    case CopyEnd(id) => SetPhase(s, id, Hashed)
    case Probe(id, answer) => SetPhase(s, id, if Exists(answer) then Discarding(true) else Renaming)
    case Rename(id, ok) =>
      if ok then
        var c := s.calls[id];
        var moved := Disk(s.disk.temps - {c.stamp}, s.disk.objects[hash(c.stream) := s.disk.temps[c.stamp]]);
        Return(hash, s, id, true).(disk := moved)
      else SetPhase(s, id, RenameFailed)
    case Reprobe(id, answer) => SetPhase(s, id, Discarding(Exists(answer)))
    case Discard(id, removed) =>
      var disk := if removed then s.disk.(temps := s.disk.temps - {s.calls[id].stamp}) else s.disk;
      Return(hash, s, id, s.calls[id].phase.ok).(disk := disk)
    case Crash => s.(calls := map[])
  }

  /** trace drives the machine from s to s'. */
  ghost predicate Run(hash: Hasher, s: Store, trace: seq<Event>, s': Store)
    decreases |trace|
  {
    if trace == [] then s == s'
    else Enabled(hash, s, trace[0]) && Run(hash, Apply(hash, s, trace[0]), trace[1..], s')
  }

  // ---------- Invariants ----------

  /** The temporary file of a call holds exactly the part of its stream copied so far. */
  predicate CallOk(disk: Disk, c: Call) {
    match c.phase
    case Copying(k) => k <= |c.stream| && c.stamp in disk.temps && disk.temps[c.stamp] == c.stream[..k]
    case Hashed => c.stamp in disk.temps && disk.temps[c.stamp] == c.stream
    case Renaming => c.stamp in disk.temps && disk.temps[c.stamp] == c.stream
    case RenameFailed => c.stamp in disk.temps && disk.temps[c.stamp] == c.stream
    case _ => true
  }

  predicate CallsOk(s: Store) {
    && (forall i | i in s.calls :: CallOk(s.disk, s.calls[i]))
    && (forall i, j | i in s.calls && j in s.calls && i != j && Live(s.calls[i]) && Live(s.calls[j]) ::
          s.calls[i].stamp != s.calls[j].stamp)
  }

  ghost predicate ObjectsOk(hash: Hasher, s: Store) {
    forall h | h in s.disk.objects :: hash(s.disk.objects[h]) == h && s.disk.objects[h] in s.streams
  }

  ghost predicate HistoryOk(hash: Hasher, s: Store) {
    && (forall i | i in s.calls :: s.calls[i].stream in s.streams)
    && (forall r | r in s.receipts ::
          r.checksum == hash(r.stream) && r.size == |r.stream| && r.stream in s.streams)
  }

  ghost predicate Inv(hash: Hasher, s: Store) {
    CallsOk(s) && ObjectsOk(hash, s) && HistoryOk(hash, s)
  }

  lemma CopyStepKeepsCalls(hash: Hasher, s: Store, e: Event)
    requires CallsOk(s) && Enabled(hash, s, e) && (e.CopyChunk? || e.CopyEnd?)
    ensures CallsOk(Apply(hash, s, e))
  {
    var c := s.calls[e.id];
    if e.CopyChunk? {
      var k := c.phase.copied;
      assert c.stream[..k] + c.stream[k..k + e.n] == c.stream[..k + e.n];
    } else {
      assert c.stream[..|c.stream|] == c.stream;
    }
  }

  lemma BeginKeepsCalls(hash: Hasher, s: Store, e: Event)
    requires CallsOk(s) && Enabled(hash, s, e) && e.Begin?
    ensures CallsOk(Apply(hash, s, e))
  {
  }

  lemma MoveKeepsCalls(hash: Hasher, s: Store, e: Event)
    requires CallsOk(s) && Enabled(hash, s, e) && (e.Rename? || e.Discard?)
    ensures CallsOk(Apply(hash, s, e))
  {
    var c := s.calls[e.id];
    var s' := Apply(hash, s, e);
    forall i | i in s'.calls
      ensures CallOk(s'.disk, s'.calls[i])
    {
      if i != e.id && Live(s.calls[i]) {
        assert s.calls[i].stamp != c.stamp;
      }
    }
  }

  lemma ProbeKeepsCalls(hash: Hasher, s: Store, e: Event)
    requires CallsOk(s) && Enabled(hash, s, e)
    requires e.CopyError? || e.Probe? || e.Reprobe? || e.Crash?
    ensures CallsOk(Apply(hash, s, e))
  {
  }

  lemma StepKeepsInv(hash: Hasher, s: Store, e: Event)
    requires Inv(hash, s) && Enabled(hash, s, e)
    ensures Inv(hash, Apply(hash, s, e))
  {
    if e.CopyChunk? || e.CopyEnd? {
      CopyStepKeepsCalls(hash, s, e);
    } else if e.Begin? {
      BeginKeepsCalls(hash, s, e);
    } else if e.Rename? || e.Discard? {
      MoveKeepsCalls(hash, s, e);
    } else {
      ProbeKeepsCalls(hash, s, e);
    }
    StepKeepsObjects(hash, s, e);
    StepKeepsHistory(hash, s, e);
  }

  lemma StepKeepsObjects(hash: Hasher, s: Store, e: Event)
    requires Inv(hash, s) && Enabled(hash, s, e)
    ensures ObjectsOk(hash, Apply(hash, s, e))
  {
  }

  lemma StepKeepsHistory(hash: Hasher, s: Store, e: Event)
    requires HistoryOk(hash, s) && Enabled(hash, s, e)
    ensures HistoryOk(hash, Apply(hash, s, e))
  {
  }

  lemma {:induction false} RunKeepsInv(hash: Hasher, s: Store, trace: seq<Event>, s': Store)
    requires Inv(hash, s) && Run(hash, s, trace, s')
    ensures Inv(hash, s')
    decreases |trace|
  {
    if trace != [] {
      StepKeepsInv(hash, s, trace[0]);
      RunKeepsInv(hash, Apply(hash, s, trace[0]), trace[1..], s');
    }
  }

  // ---------- Integrity ----------

  /**
   Whatever is published is a complete stream some caller offered, stored under its own checksum.
   This needs no hypothesis about the hash and survives every fault, including lying stats.
   */
  lemma ObjectsAreWholeStreams(hash: Hasher, trace: seq<Event>, s: Store, h: string)
    requires Run(hash, EmptyStore, trace, s) && h in s.disk.objects
    ensures hash(s.disk.objects[h]) == h
    ensures s.disk.objects[h] in s.streams
  {
    RunKeepsInv(hash, EmptyStore, trace, s);
  }

  // ---------- Permanence ----------

  /** Every object of before is in after, with the same bytes. */
  predicate Preserved(before: map<string, Bytes>, after: map<string, Bytes>) {
    forall h | h in before :: h in after && after[h] == before[h]
  }

  lemma StepGrowsStreams(hash: Hasher, s: Store, e: Event)
    requires Enabled(hash, s, e)
    ensures s.streams <= Apply(hash, s, e).streams
    ensures s.receipts <= Apply(hash, s, e).receipts
  {
  }

  lemma {:induction false} RunGrowsStreams(hash: Hasher, s: Store, trace: seq<Event>, s': Store)
    requires Run(hash, s, trace, s')
    ensures s.streams <= s'.streams
    ensures s.receipts <= s'.receipts
    decreases |trace|
  {
    if trace != [] {
      RunGrowsStreams(hash, Apply(hash, s, trace[0]), trace[1..], s');
    }
  }

  /** The check-then-rename race may overwrite an object, but only with the bytes it already has. */
  lemma StepPreservesObjects(hash: Hasher, s: Store, e: Event)
    requires Inv(hash, s) && Enabled(hash, s, e) && CollisionFree(hash, s.streams)
    ensures Preserved(s.disk.objects, Apply(hash, s, e).disk.objects)
  {
  }

  /**
   Once published, an object never disappears and never changes, whatever other calls, faults and
   crashes come later, as long as no two of the streams ever offered collide.
   */
  lemma {:induction false} ObjectsArePermanent(hash: Hasher, s: Store, trace: seq<Event>, s': Store)
    requires Inv(hash, s) && Run(hash, s, trace, s') && CollisionFree(hash, s'.streams)
    ensures Preserved(s.disk.objects, s'.disk.objects)
    decreases |trace|
  {
    if trace != [] {
      var next := Apply(hash, s, trace[0]);
      StepKeepsInv(hash, s, trace[0]);
      RunGrowsStreams(hash, s, trace, s');
      StepPreservesObjects(hash, s, trace[0]);
      ObjectsArePermanent(hash, next, trace[1..], s');
    }
  }

  // ---------- Receipts ----------

  /** A stat failed on an object that is not there, and the code took the failure for "exists". */
  ghost predicate Misread(hash: Hasher, s: Store, e: Event)
    requires Enabled(hash, s, e)
  {
    (e.Probe? || e.Reprobe?) && e.answer == StatError && hash(s.calls[e.id].stream) !in s.disk.objects
  }

  /** A run in which no stat failure is taken for the existence of a missing object. */
  ghost predicate SightedRun(hash: Hasher, s: Store, trace: seq<Event>, s': Store)
    decreases |trace|
  {
    if trace == [] then s == s'
    else
      Enabled(hash, s, trace[0]) && !Misread(hash, s, trace[0])
      && SightedRun(hash, Apply(hash, s, trace[0]), trace[1..], s')
  }

  lemma {:induction false} SightedRunIsRun(hash: Hasher, s: Store, trace: seq<Event>, s': Store)
    requires SightedRun(hash, s, trace, s')
    ensures Run(hash, s, trace, s')
    decreases |trace|
  {
    if trace != [] {
      SightedRunIsRun(hash, Apply(hash, s, trace[0]), trace[1..], s');
    }
  }

  /** Every receipt, and every call about to hand one out, has its object on disk. */
  ghost predicate Backed(hash: Hasher, s: Store) {
    && (forall r | r in s.receipts :: r.checksum in s.disk.objects)
    && (forall i | i in s.calls && s.calls[i].phase == Discarding(true) :: hash(s.calls[i].stream) in s.disk.objects)
  }

  /** A call that returned success handed out exactly the receipt of its stream. */
  ghost predicate ReturnsRecorded(hash: Hasher, s: Store) {
    (forall i | i in s.calls && s.calls[i].phase.Returned? && s.calls[i].phase.result.Stored? ::
          s.calls[i].phase.result == Stored(hash(s.calls[i].stream), |s.calls[i].stream|)
          && Receipt(hash(s.calls[i].stream), |s.calls[i].stream|, s.calls[i].stream) in s.receipts)
  }

  lemma StepKeepsBacked(hash: Hasher, s: Store, e: Event)
    requires Inv(hash, s) && Backed(hash, s) && Enabled(hash, s, e) && !Misread(hash, s, e)
    ensures Backed(hash, Apply(hash, s, e))
  {
  }

  lemma StepKeepsReturns(hash: Hasher, s: Store, e: Event)
    requires ReturnsRecorded(hash, s) && Enabled(hash, s, e)
    ensures ReturnsRecorded(hash, Apply(hash, s, e))
  {
  }

  lemma {:induction false} RunKeepsBacked(hash: Hasher, s: Store, trace: seq<Event>, s': Store)
    requires Inv(hash, s) && Backed(hash, s) && SightedRun(hash, s, trace, s')
    ensures Backed(hash, s')
    decreases |trace|
  {
    if trace != [] {
      StepKeepsInv(hash, s, trace[0]);
      StepKeepsBacked(hash, s, trace[0]);
      RunKeepsBacked(hash, Apply(hash, s, trace[0]), trace[1..], s');
    }
  }

  /** Every success ever returned names an object that holds that caller's stream, byte for byte. */
  lemma ReceiptsAreHonoured(hash: Hasher, trace: seq<Event>, s: Store, r: Receipt)
    requires SightedRun(hash, EmptyStore, trace, s) && r in s.receipts
    requires CollisionFree(hash, s.streams)
    ensures r.checksum == hash(r.stream) && r.size == |r.stream|
    ensures r.checksum in s.disk.objects && s.disk.objects[r.checksum] == r.stream
  {
    SightedRunIsRun(hash, EmptyStore, trace, s);
    RunKeepsInv(hash, EmptyStore, trace, s);
    RunKeepsBacked(hash, EmptyStore, trace, s);
  }

  /**
   Without that hypothesis the promise is false: for every hash and every stream there is a run of a
   single call that returns success with nothing stored, because the only stat of the run failed.
   */
  lemma MisreadLosesTheStream(hash: Hasher, stream: Bytes) returns (trace: seq<Event>, s: Store)
    ensures Run(hash, EmptyStore, trace, s)
    ensures Receipt(hash(stream), |stream|, stream) in s.receipts
    ensures s.disk.objects == map[] && s.disk.temps == map[]
  {
    var s1 := Apply(hash, EmptyStore, Begin(0, 0, stream));
    var s2 := Apply(hash, s1, CopyChunk(0, |stream|));
    var s3 := Apply(hash, s2, CopyEnd(0));
    var s4 := Apply(hash, s3, Probe(0, StatError));
    s := Apply(hash, s4, Discard(0, true));
    RunStep(hash, s4, Discard(0, true), [], s);
    var t4 := [Discard(0, true)];
    RunStep(hash, s3, Probe(0, StatError), t4, s);
    var t3 := [Probe(0, StatError)] + t4;
    RunStep(hash, s2, CopyEnd(0), t3, s);
    var t2 := [CopyEnd(0)] + t3;
    RunStep(hash, s1, CopyChunk(0, |stream|), t2, s);
    var t1 := [CopyChunk(0, |stream|)] + t2;
    RunStep(hash, EmptyStore, Begin(0, 0, stream), t1, s);
    trace := [Begin(0, 0, stream)] + t1;
  }

  // ---------- Which receipts are honoured ----------

  /** Some rename of a run put an object of this checksum in place. */
  ghost predicate Renamed(hash: Hasher, s: Store, trace: seq<Event>, s': Store, h: string)
    requires Run(hash, s, trace, s')
    decreases |trace|
  {
    trace != [] && (Places(hash, s, trace[0], h) || Renamed(hash, Apply(hash, s, trace[0]), trace[1..], s', h))
  }

  ghost predicate Places(hash: Hasher, s: Store, e: Event, h: string)
    requires Enabled(hash, s, e)
  {
    e.Rename? && e.ok && hash(s.calls[e.id].stream) == h
  }

  /** Over any run, objects are those there before and those renamed into place: nothing else adds or removes one. */
  lemma {:induction false} ObjectsAreRenames(hash: Hasher, s: Store, trace: seq<Event>, s': Store, h: string)
    requires Run(hash, s, trace, s')
    ensures h in s'.disk.objects <==> h in s.disk.objects || Renamed(hash, s, trace, s', h)
    decreases |trace|
  {
    if trace != [] {
      var t := Apply(hash, s, trace[0]);
      assert h in t.disk.objects <==> h in s.disk.objects || Places(hash, s, trace[0], h);
      ObjectsAreRenames(hash, t, trace[1..], s', h);
    }
  }

  /**
   Over every run, with every fault and any stats misread: a receipt names an object that holds its stream
   exactly when some call of the same checksum got as far as a successful rename.
   */
  lemma ReceiptIsHonouredIff(hash: Hasher, trace: seq<Event>, s: Store, r: Receipt)
    requires Run(hash, EmptyStore, trace, s) && r in s.receipts && CollisionFree(hash, s.streams)
    ensures r.checksum == hash(r.stream) && r.size == |r.stream|
    ensures (r.checksum in s.disk.objects && s.disk.objects[r.checksum] == r.stream) <==>
      Renamed(hash, EmptyStore, trace, s, r.checksum)
    ensures r.checksum in s.disk.objects ==> s.disk.objects[r.checksum] == r.stream
  {
    RunKeepsInv(hash, EmptyStore, trace, s);
    ObjectsAreRenames(hash, EmptyStore, trace, s, r.checksum);
    if r.checksum in s.disk.objects {
      ObjectsAreWholeStreams(hash, trace, s, r.checksum);
    }
  }

  lemma RunStep(hash: Hasher, s: Store, e: Event, rest: seq<Event>, s': Store)
    requires Enabled(hash, s, e) && Run(hash, Apply(hash, s, e), rest, s')
    ensures Run(hash, s, [e] + rest, s')
  {
    assert ([e] + rest)[1..] == rest;
  }
}
