/**
 What whole runs of the migration guarantee: accounting of each batch, the meaning of the checkpoint,
 one outcome for every schedule and crash, and the number of batches a table takes.
 */
module MigrationRuns {
  import opened Content
  import opened Collections
  import opened Migration

  function EndedWith(b: Batch, ok: bool): set<int>
    requires b.Batch?
  {
    set id | id in b.workers && b.workers[id] == Ended(ok)
  }

  /** Each finished turn is counted once, as executed or as an error, and no more workers run than slots. */
  ghost predicate Tally(cfg: Config, s: State) {
    s.batch.Batch? ==>
      && NoDuplicates(s.batch.executed)
      && Elements(s.batch.executed) == EndedWith(s.batch, true)
      && s.batch.errors == |EndedWith(s.batch, false)|
      && |InFlight(s.batch)| <= Slots(cfg)
      && EndedWith(s.batch, true) <= s.attempted && EndedWith(s.batch, false) <= s.attempted
  }

  lemma EndedGrows(b: Batch, c: Batch, id: int, pc: Worker)
    requires b.Batch? && c.Batch? && (id in b.workers ==> !b.workers[id].Ended?)
    requires c.workers == b.workers[id := pc]
    ensures id !in EndedWith(b, true) && id !in EndedWith(b, false)
    ensures EndedWith(c, true) == if pc == Ended(true) then EndedWith(b, true) + {id} else EndedWith(b, true)
    ensures EndedWith(c, false) == if pc == Ended(false) then EndedWith(b, false) + {id} else EndedWith(b, false)
  {
  }

  lemma InFlightGrows(b: Batch, c: Batch, id: int, pc: Worker)
    requires b.Batch? && c.Batch? && c.workers == b.workers[id := pc]
    requires id in b.workers ==> !b.workers[id].Ended?
    ensures |InFlight(c)| <= |InFlight(b)| + if pc.Ended? || id in b.workers then 0 else 1
  {
    if pc.Ended? || id in b.workers {
      SubsetSize(InFlight(c), InFlight(b));
    } else {
      assert InFlight(c) == InFlight(b) + {id};
    }
  }

  lemma ExecutedGrows(executed: seq<int>, ids: set<int>, id: int)
    requires NoDuplicates(executed) && Elements(executed) == ids && id !in ids
    ensures NoDuplicates(executed + [id]) && Elements(executed + [id]) == ids + {id}
  {
    assert forall i | 0 <= i < |executed| :: executed[i] in Elements(executed);
  }

  /** Moving one worker keeps the tally, if a new one finds a free slot. */
  lemma TallyGo(cfg: Config, s: State, t: State, id: int, pc: Worker)
    requires Tally(cfg, s) && s.batch.Batch? && (id in s.batch.workers ==> !s.batch.workers[id].Ended?)
    requires id in s.batch.workers || pc.Ended? || |InFlight(s.batch)| < Slots(cfg)
    requires
      var g := Go(s, id, pc);
      t.batch.Batch? && t.batch.workers == g.batch.workers && t.batch.executed == g.batch.executed
      && t.batch.errors == g.batch.errors && t.attempted == g.attempted
    ensures Tally(cfg, t)
  {
    EndedGrows(s.batch, t.batch, id, pc);
    InFlightGrows(s.batch, t.batch, id, pc);
    ExecutedGrows(s.batch.executed, EndedWith(s.batch, true), id);
  }

  /** The workers of t are those of s but for id, and the counters say so. */
  predicate WorkerGoes(s: State, t: State, id: int) {
    && s.batch.Batch? && t.batch.Batch? && id in t.batch.workers
    && id in s.batch.workers && !s.batch.workers[id].Ended?
    && var g := Go(s, id, t.batch.workers[id]);
       t.batch.workers == g.batch.workers && t.batch.executed == g.batch.executed
       && t.batch.errors == g.batch.errors && t.attempted == g.attempted
  }

  lemma OpeningGoes(cfg: Config, s: State, e: Event)
    requires Enabled(cfg, s, e) && e.OpenSource?
    ensures WorkerGoes(s, Apply(cfg, s, e), e.id)
  {
  }

  lemma PlacingGoes(cfg: Config, s: State, e: Event)
    requires Enabled(cfg, s, e) && e.Place?
    ensures WorkerGoes(s, Apply(cfg, s, e), e.id)
  {
  }

  lemma CopyingGoes(cfg: Config, s: State, e: Event)
    requires Enabled(cfg, s, e) && (e.Place? || e.Write? || e.CopyEnds? || e.CopyFails?)
    ensures WorkerGoes(s, Apply(cfg, s, e), e.id)
  {
    if e.Place? {
      PlacingGoes(cfg, s, e);
    }
  }

  lemma MarkingGoes(cfg: Config, s: State, e: Event)
    requires Enabled(cfg, s, e) && (e.Mark? || e.Report?)
    ensures WorkerGoes(s, Apply(cfg, s, e), e.id)
  {
  }

  lemma DispatchTally(cfg: Config, w: World, s: State)
    requires Tally(cfg, s) && BatchOk(cfg, w, s) && Enabled(cfg, s, Dispatch)
    ensures Tally(cfg, Next(cfg, s))
  {
    NextIsNew(s.batch, s.rows);
    var id := s.batch.items[s.batch.next];
    var t := Next(cfg, s);
    DispatchGoes(cfg, s, id);
    TallyGo(cfg, s, t, id, t.batch.workers[id]);
  }

  lemma DispatchGoes(cfg: Config, s: State, id: int)
    requires Enabled(cfg, s, Dispatch) && id == s.batch.items[s.batch.next]
    ensures
      var t := Next(cfg, s);
      && t.batch.Batch? && id in t.batch.workers
      && var g := Go(s, id, t.batch.workers[id]);
         t.batch.workers == g.batch.workers && t.batch.executed == g.batch.executed
         && t.batch.errors == g.batch.errors && t.attempted == g.attempted
  {
  }

  lemma StepKeepsTally(cfg: Config, w: World, s: State, e: Event)
    requires Tally(cfg, s) && BatchOk(cfg, w, s) && Enabled(cfg, s, e)
    ensures Tally(cfg, Apply(cfg, s, e))
  {
    if e.Dispatch? {
      DispatchTally(cfg, w, s);
    } else if !e.StartBatch? && !e.Finish? && !e.Crash? {
      var t := Apply(cfg, s, e);
      if e.OpenSource? {
        OpeningGoes(cfg, s, e);
      } else if e.Mark? || e.Report? {
        MarkingGoes(cfg, s, e);
      } else {
        CopyingGoes(cfg, s, e);
      }
      TallyGo(cfg, s, t, e.id, t.batch.workers[e.id]);
    }
  }

  // ---------- The checkpoint ----------

  /** Every id up to the checkpoint has had its turn, and a running batch holds the pending rows. */
  ghost predicate Progress(cfg: Config, w: World, s: State) {
    && s.rows.Keys == w.rows.Keys
    && (forall x | x in s.log :: x >= 0)
    && (forall id | id in w.rows && id <= Checkpoint(s.log) :: id in s.attempted)
    && (s.batch.Batch? ==>
          (s.batch.last == 0 || s.batch.last == Checkpoint(s.log))
          && s.batch.items == First(Above(w.rows.Keys, s.batch.last), Limit(cfg)) && s.batch.items != [])
  }

  lemma CheckpointGrows(log: seq<int>, x: int)
    requires x >= 0 && forall y | y in log :: y >= 0
    ensures Checkpoint(log + [x]) == if x > Checkpoint(log) then x else Checkpoint(log)
    ensures Checkpoint(log) >= 0
  {
    var before := set y | y in log;
    var after := set y | y in log + [x];
    assert after == before + {x};
    var m := if x > Checkpoint(log) then x else Checkpoint(log);
    assert m in after && forall y | y in after :: y <= m;
    assert MaxOrZero(after) in after && MaxOrZero(after) >= m;
  }

  /** The rows between the start of a finished batch and its last id are exactly its items. */
  lemma BatchCovers(ids: set<int>, last: int, n: nat, id: int)
    requires n >= 1 && id in ids
    ensures
      var items := First(Above(ids, last), n);
      items != [] && last < id <= items[|items| - 1] ==> id in items
  {
    FirstIsFirst(Above(ids, last), n);
  }

  /** When a batch can finish, every item has had its turn. */
  lemma AllItemsAttempted(cfg: Config, s: State, logOk: bool)
    requires Tally(cfg, s) && s.batch.Batch? && ShapeOk(s.batch, s.rows) && Enabled(cfg, s, Finish(logOk))
    ensures forall i | 0 <= i < |s.batch.items| :: s.batch.items[i] in s.attempted
  {
    var b := s.batch;
    forall i | 0 <= i < |b.items|
      ensures b.items[i] in s.attempted
    {
      var id := b.items[i];
      assert b.items[..b.next] == b.items;
      assert id in Elements(b.items);
      assert id in b.workers && id !in InFlight(b);
      assert id in EndedWith(b, true) || id in EndedWith(b, false);
    }
  }

  lemma FinishKeepsProgress(cfg: Config, w: World, s: State, logOk: bool)
    requires Progress(cfg, w, s) && s.batch.Batch?
    requires forall i | 0 <= i < |s.batch.items| :: s.batch.items[i] in s.attempted
    ensures Progress(cfg, w, Conclude(s, logOk))
  {
    var b := s.batch;
    FirstIsFirst(Above(w.rows.Keys, b.last), Limit(cfg));
    assert b.items[|b.items| - 1] in Above(w.rows.Keys, b.last);
    CheckpointNonNegative(s.log);
    CheckpointGrows(s.log, Highest(b));
    forall id | id in w.rows && id <= Highest(b)
      ensures id in s.attempted
    {
      BatchCovers(w.rows.Keys, b.last, Limit(cfg), id);
      assert id <= b.last || id in b.items;
    }
  }

  lemma CheckpointNonNegative(log: seq<int>)
    requires forall y | y in log :: y >= 0
    ensures Checkpoint(log) >= 0
  {
    var ids := set y | y in log;
    if ids != {} {
      assert MaxOrZero(ids) in ids;
    }
  }

  lemma StartKeepsProgress(cfg: Config, w: World, s: State, readOk: bool)
    requires Progress(cfg, w, s) && s.batch.NoBatch?
    ensures Progress(cfg, w, Begin(cfg, s, readOk))
  {
  }

  lemma StepKeepsProgress(cfg: Config, w: World, s: State, e: Event)
    requires Inv(cfg, w, s) && Tally(cfg, s) && Progress(cfg, w, s) && Enabled(cfg, s, e)
    ensures Progress(cfg, w, Apply(cfg, s, e))
  {
    match e
    case StartBatch(readOk) => StartKeepsProgress(cfg, w, s, readOk);
    case Finish(logOk) =>
      AllItemsAttempted(cfg, s, logOk);
      FinishKeepsProgress(cfg, w, s, logOk);
    case _ => InnerStep(cfg, s, e);
  }

  /** Steps inside a batch leave the log and the list of items alone. */
  predicate Within(s: State, t: State) {
    && t.log == s.log && t.rows.Keys == s.rows.Keys && s.attempted <= t.attempted
    && (t.batch.NoBatch? || (s.batch.Batch? && t.batch.items == s.batch.items && t.batch.last == s.batch.last))
  }

  lemma InnerStep(cfg: Config, s: State, e: Event)
    requires Enabled(cfg, s, e) && !e.StartBatch? && !e.Finish?
    ensures Within(s, Apply(cfg, s, e))
  {
    match e
    case Place(_, _) => CopyStepWithin(cfg, s, e);
    case Write(_, _) => CopyStepWithin(cfg, s, e);
    case CopyEnds(_) => CopyStepWithin(cfg, s, e);
    case CopyFails(_, _) => CopyStepWithin(cfg, s, e);
    case _ =>
  }

  lemma CopyStepWithin(cfg: Config, s: State, e: Event)
    requires Enabled(cfg, s, e) && (e.Place? || e.Write? || e.CopyEnds? || e.CopyFails?)
    ensures Within(s, Apply(cfg, s, e))
  {
  }

  // ---------- Runs without input or output errors ----------

  /** As long as nothing failed, every turn that ended did what the plan said. */
  ghost predicate Faultless(cfg: Config, w: World, s: State) {
    !s.faulty ==>
      && s.unhashed == {}
      && (forall id | id in s.attempted && Rewrites(cfg, w, id) :: id in s.marked)
      && (s.batch.Batch? ==> forall id | id in s.batch.workers && id in w.rows ::
            TurnOk(cfg, w, s, id, s.batch.workers[id]))
  }

  ghost predicate TurnOk(cfg: Config, w: World, s: State, id: int, pc: Worker)
    requires id in w.rows
  {
    match pc
    case Marking(_, _, _, hashed) => hashed
    case Reporting => Rewrites(cfg, w, id)
    case Ended(ok) => ok == !PlanAt(cfg, w, id).NotFound?
    case _ => true
  }

  /** Moving one worker keeps the rest faultless; what is left is that worker's own turn. */
  lemma FaultlessGo(cfg: Config, w: World, s: State, t: State, id: int, pc: Worker)
    requires Faultless(cfg, w, s) && s.batch.Batch? && t.batch.Batch? && (s.faulty ==> t.faulty)
    requires t.batch.workers == s.batch.workers[id := pc]
    requires t.attempted == Go(s, id, pc).attempted && s.marked.Keys <= t.marked.Keys
    requires !t.faulty ==> t.unhashed == {} && (id in w.rows ==> TurnOk(cfg, w, t, id, pc))
    requires !t.faulty && pc.Ended? && Rewrites(cfg, w, id) ==> id in t.marked
    ensures Faultless(cfg, w, t)
  {
    if !t.faulty {
      forall j | j in t.batch.workers && j in w.rows
        ensures TurnOk(cfg, w, t, j, t.batch.workers[j])
      {
        if j != id {
          assert TurnOk(cfg, w, s, j, s.batch.workers[j]);
        }
      }
    }
  }

  lemma DispatchFaultless(cfg: Config, w: World, s: State)
    requires Setting(cfg, w) && Inv(cfg, w, s) && Faultless(cfg, w, s) && Enabled(cfg, s, Dispatch)
    ensures Faultless(cfg, w, Next(cfg, s))
  {
    NextIsNew(s.batch, s.rows);
    var id := s.batch.items[s.batch.next];
    assert id in s.batch.items && s.batch.snapshot[id] == s.rows[id];
    assert RowOk(cfg, w, s, id);
    CurrentPlan(cfg, w, s, id, {});
    var t := Next(cfg, s);
    FaultlessGo(cfg, w, s, t, id, t.batch.workers[id]);
  }

  lemma OpenFaultless(cfg: Config, w: World, s: State, id: int, blocked: set<string>, hashOk: bool)
    requires Setting(cfg, w) && Inv(cfg, w, s) && Faultless(cfg, w, s)
    requires Enabled(cfg, s, OpenSource(id, blocked, hashOk))
    ensures Faultless(cfg, w, Open(cfg, s, id, blocked, hashOk))
  {
    var t := Open(cfg, s, id, blocked, hashOk);
    OpenShape(cfg, s, id, blocked, hashOk, t);
    OpeningGoes(cfg, s, OpenSource(id, blocked, hashOk));
    assert id in Elements(s.batch.items[..s.batch.next]);
    assert s.batch.snapshot[id] == s.rows[id];
    assert RowOk(cfg, w, s, id);
    CurrentPlan(cfg, w, s, id, {});
    if !t.faulty {
      assert blocked == {};
      OpenedTurn(cfg, w, s, id, t.batch.workers[id]);
    }
    FaultlessGo(cfg, w, s, t, id, t.batch.workers[id]);
  }

  /** Where an open that works leads: on, or to the end the plan says. */
  lemma OpenedTurn(cfg: Config, w: World, s: State, id: int, pc: Worker)
    requires Setting(cfg, w) && DiskOk(cfg, w, s.files) && id in s.rows && RowOk(cfg, w, s, id)
    requires At(s, id) && s.batch.snapshot[id] == s.rows[id]
    requires exists hashOk :: pc == OpenedAs(cfg, s, id, {}, hashOk) && (pc.Marking? ==> hashOk)
    ensures TurnOk(cfg, w, s, id, pc)
    ensures pc.Ended? && Rewrites(cfg, w, id) ==> id in s.marked
  {
    CurrentPlan(cfg, w, s, id, {});
  }

  /** What FaultlessGo asks of a step of worker id, beside that worker's own turn. */
  predicate TurnMoves(s: State, t: State, id: int) {
    WorkerGoes(s, t, id) && (s.faulty ==> t.faulty) && s.marked.Keys <= t.marked.Keys
    && t.batch.workers == s.batch.workers[id := t.batch.workers[id]]
    && t.attempted == Go(s, id, t.batch.workers[id]).attempted
  }

  lemma CopyFaultless(cfg: Config, w: World, s: State, e: Event)
    requires Faultless(cfg, w, s) && Enabled(cfg, s, e)
    requires e.Place? || e.Write? || e.CopyEnds? || e.CopyFails?
    ensures Faultless(cfg, w, Apply(cfg, s, e))
  {
    var t := Apply(cfg, s, e);
    CopyingGoes(cfg, s, e);
    FaultlessGo(cfg, w, s, t, e.id, t.batch.workers[e.id]);
  }

  lemma MarkMoves(cfg: Config, s: State, e: Event)
    requires Enabled(cfg, s, e) && (e.Mark? || e.Report?)
    ensures
      var t := Apply(cfg, s, e);
      TurnMoves(s, t, e.id) && (t.faulty || (t.unhashed == if e.Mark? && !s.batch.workers[e.id].hashed then s.unhashed + {e.id}
                                                           else s.unhashed - if e.Mark? then {e.id} else {}))
      && (!t.faulty ==> t.batch.workers[e.id] == (if e.Mark? then Reporting else Ended(true)))
      && (!t.faulty && e.Mark? ==> e.id in t.marked)
  {
    MarkingGoes(cfg, s, e);
  }

  lemma MarkFaultless(cfg: Config, w: World, s: State, e: Event)
    requires SourcesSafe(cfg, w) && Inv(cfg, w, s) && Faultless(cfg, w, s) && Enabled(cfg, s, e) && (e.Mark? || e.Report?)
    ensures Faultless(cfg, w, Apply(cfg, s, e))
  {
    var t := Apply(cfg, s, e);
    var pc := s.batch.workers[e.id];
    assert WorkerOk(cfg, w, s, e.id, pc);
    MarkMoves(cfg, s, e);
    if !t.faulty {
      assert e.id in w.rows && TurnOk(cfg, w, s, e.id, pc);
      assert Rewrites(cfg, w, e.id) by {
        if e.Mark? {
          assert FileOk(cfg, w, s.files, e.id, pc.plan);
        }
      }
    }
    FaultlessGo(cfg, w, s, t, e.id, t.batch.workers[e.id]);
  }

  lemma StepKeepsFaultless(cfg: Config, w: World, s: State, e: Event)
    requires Setting(cfg, w) && Inv(cfg, w, s) && Faultless(cfg, w, s) && Enabled(cfg, s, e)
    ensures Faultless(cfg, w, Apply(cfg, s, e))
  {
    match e
    case StartBatch(_) =>
    case Finish(_) =>
    case Crash =>
    case Dispatch => DispatchFaultless(cfg, w, s);
    case OpenSource(id, blocked, hashOk) => OpenFaultless(cfg, w, s, id, blocked, hashOk);
    case Mark(_, _) => MarkFaultless(cfg, w, s, e);
    case Report(_) => MarkFaultless(cfg, w, s, e);
    case _ => CopyFaultless(cfg, w, s, e);
  }

  // ---------- Runs ----------

  ghost predicate All(cfg: Config, w: World, s: State) {
    Inv(cfg, w, s) && Tally(cfg, s) && Progress(cfg, w, s) && Faultless(cfg, w, s)
  }

  lemma InitAll(cfg: Config, w: World)
    requires Setting(cfg, w)
    ensures All(cfg, w, InitialState(w))
  {
    InitInv(cfg, w);
  }

  lemma StepKeepsAll(cfg: Config, w: World, s: State, e: Event)
    requires Setting(cfg, w) && All(cfg, w, s) && Enabled(cfg, s, e)
    ensures All(cfg, w, Apply(cfg, s, e))
  {
    StepKeepsInv(cfg, w, s, e);
    StepKeepsTally(cfg, w, s, e);
    StepKeepsProgress(cfg, w, s, e);
    StepKeepsFaultless(cfg, w, s, e);
  }

  lemma {:induction false} RunKeepsAll(cfg: Config, w: World, s: State, trace: seq<Event>, s': State)
    requires Setting(cfg, w) && All(cfg, w, s) && Run(cfg, s, trace, s')
    ensures All(cfg, w, s')
    decreases |trace|
  {
    if trace != [] {
      StepKeepsAll(cfg, w, s, trace[0]);
      RunKeepsAll(cfg, w, Apply(cfg, s, trace[0]), trace[1..], s');
    }
  }

  ghost predicate Reachable(cfg: Config, w: World, s: State) {
    exists trace :: Run(cfg, InitialState(w), trace, s)
  }

  lemma ReachableAll(cfg: Config, w: World, s: State)
    requires Setting(cfg, w) && Reachable(cfg, w, s)
    ensures All(cfg, w, s)
  {
    var trace :| Run(cfg, InitialState(w), trace, s);
    InitAll(cfg, w);
    RunKeepsAll(cfg, w, InitialState(w), trace, s);
  }

  // ---------- Runs without failed opens ----------

  /** The same configuration on a disk where every open works. */
  function Firm(cfg: Config): Config {
    cfg.(mayFail := (path: string) => false)
  }

  lemma FirmPossible(cfg: Config, w: World, id: int, p: Plan)
    ensures Possible(Firm(cfg), w, id, p) <==> id in w.rows && p == PlanAt(cfg, w, id)
    ensures Possible(Firm(cfg), w, id, p) ==> Possible(cfg, w, id, p)
  {
    if id in w.rows {
      PlanIsPossible(Firm(cfg), w, id);
      PlanIsPossible(cfg, w, id);
    }
    forall blocked: set<string> | MayFail(Firm(cfg), blocked)
      ensures blocked == {}
    {
      assert forall k | k in blocked :: Firm(cfg).mayFail(k);
    }
  }

  lemma FirmDests(cfg: Config, w: World, id: int, k: string)
    ensures DestOf(Firm(cfg), w, id, k) <==> Moves(cfg, w, id) && Dest(cfg, w, id) == k
    ensures DestOf(Firm(cfg), w, id, k) ==> DestOf(cfg, w, id, k)
    ensures IsDest(Firm(cfg), w, k) ==> IsDest(cfg, w, k)
  {
    forall j, p
      ensures Possible(Firm(cfg), w, j, p) <==> j in w.rows && p == PlanAt(cfg, w, j)
      ensures Possible(Firm(cfg), w, j, p) ==> Possible(cfg, w, j, p)
    {
      FirmPossible(cfg, w, j, p);
    }
    if IsDest(Firm(cfg), w, k) {
      var j :| DestOf(Firm(cfg), w, j, k);
      var p :| Possible(Firm(cfg), w, j, p) && p.Copy? && p.dest == k;
      assert DestOf(cfg, w, j, k);
    }
  }

  lemma FirmSources(cfg: Config, w: World, files: Files)
    requires SameSources(Firm(cfg), w, files)
    ensures SameSources(cfg, w, files)
  {
    forall k | !IsDest(cfg, w, k)
      ensures (k in files <==> k in w.files) && (k in files ==> files[k] == w.files[k])
    {
      FirmDests(cfg, w, 0, k);
    }
  }

  lemma FirmStable(cfg: Config, w: World)
    requires PlansAreStable(cfg, w)
    ensures PlansAreStable(Firm(cfg), w)
  {
    forall files, blocked, id | id in w.rows && SameSources(Firm(cfg), w, files)
      ensures Asked(Firm(cfg), files, blocked, id, w.rows[id]) == Asked(Firm(cfg), w.files, blocked, id, w.rows[id])
    {
      FirmSources(cfg, w, files);
      assert Asked(cfg, files, blocked, id, w.rows[id]) == Asked(cfg, w.files, blocked, id, w.rows[id]);
    }
    forall files, blocked, id, p, data, hashed |
        Possible(Firm(cfg), w, id, p) && Rewriting(p) && SameSources(Firm(cfg), w, files)
      ensures
        var again := Asked(Firm(cfg), files, blocked, id, Rewritten(Firm(cfg), w.rows[id], p, data, hashed));
        again.Skip? || (p.Keep? && again == Asked(Firm(cfg), w.files, blocked, id, w.rows[id]))
    {
      FirmSources(cfg, w, files);
      FirmPossible(cfg, w, id, p);
      assert Rewritten(Firm(cfg), w.rows[id], p, data, hashed) == Rewritten(cfg, w.rows[id], p, data, hashed);
      var again := Asked(cfg, files, blocked, id, Rewritten(cfg, w.rows[id], p, data, hashed));
      assert again.Skip? || (p.Keep? && again == Asked(cfg, w.files, blocked, id, w.rows[id]));
    }
  }

  lemma FirmSetting(cfg: Config, w: World)
    requires Setting(cfg, w)
    ensures Setting(Firm(cfg), w)
  {
    FirmStable(cfg, w);
    forall files, blocked, id, row | Asked(Firm(cfg), files, blocked, id, row).Skip?
      ensures Asked(Firm(cfg), files, {}, id, row).Skip?
    {
      assert Asked(cfg, files, blocked, id, row).Skip?;
    }
    forall a, b, k | DestOf(Firm(cfg), w, a, k) && DestOf(Firm(cfg), w, b, k)
      ensures a == b
    {
      FirmDests(cfg, w, a, k);
      FirmDests(cfg, w, b, k);
    }
    forall id, p | Possible(Firm(cfg), w, id, p)
      ensures Rewriting(p) ==>
        SourceOf(p) in w.files && !IsDest(Firm(cfg), w, SourceOf(p)) && Rewrites(Firm(cfg), w, id)
      ensures p.Copy? && p.dest in w.files && p.src in w.files ==> w.files[p.dest] <= w.files[p.src]
    {
      FirmPossible(cfg, w, id, p);
      if Rewriting(p) {
        FirmDests(cfg, w, id, SourceOf(p));
      }
    }
  }

  lemma FirmStep(cfg: Config, s: State, e: Event)
    requires Enabled(cfg, s, e) && !Apply(cfg, s, e).faulty
    ensures !s.faulty && Enabled(Firm(cfg), s, e) && Apply(Firm(cfg), s, e) == Apply(cfg, s, e)
  {
    match e
    case Dispatch => assert Skips(Firm(cfg), s) == Skips(cfg, s);
    case OpenSource(id, blocked, hashOk) =>
      assert blocked == {} && MayFail(Firm(cfg), blocked);
      assert OpenedAs(Firm(cfg), s, id, blocked, hashOk) == OpenedAs(cfg, s, id, blocked, hashOk);
    case _ =>
  }

  lemma {:induction false} FaultsStay(cfg: Config, s: State, trace: seq<Event>, s': State)
    requires Run(cfg, s, trace, s') && !s'.faulty
    ensures !s.faulty
    decreases |trace|
  {
    if trace != [] {
      FaultsStay(cfg, Apply(cfg, s, trace[0]), trace[1..], s');
      FirmStep(cfg, s, trace[0]);
    }
  }

  lemma {:induction false} FirmRun(cfg: Config, s: State, trace: seq<Event>, s': State)
    requires Run(cfg, s, trace, s') && !s'.faulty
    ensures Run(Firm(cfg), s, trace, s')
    decreases |trace|
  {
    if trace != [] {
      var t := Apply(cfg, s, trace[0]);
      FaultsStay(cfg, t, trace[1..], s');
      FirmStep(cfg, s, trace[0]);
      FirmRun(cfg, t, trace[1..], s');
    }
  }

  /** A state nothing failed on the way to is a state of the disk where every open works. */
  lemma FaultlessIsFirm(cfg: Config, w: World, s: State)
    requires Setting(cfg, w) && Reachable(cfg, w, s) && !s.faulty
    ensures Setting(Firm(cfg), w) && Inv(Firm(cfg), w, s)
  {
    var trace :| Run(cfg, InitialState(w), trace, s);
    FirmRun(cfg, InitialState(w), trace, s);
    FirmSetting(cfg, w);
    assert Reachable(Firm(cfg), w, s);
    ReachableAll(Firm(cfg), w, s);
  }

  lemma FirmAgrees(cfg: Config, w: World, id: int)
    ensures Agrees(Firm(cfg), w, id)
  {
    forall p, q | Possible(Firm(cfg), w, id, p) && Possible(Firm(cfg), w, id, q)
      ensures p == q
    {
      FirmPossible(cfg, w, id, p);
      FirmPossible(cfg, w, id, q);
    }
  }

  // ---------- What runs keep ----------

  /** Opens have not led, or cannot lead, to a source with other bytes. */
  ghost predicate Straight(cfg: Config, w: World, s: State, id: int) {
    Agrees(cfg, w, id) || !s.faulty
  }

  /**
   At every moment of every run, crashes and errors included, sources are as they were and each
   destination is absent or a beginning of a source its row may be copied from. If those have one
   content, or nothing failed, it is a beginning of the row's source, so equal size is equal content.
   */
  lemma DestinationsArePrefixes(cfg: Config, w: World, s: State, id: int, p: Plan)
    requires Setting(cfg, w) && Reachable(cfg, w, s) && Possible(cfg, w, id, p) && Rewriting(p)
    ensures SourceOf(p) in w.files && SourceOf(p) in s.files && s.files[SourceOf(p)] == w.files[SourceOf(p)]
    ensures p.Copy? && p.dest in s.files ==> BeginsSome(cfg, w, id, s.files[p.dest])
    ensures Rewrites(cfg, w, id) && Source(cfg, w, id) in w.files
    ensures p.Copy? && p.dest in s.files && (Agrees(cfg, w, id) || (!s.faulty && p == PlanAt(cfg, w, id))) ==>
      var data, src := s.files[p.dest], w.files[Source(cfg, w, id)];
      data <= src && (|data| == |src| <==> data == src)
  {
    ReachableAll(cfg, w, s);
    SourceStands(cfg, w, s.files, id, p);
    PlanIsPossible(cfg, w, id);
    assert SourceOf(PlanAt(cfg, w, id)) in w.files;
    if p.Copy? && p.dest in s.files {
      assert DestOf(cfg, w, id, p.dest);
      if Agrees(cfg, w, id) {
        BeginsSource(cfg, w, id, s.files[p.dest]);
      } else if !s.faulty && p == PlanAt(cfg, w, id) {
        FaultlessIsFirm(cfg, w, s);
        FirmDests(cfg, w, id, p.dest);
        FirmAgrees(cfg, w, id);
        BeginsSource(Firm(cfg), w, id, s.files[p.dest]);
      }
    }
  }

  lemma BeginsSource(cfg: Config, w: World, id: int, data: Bytes)
    requires SourcesSafe(cfg, w) && Agrees(cfg, w, id) && BeginsSome(cfg, w, id, data)
    ensures Rewrites(cfg, w, id) && Source(cfg, w, id) in w.files && data <= w.files[Source(cfg, w, id)]
  {
    var q :| Possible(cfg, w, id, q) && q.Copy? && q.src in w.files && data <= w.files[q.src];
    PlanIsPossible(cfg, w, id);
    assert Rewrites(cfg, w, id);
    BeginsPlan(cfg, w, id, PlanAt(cfg, w, id), data);
  }

  /**
   Every row a worker marked, whatever failed, names an existing file of the recorded size; the
   recorded checksum is that file's, or it is empty because reading the file back failed. If opens
   could not lead to other bytes, or nothing failed, the file is a copy of the row's source.
   */
  lemma MarkedRowsAreTrue(cfg: Config, w: World, s: State, id: int)
    requires Setting(cfg, w) && Reachable(cfg, w, s) && id in s.marked
    ensures Rewrites(cfg, w, id) && id in s.rows && Source(cfg, w, id) in w.files
    ensures
      var p, row := s.marked[id], s.rows[id];
      var place := PlaceOf(p);
      && Possible(cfg, w, id, p) && Rewriting(p) && place in s.files
      && row.size == |s.files[place]| && row.flag == "M" && row.path == p.newPath
      && row.module_ == w.rows[id].module_ && row.directory == w.rows[id].directory && row.fileName == w.rows[id].fileName
      && row.checksum == (if id in s.unhashed then "" else cfg.hash(s.files[place]))
      && (Straight(cfg, w, s, id) ==> s.files[place] == w.files[Source(cfg, w, id)])
      && (!s.faulty ==> p == PlanAt(cfg, w, id))
  {
    ReachableAll(cfg, w, s);
    assert RowOk(cfg, w, s, id);
    MarkedFile(cfg, w, s, id);
    if !s.faulty {
      FaultlessIsFirm(cfg, w, s);
      FirmAgrees(cfg, w, id);
      assert RowOk(Firm(cfg), w, s, id);
      FirmPossible(cfg, w, id, s.marked[id]);
    }
  }

  lemma MarkedFile(cfg: Config, w: World, s: State, id: int)
    requires SourcesSafe(cfg, w) && id in s.rows && RowOk(cfg, w, s, id) && id in s.marked
    ensures Rewrites(cfg, w, id) && Source(cfg, w, id) in w.files
    ensures Agrees(cfg, w, id) ==> s.files[PlaceOf(s.marked[id])] == w.files[Source(cfg, w, id)]
  {
    PlanIsPossible(cfg, w, id);
  }

  /**
   Executed and errors add up to the batch and nothing is counted twice. A batch has at most the set
   number of rows, by default 100, and at most the set number of workers run: by default 2, never over 8.
   */
  lemma BatchAccounts(cfg: Config, w: World, s: State, logOk: bool)
    requires Setting(cfg, w) && Reachable(cfg, w, s)
    ensures s.batch.Batch? ==>
      && |InFlight(s.batch)| <= (if cfg.workerCount <= 0 then 2 else if cfg.workerCount <= 8 then cfg.workerCount else 8)
      && |s.batch.items| <= (if cfg.batchSize <= 0 then 100 else cfg.batchSize)
    ensures Enabled(cfg, s, Finish(logOk)) ==>
      NoDuplicates(s.batch.executed) && Elements(s.batch.executed) <= Elements(s.batch.items)
      && |s.batch.executed| + s.batch.errors == |s.batch.items|
  {
    ReachableAll(cfg, w, s);
    if s.batch.Batch? {
      FirstIsFirst(Above(w.rows.Keys, s.batch.last), Limit(cfg));
    }
    if Enabled(cfg, s, Finish(logOk)) {
      AllEnded(s.batch, s.rows);
      NoDuplicatesSize(s.batch.executed);
    }
  }

  /** With every item taken and nobody at work, the ended turns are the items. */
  lemma AllEnded(b: Batch, rows: map<int, Row>)
    requires b.Batch? && ShapeOk(b, rows) && b.next == |b.items| && InFlight(b) == {}
    ensures EndedWith(b, true) + EndedWith(b, false) == Elements(b.items)
    ensures |EndedWith(b, true)| + |EndedWith(b, false)| == |b.items|
  {
    assert b.items[..b.next] == b.items;
    forall id | id in b.workers
      ensures id in EndedWith(b, true) + EndedWith(b, false)
    {
      assert id !in InFlight(b);
    }
    assert EndedWith(b, true) + EndedWith(b, false) == b.workers.Keys;
    assert EndedWith(b, true) !! EndedWith(b, false);
    NoDuplicatesSize(b.items);
  }

  ghost predicate Migrated(cfg: Config, w: World, files: Files, rows: map<int, Row>, id: int)
    requires id in w.rows
  {
    id in rows &&
    if Rewrites(cfg, w, id) then
      var p := PlanAt(cfg, w, id);
      && SourceOf(p) in w.files && PlaceOf(p) in files && files[PlaceOf(p)] == w.files[SourceOf(p)]
      && rows[id] == Rewritten(cfg, w.rows[id], p, w.files[SourceOf(p)], true)
    else rows[id] == w.rows[id]
  }

  lemma ItemEnded(cfg: Config, w: World, s: State, logOk: bool, id: int)
    requires Setting(cfg, w) && Reachable(cfg, w, s) && All(cfg, w, s)
    requires !s.faulty && Enabled(cfg, s, Finish(logOk)) && id in s.batch.items
    ensures id in w.rows && Migrated(cfg, w, s.files, s.rows, id)
    ensures id in s.batch.workers && s.batch.workers[id] == Ended(!PlanAt(cfg, w, id).NotFound?)
  {
    var b := s.batch;
    assert b.items[..b.next] == b.items;
    assert id in Elements(b.items);
    assert id in b.workers && id !in InFlight(b);
    assert WorkerOk(cfg, w, s, id, b.workers[id]);
    assert TurnOk(cfg, w, s, id, b.workers[id]);
    assert id in EndedWith(b, b.workers[id].ok);
    TurnEndsMigrated(cfg, w, s, id);
  }

  /** Items of a batch that have no source, or that do. */
  ghost function Lacking(cfg: Config, w: World, items: seq<int>, lacking: bool): set<int> {
    set id | id in items && id in w.rows && PlanAt(cfg, w, id).NotFound? == lacking
  }

  /**
   A batch without input or output errors has one outcome, for every interleaving, every number of
   workers and whatever crashed before: executed are exactly the rows with a source (or done before),
   errors exactly those without, and each row of the batch is as planned.
   */
  lemma BatchOutcomeIsDetermined(cfg: Config, w: World, s: State, logOk: bool)
    requires Setting(cfg, w) && Reachable(cfg, w, s) && !s.faulty && Enabled(cfg, s, Finish(logOk))
    ensures forall id | id in s.batch.items :: id in w.rows && Migrated(cfg, w, s.files, s.rows, id)
    ensures Elements(s.batch.executed) == Lacking(cfg, w, s.batch.items, false)
    ensures s.batch.errors == |Lacking(cfg, w, s.batch.items, true)|
  {
    ReachableAll(cfg, w, s);
    var b := s.batch;
    forall id | id in b.items
      ensures id in w.rows && Migrated(cfg, w, s.files, s.rows, id)
    {
      ItemEnded(cfg, w, s, logOk, id);
    }
    forall ok: bool
      ensures EndedWith(b, ok) == Lacking(cfg, w, b.items, !ok)
    {
      EndedAsPlanned(cfg, w, s, logOk, ok);
    }
  }

  lemma EndedAsPlanned(cfg: Config, w: World, s: State, logOk: bool, ok: bool)
    requires Setting(cfg, w) && Reachable(cfg, w, s) && All(cfg, w, s) && !s.faulty && Enabled(cfg, s, Finish(logOk))
    ensures EndedWith(s.batch, ok) == Lacking(cfg, w, s.batch.items, !ok)
  {
    var b := s.batch;
    assert b.items[..b.next] == b.items;
    assert b.workers.Keys == Elements(b.items);
    forall id | id in b.items
      ensures id in EndedWith(b, ok) <==> id in Lacking(cfg, w, b.items, !ok)
    {
      ItemEnded(cfg, w, s, logOk, id);
    }
    forall id | id in EndedWith(b, ok)
      ensures id in b.items
    {
      assert id in Elements(b.items);
    }
  }

  lemma TurnEndsMigrated(cfg: Config, w: World, s: State, id: int)
    requires Setting(cfg, w) && Reachable(cfg, w, s) && All(cfg, w, s) && !s.faulty && id in w.rows
    requires id in s.attempted
    ensures Migrated(cfg, w, s.files, s.rows, id)
  {
    assert RowOk(cfg, w, s, id);
    if id in s.marked {
      MarkedRowsAreTrue(cfg, w, s, id);
    }
  }

  /** Whatever is at or below the checkpoint has been attempted: migrated, or counted as an error. */
  lemma CheckpointMeansAttempted(cfg: Config, w: World, s: State, id: int)
    requires Setting(cfg, w) && Reachable(cfg, w, s) && id in w.rows && id <= Checkpoint(s.log)
    ensures id in s.attempted
    ensures !s.faulty ==> Migrated(cfg, w, s.files, s.rows, id)
  {
    ReachableAll(cfg, w, s);
    if !s.faulty {
      TurnEndsMigrated(cfg, w, s, id);
    }
  }

  lemma {:induction false} CheckpointStep(cfg: Config, w: World, s: State, e: Event)
    requires All(cfg, w, s) && Enabled(cfg, s, e)
    ensures Checkpoint(Apply(cfg, s, e).log) >= Checkpoint(s.log)
  {
    if e.Finish? {
      FirstIsFirst(Above(w.rows.Keys, s.batch.last), Limit(cfg));
      assert s.batch.items[|s.batch.items| - 1] in Above(w.rows.Keys, s.batch.last);
      CheckpointNonNegative(s.log);
      CheckpointGrows(s.log, Highest(s.batch));
    } else if !e.StartBatch? {
      InnerStep(cfg, s, e);
    }
  }

  lemma {:induction false} CheckpointRun(cfg: Config, w: World, s: State, trace: seq<Event>, s': State)
    requires Setting(cfg, w) && All(cfg, w, s) && Run(cfg, s, trace, s')
    ensures Checkpoint(s'.log) >= Checkpoint(s.log)
    decreases |trace|
  {
    if trace != [] {
      CheckpointStep(cfg, w, s, trace[0]);
      StepKeepsAll(cfg, w, s, trace[0]);
      CheckpointRun(cfg, w, Apply(cfg, s, trace[0]), trace[1..], s');
    }
  }

  /** From any reachable state on, the checkpoint never goes back, even when batches restart from 0. */
  lemma {:induction false} CheckpointNeverDecreases(cfg: Config, w: World, s: State, trace: seq<Event>, s': State)
    requires Setting(cfg, w) && Reachable(cfg, w, s) && Run(cfg, s, trace, s')
    ensures Checkpoint(s'.log) >= Checkpoint(s.log)
  {
    ReachableAll(cfg, w, s);
    CheckpointRun(cfg, w, s, trace, s');
  }

  // ---------- One final result ----------

  /**
   Two runs over the same table and disk, with any configuration of workers and batch sizes, any
   schedules, and any crashes, that pass the last id without an input or output error, end with the
   same table and the same files.
   */
  lemma AllRunsAgree(cfg1: Config, cfg2: Config, w: World, s1: State, s2: State)
    requires cfg1.planner == cfg2.planner && cfg1.hash == cfg2.hash
    requires Setting(cfg1, w) && Setting(cfg2, w) && Reachable(cfg1, w, s1) && Reachable(cfg2, w, s2)
    requires !s1.faulty && !s2.faulty
    requires forall id | id in w.rows :: id <= Checkpoint(s1.log) && id <= Checkpoint(s2.log)
    ensures s1.rows == s2.rows && s1.files == s2.files
  {
    forall id | id in w.rows
      ensures id in s1.rows && id in s2.rows && s1.rows[id] == s2.rows[id]
      ensures Moves(cfg1, w, id) ==> Dest(cfg1, w, id) in s1.files && Dest(cfg1, w, id) in s2.files
                                     && s1.files[Dest(cfg1, w, id)] == s2.files[Dest(cfg1, w, id)]
    {
      SameRow(cfg1, cfg2, w, s1, s2, id);
    }
    FaultlessIsFirm(cfg1, w, s1);
    FaultlessIsFirm(cfg2, w, s2);
    assert s1.rows.Keys == w.rows.Keys && s2.rows.Keys == w.rows.Keys;
    assert forall id | id in s1.rows :: id in s2.rows && s1.rows[id] == s2.rows[id];
    assert s1.rows == s2.rows;
    SameFiles(cfg1, cfg2, w, s1.files, s2.files);
  }

  lemma SameRow(cfg1: Config, cfg2: Config, w: World, s1: State, s2: State, id: int)
    requires cfg1.planner == cfg2.planner && cfg1.hash == cfg2.hash
    requires Setting(cfg1, w) && Setting(cfg2, w) && Reachable(cfg1, w, s1) && Reachable(cfg2, w, s2)
    requires !s1.faulty && !s2.faulty && id in w.rows && id <= Checkpoint(s1.log) && id <= Checkpoint(s2.log)
    ensures id in s1.rows && id in s2.rows && s1.rows[id] == s2.rows[id]
    ensures Moves(cfg1, w, id) ==> Dest(cfg1, w, id) in s1.files && Dest(cfg1, w, id) in s2.files
                                   && s1.files[Dest(cfg1, w, id)] == s2.files[Dest(cfg1, w, id)]
  {
    CheckpointMeansAttempted(cfg1, w, s1, id);
    CheckpointMeansAttempted(cfg2, w, s2, id);
    assert PlanAt(cfg1, w, id) == PlanAt(cfg2, w, id);
  }

  lemma SameFiles(cfg1: Config, cfg2: Config, w: World, files1: Files, files2: Files)
    requires cfg1.planner == cfg2.planner
    requires SameSources(Firm(cfg1), w, files1) && SameSources(Firm(cfg2), w, files2)
    requires forall id | Moves(cfg1, w, id) ::
      Dest(cfg1, w, id) in files1 && Dest(cfg1, w, id) in files2 && files1[Dest(cfg1, w, id)] == files2[Dest(cfg1, w, id)]
    ensures files1 == files2
  {
    forall k
      ensures k in files1 <==> k in files2
      ensures k in files1 && k in files2 ==> files1[k] == files2[k]
    {
      if id :| DestOf(Firm(cfg1), w, id, k) {
        FirmDests(cfg1, w, id, k);
      } else {
        if id :| DestOf(Firm(cfg2), w, id, k) {
          FirmDests(cfg2, w, id, k);
          assert PlanAt(cfg1, w, id) == PlanAt(cfg2, w, id);
          FirmDests(cfg1, w, id, k);
          assert false;
        }
        assert !IsDest(Firm(cfg1), w, k) && !IsDest(Firm(cfg2), w, k);
      }
    }
  }

  // ---------- How many batches a table takes ----------

  /** Rows above the checkpoint. */
  ghost function Remaining(w: World, log: seq<int>): nat {
    |Above(w.rows.Keys, Checkpoint(log))|
  }

  /** A batch that read the true checkpoint and logged its own. */
  ghost predicate Good(s: State, e: Event) {
    e == Finish(true) && s.batch.Batch? && s.batch.last == Checkpoint(s.log)
  }

  ghost function GoodBatches(cfg: Config, s: State, trace: seq<Event>, s': State): nat
    requires Run(cfg, s, trace, s')
    decreases |trace|
  {
    if trace == [] then 0
    else (if Good(s, trace[0]) then 1 else 0) + GoodBatches(cfg, Apply(cfg, s, trace[0]), trace[1..], s')
  }

  /** The first items of a set and what lies above them make up the set. */
  lemma FirstSplits(ids: set<int>, n: nat, items: seq<int>)
    requires IsFirst(ids, n, items) && items != []
    ensures
      var rest := Above(ids, items[|items| - 1]);
      Elements(items) !! rest && Elements(items) + rest == ids
  {
    var top := items[|items| - 1];
    forall x | x in items
      ensures x <= top
    {
      var i :| 0 <= i < |items| && items[i] == x;
    }
    forall x | x in ids && x !in items
      ensures x > top
    {
      assert items[|items| - 1] < x;
    }
  }

  lemma FirstTakes(ids: set<int>, n: nat, items: seq<int>)
    requires IsFirst(ids, n, items) && items != []
    ensures |Above(ids, items[|items| - 1])| == |ids| - |items|
  {
    FirstSplits(ids, n, items);
    NoDuplicatesSize(items);
    var rest := Above(ids, items[|items| - 1]);
    assert |Elements(items) + rest| == |Elements(items)| + |rest|;
  }

  lemma AboveTwice(ids: set<int>, last: int, top: int)
    requires last < top
    ensures Above(Above(ids, last), top) == Above(ids, top)
  {
  }

  lemma BatchDrains(ids: set<int>, last: int, n: nat)
    requires n >= 1
    ensures
      var items := First(Above(ids, last), n);
      items != [] ==>
        |Above(ids, items[|items| - 1])| == |Above(ids, last)| - |items|
        && |items| == (if n <= |Above(ids, last)| then n else |Above(ids, last)|)
  {
    var pending := Above(ids, last);
    var items := First(pending, n);
    FirstIsFirst(pending, n);
    if items != [] {
      assert items[|items| - 1] in pending;
      FirstTakes(pending, n, items);
      AboveTwice(ids, last, items[|items| - 1]);
    }
  }

  lemma StepDrains(cfg: Config, w: World, s: State, e: Event)
    requires Setting(cfg, w) && All(cfg, w, s) && Enabled(cfg, s, e)
    ensures
      var left := Remaining(w, s.log);
      Remaining(w, Apply(cfg, s, e).log) <= if !Good(s, e) then left else if left <= Limit(cfg) then 0 else left - Limit(cfg)
  {
    var t := Apply(cfg, s, e);
    if Good(s, e) {
      BatchDrains(w.rows.Keys, s.batch.last, Limit(cfg));
      FirstIsFirst(Above(w.rows.Keys, s.batch.last), Limit(cfg));
      assert s.batch.items[|s.batch.items| - 1] in Above(w.rows.Keys, s.batch.last);
      CheckpointNonNegative(s.log);
      CheckpointGrows(s.log, Highest(s.batch));
    } else {
      CheckpointStep(cfg, w, s, e);
      SubsetSize(Above(w.rows.Keys, Checkpoint(t.log)), Above(w.rows.Keys, Checkpoint(s.log)));
    }
  }

  /** One more good batch, in numbers: each takes up to limit from what is left. */
  lemma DrainOnce(left: nat, mid: nat, end: nat, good: bool, k: nat, limit: nat)
    requires mid <= if !good then left else if left <= limit then 0 else left - limit
    requires end <= if mid <= k * limit then 0 else mid - k * limit
    ensures
      var done := ((if good then 1 else 0) + k) * limit;
      end <= if left <= done then 0 else left - done
  {
    assert (1 + k) * limit == k * limit + limit;
  }

  lemma {:induction false} RunDrains(cfg: Config, w: World, s: State, trace: seq<Event>, s': State)
    requires Setting(cfg, w) && All(cfg, w, s) && Run(cfg, s, trace, s')
    ensures
      var left, done := Remaining(w, s.log), GoodBatches(cfg, s, trace, s') * Limit(cfg);
      Remaining(w, s'.log) <= if left <= done then 0 else left - done
    decreases |trace|
  {
    if trace != [] {
      var t := Apply(cfg, s, trace[0]);
      StepKeepsAll(cfg, w, s, trace[0]);
      StepDrains(cfg, w, s, trace[0]);
      RunDrains(cfg, w, t, trace[1..], s');
      var k := GoodBatches(cfg, t, trace[1..], s');
      DrainOnce(Remaining(w, s.log), Remaining(w, t.log), Remaining(w, s'.log), Good(s, trace[0]), k, Limit(cfg));
    }
  }

  /**
   A table of n rows is drained by any ceil(n / limit) good batches, however many bad ones and
   crashes come between; if nothing failed besides, every row is then migrated or has no source.
   */
  lemma {:induction false} TableDrains(cfg: Config, w: World, trace: seq<Event>, s: State)
    requires Setting(cfg, w) && Run(cfg, InitialState(w), trace, s)
    requires GoodBatches(cfg, InitialState(w), trace, s) * Limit(cfg) >= |w.rows|
    ensures forall id | id in w.rows :: id <= Checkpoint(s.log)
    ensures !s.faulty ==> forall id | id in w.rows :: Migrated(cfg, w, s.files, s.rows, id)
  {
    InitAll(cfg, w);
    RunDrains(cfg, w, InitialState(w), trace, s);
    assert Above(w.rows.Keys, Checkpoint([])) <= w.rows.Keys;
    SubsetSize(Above(w.rows.Keys, Checkpoint([])), w.rows.Keys);
    assert Remaining(w, s.log) == 0;
    forall id | id in w.rows
      ensures id <= Checkpoint(s.log)
    {
      assert id !in Above(w.rows.Keys, Checkpoint(s.log));
    }
    assert Reachable(cfg, w, s);
    if !s.faulty {
      forall id | id in w.rows
        ensures Migrated(cfg, w, s.files, s.rows, id)
      {
        CheckpointMeansAttempted(cfg, w, s, id);
      }
    }
  }
}
