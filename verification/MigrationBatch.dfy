/**
 One migration batch as the service runs it, when workers happen to take their turns one after the
 other: the loop with its counters, the copy, the row update and the checkpoint. Every run of it is a
 run of the machine in Migration, so what MigrationRuns proves of all schedules holds of it.
 */
module MigrationBatch {
  import opened Content
  import opened Collections
  import opened Migration
  import opened MigrationRuns

  /**
   What fails while one row is migrated: blocked are the files that cannot be opened when its source
   is looked for; then making the directory, examining or creating the destination, or reading it back.
   A copy may fail once some number of bytes is written.
   */
  datatype Faults = Faults(blocked: set<string>, dir: bool, stat: bool, create: bool, hash: bool,
                           copyAfter: Option<nat>, remove: bool, update: bool)

  const NoFaults := Faults({}, false, false, false, false, None, false, false)

  function IO(f: Faults): PlaceIO {
    PlaceIO(!f.dir, !f.stat, !f.create, !f.hash)
  }

  /** Only opens fail that may. */
  ghost predicate Allowed(cfg: Config, faults: int -> Faults) {
    forall id :: MayFail(cfg, faults(id).blocked)
  }

  ghost predicate NeverFails(faults: int -> Faults) {
    forall id :: faults(id) == NoFaults
  }

  /** What MigrateLegacyFile returns. */
  datatype Placed = Placed(newPath: string, checksum: string, size: nat)

  /** A row of log_file_rsync. */
  datatype LogFile = LogFile(lastBinId: int, executed: seq<int>, errors: nat)

  /** The size of one write of the copy loop. */
  const CHUNK: nat := 32768

  function LastIds(entries: seq<LogFile>): seq<int> {
    seq(|entries|, i requires 0 <= i < |entries| => entries[i].lastBinId)
  }

  /** From one batch state to another only worker id moved, to pc. */
  ghost predicate Turned(s: State, t: State, id: int, pc: Worker) {
    && s.batch.Batch? && t.batch.Batch?
    && t.batch == s.batch.(workers := s.batch.workers[id := pc], executed := t.batch.executed, errors := t.batch.errors)
    && t.batch.executed == (if pc == Ended(true) then s.batch.executed + [id] else s.batch.executed)
    && t.batch.errors == (if pc == Ended(false) then s.batch.errors + 1 else s.batch.errors)
    && t.log == s.log
  }

  lemma RunSnoc(cfg: Config, s: State, trace: seq<Event>, s': State, e: Event)
    requires Run(cfg, s, trace, s') && Enabled(cfg, s', e)
    ensures Run(cfg, s, trace + [e], Apply(cfg, s', e))
    decreases |trace|
  {
    if trace == [] {
      assert trace + [e] == [e] && [e][1..] == [];
    } else {
      RunSnoc(cfg, Apply(cfg, s, trace[0]), trace[1..], s', e);
      assert (trace + [e])[1..] == trace[1..] + [e];
    }
  }

  lemma ReachableStep(cfg: Config, w: World, s: State, e: Event)
    requires Reachable(cfg, w, s) && Enabled(cfg, s, e)
    ensures Reachable(cfg, w, Apply(cfg, s, e))
  {
    var trace :| Run(cfg, InitialState(w), trace, s);
    RunSnoc(cfg, InitialState(w), trace, s, e);
  }

  /** What a worker with its source open relies on. */
  lemma PlacingIsSound(cfg: Config, w: World, s: State, id: int, plan: Plan)
    requires Setting(cfg, w) && Reachable(cfg, w, s) && At(s, id) && s.batch.workers[id] == Placing(plan)
    ensures plan.Copy? && plan.src in s.files && plan.src != plan.dest
  {
    ReachableAll(cfg, w, s);
    SoundPlan(cfg, w, s, id, plan);
  }

  lemma SoundPlan(cfg: Config, w: World, s: State, id: int, plan: Plan)
    requires SourcesSafe(cfg, w) && DiskOk(cfg, w, s.files) && WorkerOk(cfg, w, s, id, Placing(plan))
    ensures plan.Copy? && plan.src in s.files && plan.src != plan.dest
  {
    SourceStands(cfg, w, s.files, id, plan);
    assert DestOf(cfg, w, id, plan.dest) && IsDest(cfg, w, plan.dest);
  }

  // ---------- The steps of one copy ----------

  ghost predicate Holds(s: State, id: int, pc: Worker) {
    At(s, id) && s.batch.workers[id] == pc
  }

  lemma CreateStep(cfg: Config, s: State, id: int, plan: Plan, io: PlaceIO)
    requires Holds(s, id, Placing(plan)) && plan.Copy? && plan.src in s.files
    requires io.dir && io.create && !AlreadyThere(s.files, plan, io)
    ensures Enabled(cfg, s, Place(id, io))
    ensures
      var t := Apply(cfg, s, Place(id, io));
      Turned(s, t, id, Copying(plan, 0)) && Holds(t, id, Copying(plan, 0))
      && t.files == s.files[plan.dest := []] && t.rows == s.rows && t.marked == s.marked
      && (io == AllWell ==> t.faulty == s.faulty)
  {
  }

  lemma NoPlaceStep(cfg: Config, s: State, id: int, plan: Plan, io: PlaceIO)
    requires Holds(s, id, Placing(plan)) && plan.Copy?
    requires !io.dir || (!io.create && !AlreadyThere(s.files, plan, io))
    ensures Enabled(cfg, s, Place(id, io))
    ensures
      var t := Apply(cfg, s, Place(id, io));
      Turned(s, t, id, Ended(false)) && t.files == s.files && t.rows == s.rows && t.marked == s.marked
  {
  }

  lemma WriteStep(cfg: Config, s: State, id: int, plan: Plan, k: nat, n: nat)
    requires Holds(s, id, Copying(plan, k)) && plan.Copy? && plan.src in s.files && plan.dest in s.files
    requires k + n <= |s.files[plan.src]|
    ensures Enabled(cfg, s, Write(id, n))
    ensures
      var t := Apply(cfg, s, Write(id, n));
      Turned(s, t, id, Copying(plan, k + n)) && Holds(t, id, Copying(plan, k + n))
      && t.files == s.files[plan.dest := s.files[plan.dest] + s.files[plan.src][k..k + n]]
      && t.rows == s.rows && t.marked == s.marked && t.faulty == s.faulty
  {
  }

  lemma EndStep(cfg: Config, s: State, id: int, plan: Plan)
    requires plan.Copy? && plan.src in s.files && Holds(s, id, Copying(plan, |s.files[plan.src]|))
    ensures Enabled(cfg, s, CopyEnds(id))
    ensures
      var t := Apply(cfg, s, CopyEnds(id));
      var pc := ToMark(cfg, plan, s.files[plan.src], true);
      Turned(s, t, id, pc) && Holds(t, id, pc)
      && t.files == s.files && t.rows == s.rows && t.marked == s.marked && t.faulty == s.faulty
  {
  }

  lemma FailStep(cfg: Config, s: State, id: int, plan: Plan, k: nat, removed: bool)
    requires plan.Copy? && Holds(s, id, Copying(plan, k))
    ensures Enabled(cfg, s, CopyFails(id, removed))
    ensures
      var t := Apply(cfg, s, CopyFails(id, removed));
      Turned(s, t, id, Ended(false))
      && t.files == (if removed then s.files - {plan.dest} else s.files) && t.rows == s.rows && t.marked == s.marked
  {
  }

  lemma OpenStep(cfg: Config, s: State, id: int, blocked: set<string>, hashOk: bool)
    requires Holds(s, id, Opening) && MayFail(cfg, blocked)
    ensures Enabled(cfg, s, OpenSource(id, blocked, hashOk))
    ensures
      var t := Apply(cfg, s, OpenSource(id, blocked, hashOk));
      var pc := OpenedAs(cfg, s, id, blocked, hashOk);
      Turned(s, t, id, pc) && Holds(t, id, pc) && t.files == s.files && t.rows == s.rows && t.marked == s.marked
      && (blocked == {} && hashOk ==> t.faulty == s.faulty)
  {
  }

  lemma ShortcutStep(cfg: Config, s: State, id: int, plan: Plan, io: PlaceIO)
    requires Holds(s, id, Placing(plan)) && plan.Copy? && plan.src in s.files
    requires io.dir && AlreadyThere(s.files, plan, io)
    ensures Enabled(cfg, s, Place(id, io))
    ensures
      var t := Apply(cfg, s, Place(id, io));
      var pc := ToMark(cfg, plan, s.files[plan.dest], io.hash);
      Turned(s, t, id, pc) && Holds(t, id, pc)
      && t.files == s.files && t.rows == s.rows && t.marked == s.marked && (io == AllWell ==> t.faulty == s.faulty)
  {
  }

  lemma MarkStep(cfg: Config, s: State, id: int, pc: Worker, ok: bool)
    requires Holds(s, id, pc) && pc.Marking? && id in s.rows
    ensures Enabled(cfg, s, Mark(id, ok))
    ensures
      var t := Apply(cfg, s, Mark(id, ok));
      var after := if ok then Reporting else Ended(false);
      Turned(s, t, id, after) && Holds(t, id, after) && t.files == s.files && (ok ==> t.faulty == s.faulty)
      && t.rows == if ok then s.rows[id := s.rows[id].(path := NewPath(pc.plan), checksum := pc.checksum, size := pc.size, flag := "M")]
                   else s.rows
    ensures Apply(cfg, s, Mark(id, ok)).marked == if ok then s.marked[id := pc.plan] else s.marked
  {
  }

  lemma ReportStep(cfg: Config, s: State, id: int)
    requires Holds(s, id, Reporting)
    ensures Enabled(cfg, s, Report(id))
    ensures
      var t := Apply(cfg, s, Report(id));
      Turned(s, t, id, Ended(true)) && t.files == s.files && t.rows == s.rows && t.faulty == s.faulty
  {
  }

  // ---------- Turns of a batch ----------

  /** Between turns: so many items done, nobody at work, and the counters as given. */
  ghost predicate Between(s: State, last: int, items: seq<int>, next: nat, executed: seq<int>, errors: nat) {
    && s.batch.Batch? && s.batch.last == last && s.batch.items == items && s.batch.next == next && next <= |items|
    && s.batch.executed == executed && s.batch.errors == errors && InFlight(s.batch) == {}
  }

  /** Executed are the items that had a source or were done, errors the others, and every row is as planned. */
  ghost predicate AsPlanned(cfg: Config, w: World, files: Files, rows: map<int, Row>,
                            items: seq<int>, executed: seq<int>, errors: nat)
  {
    && (forall id | id in items :: id in w.rows && Migrated(cfg, w, files, rows, id))
    && Elements(executed) == Lacking(cfg, w, items, false) && errors == |Lacking(cfg, w, items, true)|
  }

  lemma DispatchStep(cfg: Config, s: State, last: int, items: seq<int>, next: nat, executed: seq<int>, errors: nat)
    requires Between(s, last, items, next, executed, errors) && next < |items| && items[next] in s.batch.snapshot
    ensures Enabled(cfg, s, Dispatch)
    ensures
      var t := Apply(cfg, s, Dispatch);
      var id := items[next];
      var skip := Asked(cfg, s.files, {}, id, s.batch.snapshot[id]).Skip?;
      && t.files == s.files && t.rows == s.rows && t.marked == s.marked && t.log == s.log && t.faulty == s.faulty
      && (skip ==> Between(t, last, items, next + 1, executed + [id], errors))
      && (!skip ==> Holds(t, id, Opening) && Dispatched(s, t, id))
  {
    assert |InFlight(s.batch)| == 0;
    var id := items[next];
    var t := Apply(cfg, s, Dispatch);
    if Skips(cfg, s) {
      assert InFlight(t.batch) <= InFlight(s.batch);
    }
  }

  ghost predicate Dispatched(s: State, t: State, id: int) {
    s.batch.Batch? && t.batch == s.batch.(next := s.batch.next + 1, workers := s.batch.workers[id := Opening])
  }

  /** A dispatched worker whose turn has ended leaves the batch between turns. */
  lemma TurnEnds(s: State, t: State, u: State, last: int, items: seq<int>, next: nat, executed: seq<int>, errors: nat, ok: bool)
    requires Between(s, last, items, next, executed, errors) && next < |items|
    requires Dispatched(s, t, items[next]) && Turned(t, u, items[next], Ended(ok))
    ensures Between(u, last, items, next + 1,
                    if ok then executed + [items[next]] else executed, if ok then errors else errors + 1)
  {
    forall j | j in InFlight(u.batch)
      ensures j in InFlight(s.batch)
    {
    }
  }

  lemma GrowFile(before: Files, files: Files, dest: string, data: Bytes, k: nat, n: nat)
    requires k + n <= |data| && files == before[dest := data[..k]]
    ensures files[dest := files[dest] + data[k..k + n]] == before[dest := data[..k + n]]
  {
    assert data[..k] + data[k..k + n] == data[..k + n];
  }

  lemma TurnedTwice(s: State, t: State, u: State, id: int, pc: Worker, pc': Worker)
    requires Turned(s, t, id, pc) && Turned(t, u, id, pc') && !pc.Ended?
    ensures Turned(s, u, id, pc')
  {
    assert s.batch.workers[id := pc][id := pc'] == s.batch.workers[id := pc'];
  }

  lemma RowsAreKept(cfg: Config, w: World, s: State)
    requires Setting(cfg, w) && Reachable(cfg, w, s)
    ensures s.rows.Keys == w.rows.Keys
    ensures s.batch.Batch? ==> forall id | id in s.batch.items :: id in s.batch.snapshot && id in s.rows
  {
    ReachableAll(cfg, w, s);
  }

  class MigrationService {
    const cfg: Config
    var files: Files
    var rows: map<int, Row>
    var entries: seq<LogFile>
    ghost var state: State

    constructor (cfg: Config, files: Files, rows: map<int, Row>)
      ensures this.cfg == cfg && this.files == files && this.rows == rows && entries == []
      ensures Synced() && state == InitialState(World(files, rows))
    {
      this.cfg, this.files, this.rows, this.entries := cfg, files, rows, [];
      this.state := InitialState(World(files, rows));
    }

    ghost predicate Synced()
      reads this
    {
      state.files == files && state.rows == rows && state.log == LastIds(entries)
    }

    /** The machine is at a state some run from w leads to. */
    ghost predicate Tracked(w: World)
      reads this
    {
      Setting(cfg, w) && Reachable(cfg, w, state)
    }

    ghost method Fire(w: World, e: Event)
      requires Tracked(w) && Enabled(cfg, state, e)
      modifies this`state
      ensures Tracked(w) && state == Apply(cfg, old(state), e)
    {
      ReachableStep(cfg, w, state, e);
      state := Apply(cfg, state, e);
    }

    /** How much of a file gets written, and whether that is the end of it. */
    static function Stop(size: nat, faults: Faults): (stop: nat)
      ensures stop <= size
    {
      if faults.copyAfter.Some? && faults.copyAfter.value < size then faults.copyAfter.value else size
    }

    /** The copy loop, up to stop bytes of a fresh destination. */
    method CopyBytes(ghost w: World, id: int, plan: Plan, stop: nat)
      requires Tracked(w) && Synced() && Holds(state, id, Copying(plan, 0))
      requires plan.Copy? && plan.src in files && plan.dest in files && plan.src != plan.dest
      requires files[plan.dest] == [] && stop <= |files[plan.src]|
      modifies this`files, this`state
      ensures Tracked(w) && Synced() && Holds(state, id, Copying(plan, stop))
      ensures Turned(old(state), state, id, Copying(plan, stop)) && state.faulty == old(state).faulty
      ensures files == old(files)[plan.dest := old(files)[plan.src][..stop]]
    {
      var data := files[plan.src];
      var k := 0;
      assert state.batch.workers == state.batch.workers[id := Copying(plan, 0)];
      assert files == old(files)[plan.dest := data[..0]];
      while k < stop
        invariant 0 <= k <= stop
        invariant Tracked(w) && Synced() && Holds(state, id, Copying(plan, k))
        invariant Turned(old(state), state, id, Copying(plan, k)) && state.faulty == old(state).faulty
        invariant files == old(files)[plan.dest := data[..k]]
      {
        var n := if stop - k < CHUNK then stop - k else CHUNK;
        ghost var was := state;
        WriteStep(cfg, state, id, plan, k, n);
        Fire(w, Write(id, n));
        TurnedTwice(old(state), was, state, id, Copying(plan, k), Copying(plan, k + n));
        GrowFile(old(files), files, plan.dest, data, k, n);
        files := files[plan.dest := files[plan.dest] + data[k..k + n]];
        k := k + n;
      }
    }

    /** Copies the source to the destination, from its first byte on, in chunks. */
    method CopyFile(ghost w: World, id: int, plan: Plan, faults: Faults) returns (ok: bool)
      requires Tracked(w) && Synced() && Holds(state, id, Placing(plan))
      requires plan.Copy? && plan.src in files && plan.src != plan.dest
      requires !faults.dir && !faults.create && !AlreadyThere(files, plan, IO(faults))
      modifies this`files, this`state
      ensures Tracked(w) && Synced()
      ensures
        var data := old(files)[plan.src];
        var stop := Stop(|data|, faults);
        && (ok <==> !(faults.copyAfter.Some? && faults.copyAfter.value <= |data|))
        && Turned(old(state), state, id, if ok then ToMark(cfg, plan, data, true) else Ended(false))
        && files == (if ok then old(files)[plan.dest := data]
                     else if faults.remove then old(files)[plan.dest := data[..stop]]
                     else old(files) - {plan.dest})
      ensures ok && IO(faults) == AllWell ==> state.faulty == old(state).faulty
    {
      var data := files[plan.src];
      CreateStep(cfg, state, id, plan, IO(faults));
      Fire(w, Place(id, IO(faults)));
      files := files[plan.dest := []];
      ghost var created := state;
      var stop := Stop(|data|, faults);
      CopyBytes(w, id, plan, stop);
      TurnedTwice(old(state), created, state, id, Copying(plan, 0), Copying(plan, stop));
      ghost var copied := state;
      ok := !(faults.copyAfter.Some? && faults.copyAfter.value <= |data|);
      assert data[..|data|] == data;
      EndCopy(w, id, plan, stop, ok, faults.remove);
      TurnedTwice(old(state), copied, state, id, Copying(plan, stop),
                  if ok then ToMark(cfg, plan, data, true) else Ended(false));
    }

    /** Keeps a whole copy; a broken one is removed, if that works. */
    method EndCopy(ghost w: World, id: int, plan: Plan, stop: nat, whole: bool, removeFails: bool)
      requires Tracked(w) && Synced() && Holds(state, id, Copying(plan, stop))
      requires plan.Copy? && plan.src in files && (whole ==> stop == |files[plan.src]|)
      modifies this`files, this`state
      ensures Tracked(w) && Synced()
      ensures Turned(old(state), state, id,
                     if whole then ToMark(cfg, plan, old(files)[plan.src], true) else Ended(false))
      ensures files == if whole || removeFails then old(files) else old(files) - {plan.dest}
      ensures whole ==> state.faulty == old(state).faulty
    {
      if whole {
        EndStep(cfg, state, id, plan);
        Fire(w, CopyEnds(id));
      } else {
        FailStep(cfg, state, id, plan, stop, !removeFails);
        Fire(w, CopyFails(id, !removeFails));
        if !removeFails {
          files := files - {plan.dest};
        }
      }
    }

    /** Finds the source and puts its bytes at the destination, unless they are there already. */
    method MigrateLegacyFile(ghost w: World, id: int, row: Row, faults: Faults) returns (placed: Option<Placed>, ghost pc: Worker, ghost placedBy: Plan)
      requires Tracked(w) && Synced() && Holds(state, id, Opening) && state.batch.snapshot[id] == row
      requires !Asked(cfg, files, {}, id, row).Skip? && MayFail(cfg, faults.blocked)
      modifies this`files, this`state
      ensures Tracked(w) && Synced() && Turned(old(state), state, id, pc)
      ensures pc == match placed
                    case None => Ended(false)
                    case Some(p) => Marking(placedBy, p.checksum, p.size, pc.Marking? && pc.hashed)
      ensures placed.Some? ==> placed.value.newPath == NewPath(placedBy)
      ensures faults == NoFaults ==> state.faulty == old(state).faulty
    {
      var plan := Asked(cfg, files, faults.blocked, id, row);
      placedBy := plan;
      pc := OpenedAs(cfg, state, id, faults.blocked, !faults.hash);
      OpenStep(cfg, state, id, faults.blocked, !faults.hash);
      Fire(w, OpenSource(id, faults.blocked, !faults.hash));
      match plan
      case NotFound => return None, pc, plan;
      case Keep(newPath, at) =>
        var data := if at in files then files[at] else [];
        return Some(Placed(newPath, if faults.hash then "" else cfg.hash(data), |data|)), pc, plan;
      case Copy(newPath, dest, src) =>
        PlacingIsSound(cfg, w, state, id, plan);
        ghost var placing := state;
        if faults.dir {
          NoPlaceStep(cfg, state, id, plan, IO(faults));
          Fire(w, Place(id, IO(faults)));
          TurnedTwice(old(state), placing, state, id, Placing(plan), Ended(false));
          return None, Ended(false), plan;
        }
        if !faults.stat && dest in files && |files[dest]| == |files[src]| {
          ShortcutStep(cfg, state, id, plan, IO(faults));
          pc := ToMark(cfg, plan, files[dest], !faults.hash);
          Fire(w, Place(id, IO(faults)));
          TurnedTwice(old(state), placing, state, id, Placing(plan), pc);
          return Some(Placed(newPath, if faults.hash then "" else cfg.hash(files[dest]), |files[dest]|)), pc, plan;
        }
        if faults.create {
          NoPlaceStep(cfg, state, id, plan, IO(faults));
          Fire(w, Place(id, IO(faults)));
          TurnedTwice(old(state), placing, state, id, Placing(plan), Ended(false));
          return None, Ended(false), plan;
        }
        var data := files[src];
        var ok := CopyFile(w, id, plan, faults);
        pc := if ok then ToMark(cfg, plan, data, true) else Ended(false);
        TurnedTwice(old(state), placing, state, id, Placing(plan), pc);
        placed := if ok then Some(Placed(newPath, cfg.hash(data), |data|)) else None;
    }

    /** What a worker does for one row, from its slot to its report. */
    method Work(ghost w: World, id: int, row: Row, faults: Faults) returns (ok: bool)
      requires Tracked(w) && Synced() && Holds(state, id, Opening) && state.batch.snapshot[id] == row
      requires !Asked(cfg, files, {}, id, row).Skip? && MayFail(cfg, faults.blocked)
      modifies this`files, this`rows, this`state
      ensures Tracked(w) && Synced() && Turned(old(state), state, id, Ended(ok))
      ensures faults == NoFaults ==> state.faulty == old(state).faulty
    {
      var placed;
      ghost var pc, placedBy;
      placed, pc, placedBy := MigrateLegacyFile(w, id, row, faults);
      ghost var was := state;
      if placed.None? {
        return false;
      }
      RowsAreKept(cfg, w, state);
      RowIsThere(w, id);
      MarkStep(cfg, state, id, pc, !faults.update);
      Fire(w, Mark(id, !faults.update));
      ghost var marked := state;
      TurnedTwice(old(state), was, marked, id, pc, if faults.update then Ended(false) else Reporting);
      if faults.update {
        return false;
      }
      var p := placed.value;
      rows := rows[id := rows[id].(path := p.newPath, checksum := p.checksum, size := p.size, flag := "M")];
      ReportStep(cfg, state, id);
      Fire(w, Report(id));
      TurnedTwice(old(state), marked, state, id, Reporting, Ended(true));
      ok := true;
    }

    lemma RowIsThere(w: World, id: int)
      requires Tracked(w) && Synced() && At(state, id)
      ensures id in rows
    {
      ReachableAll(cfg, w, state);
      assert id in state.batch.items[..state.batch.next];
    }

    /** The turn of one row: skipped, or given a worker. */
    method Turn(ghost w: World, last: int, items: seq<int>, next: nat, executed: seq<int>, errors: nat, faults: Faults)
        returns (executed': seq<int>, errors': nat)
      requires Tracked(w) && Synced() && Between(state, last, items, next, executed, errors) && next < |items|
      requires MayFail(cfg, faults.blocked)
      requires items[next] in rows && items[next] in state.batch.snapshot && state.batch.snapshot[items[next]] == rows[items[next]]
      modifies this`files, this`rows, this`state
      ensures Tracked(w) && Synced() && Between(state, last, items, next + 1, executed', errors')
      ensures state.log == old(state).log
      ensures faults == NoFaults ==> state.faulty == old(state).faulty
    {
      var id := items[next];
      var row := rows[id];
      DispatchStep(cfg, state, last, items, next, executed, errors);
      Fire(w, Dispatch);
      if Asked(cfg, files, {}, id, row).Skip? {
        return executed + [id], errors;
      }
      ghost var dispatched := state;
      var ok := Work(w, id, row, faults);
      TurnEnds(old(state), dispatched, state, last, items, next, executed, errors, ok);
      executed' := if ok then executed + [id] else executed;
      errors' := if ok then errors else errors + 1;
    }

    /**
     One batch. The checkpoint and the pending rows are what the database answers; faults says what
     fails for each row. Executed and errors add up to the batch; if nothing ever failed, executed are
     the rows that had a source or were done, errors those that had none, and every row is as planned.
     */
    method RunMigrationBatch(ghost w: World, readOk: bool, lastBinId: int, pending: seq<int>, faults: int -> Faults, logOk: bool)
        returns (executed: seq<int>, errors: nat)
      requires Tracked(w) && Synced() && state.batch.NoBatch?
      requires lastBinId == if readOk then Checkpoint(LastIds(entries)) else 0
      requires pending == GetPendingFiles(rows, lastBinId, Limit(cfg)) && Allowed(cfg, faults)
      modifies this
      ensures Tracked(w) && Synced() && state.batch.NoBatch?
      ensures pending == [] ==> entries == old(entries) && rows == old(rows) && files == old(files)
      ensures pending != [] ==>
        entries == if logOk then old(entries) + [LogFile(pending[|pending| - 1], executed, errors)] else old(entries)
      ensures |executed| + errors == |pending| && NoDuplicates(executed) && Elements(executed) <= Elements(pending)
      ensures !old(state).faulty && NeverFails(faults) ==>
        !state.faulty && AsPlanned(cfg, w, files, rows, pending, executed, errors)
    {
      executed, errors := [], 0;
      if |pending| == 0 {
        assert Lacking(cfg, w, pending, true) == {} && Lacking(cfg, w, pending, false) == {};
        return;
      }
      PendingAscends(lastBinId, pending);
      BeginStep(cfg, state, readOk, lastBinId, pending);
      Fire(w, StartBatch(readOk));
      var highestBinId;
      executed, errors, highestBinId := RunTurns(w, lastBinId, pending, faults);
      WriteCheckpoint(w, lastBinId, pending, executed, errors, highestBinId, logOk);
    }

    /** All turns taken: the checkpoint row, whose own failure is ignored. */
    method WriteCheckpoint(ghost w: World, lastBinId: int, pending: seq<int>, executed: seq<int>, errors: nat, highestBinId: int, logOk: bool)
      requires Tracked(w) && Synced() && pending != []
      requires Between(state, lastBinId, pending, |pending|, executed, errors)
      requires highestBinId == pending[|pending| - 1] > lastBinId
      modifies this`entries, this`state
      ensures Tracked(w) && Synced() && state.batch.NoBatch? && state.faulty == old(state).faulty
      ensures entries == if logOk then old(entries) + [LogFile(highestBinId, executed, errors)] else old(entries)
      ensures |executed| + errors == |pending| && NoDuplicates(executed) && Elements(executed) <= Elements(pending)
      ensures !state.faulty ==> AsPlanned(cfg, w, files, rows, pending, executed, errors)
    {
      FinishStep(cfg, w, state, lastBinId, pending, executed, errors, logOk);
      Fire(w, Finish(logOk));
      if |executed| > 0 || highestBinId > lastBinId {
        if logOk {
          entries := entries + [LogFile(highestBinId, executed, errors)];
          assert LastIds(entries) == LastIds(old(entries)) + [highestBinId];
        }
      }
    }

    /** The loop over the pending rows, with its counters. */
    method RunTurns(ghost w: World, lastBinId: int, pending: seq<int>, faults: int -> Faults)
        returns (executed: seq<int>, errors: nat, highestBinId: int)
      requires Tracked(w) && Synced() && Between(state, lastBinId, pending, 0, [], 0) && Allowed(cfg, faults)
      requires forall i | 0 <= i < |pending| :: pending[i] > lastBinId
      requires forall i, j | 0 <= i < j < |pending| :: pending[i] < pending[j]
      modifies this`files, this`rows, this`state
      ensures Tracked(w) && Synced() && Between(state, lastBinId, pending, |pending|, executed, errors)
      ensures highestBinId == if pending == [] then lastBinId else pending[|pending| - 1]
      ensures !old(state).faulty && NeverFails(faults) ==> !state.faulty
    {
      executed, errors, highestBinId := [], 0, lastBinId;
      var i := 0;
      while i < |pending|
        invariant 0 <= i <= |pending|
        invariant Tracked(w) && Synced() && Between(state, lastBinId, pending, i, executed, errors)
        invariant highestBinId == if i == 0 then lastBinId else pending[i - 1]
        invariant !old(state).faulty && NeverFails(faults) ==> !state.faulty
      {
        var id := pending[i];
        if id > highestBinId {
          highestBinId := id;
        }
        RowIsCurrent(w, i);
        executed, errors := Turn(w, lastBinId, pending, i, executed, errors, faults(id));
        i := i + 1;
      }
    }

    /** The row the next turn reads is still as the batch read it. */
    lemma RowIsCurrent(w: World, next: nat)
      requires Tracked(w) && Synced() && state.batch.Batch? && state.batch.next == next && next < |state.batch.items|
      ensures
        var id := state.batch.items[next];
        id in rows && id in state.batch.snapshot && state.batch.snapshot[id] == rows[id]
    {
      ReachableAll(cfg, w, state);
      NextIsNew(state.batch, state.rows);
    }

    lemma PendingAscends(last: int, pending: seq<int>)
      requires pending == GetPendingFiles(rows, last, Limit(cfg))
      ensures forall i | 0 <= i < |pending| :: pending[i] > last
      ensures forall i, j | 0 <= i < j < |pending| :: pending[i] < pending[j]
    {
      FirstIsFirst(Above(rows.Keys, last), Limit(cfg));
    }
  }

  lemma BeginStep(cfg: Config, s: State, readOk: bool, last: int, pending: seq<int>)
    requires s.batch.NoBatch? && last == (if readOk then Checkpoint(s.log) else 0)
    requires pending == GetPendingFiles(s.rows, last, Limit(cfg)) && pending != []
    ensures Enabled(cfg, s, StartBatch(readOk))
    ensures
      var t := Apply(cfg, s, StartBatch(readOk));
      Between(t, last, pending, 0, [], 0)
      && t.files == s.files && t.rows == s.rows && t.marked == s.marked && t.log == s.log && t.faulty == s.faulty
  {
  }

  /** All turns taken, the checkpoint can be written, and the counters mean what they should. */
  lemma FinishStep(cfg: Config, w: World, s: State, last: int, items: seq<int>, executed: seq<int>, errors: nat, logOk: bool)
    requires Setting(cfg, w) && Reachable(cfg, w, s) && Between(s, last, items, |items|, executed, errors) && items != []
    ensures Enabled(cfg, s, Finish(logOk))
    ensures
      var t := Apply(cfg, s, Finish(logOk));
      && t.batch.NoBatch? && t.files == s.files && t.rows == s.rows && t.marked == s.marked && t.faulty == s.faulty
      && t.log == if logOk then s.log + [items[|items| - 1]] else s.log
    ensures |executed| + errors == |items| && NoDuplicates(executed) && Elements(executed) <= Elements(items)
    ensures !s.faulty ==> AsPlanned(cfg, w, s.files, s.rows, items, executed, errors)
  {
    BatchAccounts(cfg, w, s, logOk);
    if !s.faulty {
      BatchOutcomeIsDetermined(cfg, w, s, logOk);
    }
  }
}
