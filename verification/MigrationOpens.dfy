/**
 What failed opens cost. Looking for a row's source passes over files that cannot be opened, so a later
 one may be copied in its place. Runs keep every row's own bytes exactly when no row has such a later
 file with other content.
 */
module MigrationOpens {
  import opened Content
  import opened Collections
  import opened Migration
  import opened MigrationRuns
  import opened MigrationBatch

  /** Marked rows name copies of their own sources. */
  ghost predicate BytesAreRight(cfg: Config, w: World, s: State) {
    forall id | id in s.marked ::
      && Rewrites(cfg, w, id) && Source(cfg, w, id) in w.files && PlaceOf(s.marked[id]) in s.files
      && s.files[PlaceOf(s.marked[id])] == w.files[Source(cfg, w, id)]
  }

  /** Destinations are beginnings of their rows' own sources. */
  ghost predicate PrefixesAreRight(cfg: Config, w: World, s: State) {
    forall id, p | Possible(cfg, w, id, p) && p.Copy? && p.dest in s.files ::
      Rewrites(cfg, w, id) && Source(cfg, w, id) in w.files && s.files[p.dest] <= w.files[Source(cfg, w, id)]
  }

  /** No destination exists yet. */
  ghost predicate NotBegun(cfg: Config, w: World) {
    forall k | IsDest(cfg, w, k) :: k !in w.files
  }

  lemma AgreeingRowsStayRight(cfg: Config, w: World, s: State)
    requires Setting(cfg, w) && Reachable(cfg, w, s)
    requires forall id | id in w.rows :: Agrees(cfg, w, id)
    ensures BytesAreRight(cfg, w, s) && PrefixesAreRight(cfg, w, s)
  {
    ReachableAll(cfg, w, s);
    forall id | id in s.marked
      ensures Rewrites(cfg, w, id) && Source(cfg, w, id) in w.files && PlaceOf(s.marked[id]) in s.files
              && s.files[PlaceOf(s.marked[id])] == w.files[Source(cfg, w, id)]
    {
      MarkedRowsAreTrue(cfg, w, s, id);
    }
    forall id, p | Possible(cfg, w, id, p) && p.Copy? && p.dest in s.files
      ensures Rewrites(cfg, w, id) && Source(cfg, w, id) in w.files && s.files[p.dest] <= w.files[Source(cfg, w, id)]
    {
      DestinationsArePrefixes(cfg, w, s, id, p);
    }
  }

  /**
   All runs, with any of the opens failing that may, keep marked rows and destinations to each row's
   own source exactly when the sources a row may be given have one content.
   */
  lemma FailedOpensAreHarmlessIff(cfg: Config, w: World)
    requires Setting(cfg, w) && NotBegun(cfg, w)
    ensures (forall s | Reachable(cfg, w, s) :: BytesAreRight(cfg, w, s) && PrefixesAreRight(cfg, w, s)) <==>
      forall id | id in w.rows :: Agrees(cfg, w, id)
  {
    if forall id | id in w.rows :: Agrees(cfg, w, id) {
      forall s | Reachable(cfg, w, s)
        ensures BytesAreRight(cfg, w, s) && PrefixesAreRight(cfg, w, s)
      {
        AgreeingRowsStayRight(cfg, w, s);
      }
    } else {
      var id :| id in w.rows && !Agrees(cfg, w, id);
      var p := OtherContent(cfg, w, id);
      var s := DivertedRun(cfg, w, id, p);
    }
  }

  lemma OtherContent(cfg: Config, w: World, id: int) returns (p: Plan)
    requires SourcesSafe(cfg, w) && id in w.rows && !Agrees(cfg, w, id)
    ensures Possible(cfg, w, id, p) && Rewriting(p) && SourceOf(p) in w.files
    ensures Rewrites(cfg, w, id) && Source(cfg, w, id) in w.files && w.files[SourceOf(p)] != w.files[Source(cfg, w, id)]
  {
    PlanIsPossible(cfg, w, id);
    var x, y :| Possible(cfg, w, id, x) && Possible(cfg, w, id, y) && Rewriting(x) && Rewriting(y)
                && SourceOf(x) in w.files && SourceOf(y) in w.files && w.files[SourceOf(x)] != w.files[SourceOf(y)];
    assert Rewrites(cfg, w, id);
    assert SourceOf(PlanAt(cfg, w, id)) in w.files;
    p := if w.files[SourceOf(x)] != w.files[Source(cfg, w, id)] then x else y;
  }

  // ---------- The run that goes wrong ----------

  /** Nothing has been done for the row. */
  ghost predicate Untouched(cfg: Config, w: World, s: State, id: int) {
    id !in s.marked && forall k | DestOf(cfg, w, id, k) :: k !in s.files
  }

  /** A failing open makes the worker of the row copy, or keep, another file, and mark the row. */
  lemma DivertedRun(cfg: Config, w: World, id: int, p: Plan) returns (s: State)
    requires Setting(cfg, w) && NotBegun(cfg, w)
    requires Possible(cfg, w, id, p) && Rewriting(p) && SourceOf(p) in w.files
    requires Rewrites(cfg, w, id) && Source(cfg, w, id) in w.files && w.files[SourceOf(p)] != w.files[Source(cfg, w, id)]
    ensures Reachable(cfg, w, s) && id in s.marked && s.marked[id] == p
    ensures PlaceOf(p) in s.files && s.files[PlaceOf(p)] == w.files[SourceOf(p)]
    ensures !BytesAreRight(cfg, w, s)
  {
    var start := InitialState(w);
    assert Run(cfg, start, [], start);
    assert Reachable(cfg, w, start);
    assert Untouched(cfg, w, start, id) by {
      forall k | DestOf(cfg, w, id, k)
        ensures k !in w.files
      {
        assert IsDest(cfg, w, k);
      }
    }
    assert Checkpoint([]) == 0;
    var last, items, k, executed, errors;
    s, last, items, k, executed, errors := ReachTurn(cfg, w, start, id);
    s := LastTurn(cfg, w, s, last, items, k, executed, errors, p);
  }

  /** The turn of any other row can be taken without touching this one. */
  lemma PassItem(cfg: Config, w: World, s: State, last: int, items: seq<int>, k: nat, executed: seq<int>, errors: nat, id: int)
      returns (u: State, executed': seq<int>, errors': nat)
    requires Setting(cfg, w) && Reachable(cfg, w, s) && Untouched(cfg, w, s, id)
    requires Between(s, last, items, k, executed, errors) && k < |items| && items[k] != id
    ensures Reachable(cfg, w, u) && Untouched(cfg, w, u, id) && Between(u, last, items, k + 1, executed', errors') && u.log == s.log
  {
    var j := items[k];
    RowsAreKept(cfg, w, s);
    DispatchStep(cfg, s, last, items, k, executed, errors);
    ReachableStep(cfg, w, s, Dispatch);
    var t := Apply(cfg, s, Dispatch);
    if Asked(cfg, s.files, {}, j, s.batch.snapshot[j]).Skip? {
      return t, executed + [j], errors;
    }
    var ok;
    u, ok := SpoilTurn(cfg, w, t, j, id);
    TurnEnds(s, t, u, last, items, k, executed, errors, ok);
    executed' := if ok then executed + [j] else executed;
    errors' := if ok then errors else errors + 1;
  }

  /** A worker's turn that ends early: its copy or its row update fails. */
  lemma SpoilTurn(cfg: Config, w: World, s: State, j: int, id: int) returns (u: State, ok: bool)
    requires Setting(cfg, w) && Reachable(cfg, w, s) && Untouched(cfg, w, s, id) && Holds(s, j, Opening) && j != id
    ensures Reachable(cfg, w, u) && Untouched(cfg, w, u, id) && Turned(s, u, j, Ended(ok))
  {
    assert MayFail(cfg, {});
    OpenStep(cfg, s, j, {}, true);
    ReachableStep(cfg, w, s, OpenSource(j, {}, true));
    var pc := OpenedAs(cfg, s, j, {}, true);
    var t := Apply(cfg, s, OpenSource(j, {}, true));
    if pc.Ended? {
      return t, pc.ok;
    }
    if pc.Marking? {
      u := SpoilMark(cfg, w, t, j, pc);
    } else {
      u := SpoilCopy(cfg, w, t, j, pc.plan, id);
    }
    TurnedTwice(s, t, u, j, pc, Ended(false));
    ok := false;
  }

  lemma SpoilMark(cfg: Config, w: World, s: State, j: int, pc: Worker) returns (u: State)
    requires Setting(cfg, w) && Reachable(cfg, w, s) && Holds(s, j, pc) && pc.Marking?
    ensures Reachable(cfg, w, u) && Turned(s, u, j, Ended(false)) && u.files == s.files && u.marked == s.marked
  {
    WorkerHasRow(cfg, w, s, j);
    MarkStep(cfg, s, j, pc, false);
    ReachableStep(cfg, w, s, Mark(j, false));
    u := Apply(cfg, s, Mark(j, false));
  }

  lemma WorkerHasRow(cfg: Config, w: World, s: State, j: int)
    requires Setting(cfg, w) && Reachable(cfg, w, s) && At(s, j)
    ensures j in s.rows && WorkerOk(cfg, w, s, j, s.batch.workers[j])
  {
    ReachableAll(cfg, w, s);
  }

  lemma SpoilCopy(cfg: Config, w: World, s: State, j: int, plan: Plan, id: int) returns (u: State)
    requires Setting(cfg, w) && Reachable(cfg, w, s) && Untouched(cfg, w, s, id) && Holds(s, j, Placing(plan)) && j != id
    ensures Reachable(cfg, w, u) && Untouched(cfg, w, u, id) && Turned(s, u, j, Ended(false))
  {
    PlacingIsSound(cfg, w, s, j, plan);
    WorkerHasRow(cfg, w, s, j);
    assert DestOf(cfg, w, j, plan.dest);
    if plan.dest in s.files && |s.files[plan.dest]| == |s.files[plan.src]| {
      ShortcutStep(cfg, s, j, plan, AllWell);
      ReachableStep(cfg, w, s, Place(j, AllWell));
      var t := Apply(cfg, s, Place(j, AllWell));
      var pc := ToMark(cfg, plan, s.files[plan.dest], true);
      u := SpoilMark(cfg, w, t, j, pc);
      TurnedTwice(s, t, u, j, pc, Ended(false));
    } else {
      CreateStep(cfg, s, j, plan, AllWell);
      ReachableStep(cfg, w, s, Place(j, AllWell));
      var t := Apply(cfg, s, Place(j, AllWell));
      FailStep(cfg, t, j, plan, 0, false);
      ReachableStep(cfg, w, t, CopyFails(j, false));
      u := Apply(cfg, t, CopyFails(j, false));
      TurnedTwice(s, t, u, j, Copying(plan, 0), Ended(false));
    }
  }

  lemma {:induction false} PassTo(cfg: Config, w: World, s: State, last: int, items: seq<int>, i: nat, k: nat,
                                  executed: seq<int>, errors: nat, id: int)
      returns (u: State, executed': seq<int>, errors': nat)
    requires Setting(cfg, w) && Reachable(cfg, w, s) && Untouched(cfg, w, s, id)
    requires Between(s, last, items, i, executed, errors) && i <= k <= |items| && forall m | i <= m < k :: items[m] != id
    ensures Reachable(cfg, w, u) && Untouched(cfg, w, u, id) && Between(u, last, items, k, executed', errors') && u.log == s.log
    decreases k - i
  {
    if i == k {
      u, executed', errors' := s, executed, errors;
    } else {
      u, executed', errors' := PassItem(cfg, w, s, last, items, i, executed, errors, id);
      u, executed', errors' := PassTo(cfg, w, u, last, items, i + 1, k, executed', errors', id);
    }
  }

  /** Batch by batch, the turn of any row beyond the checkpoint comes. */
  lemma {:induction false} ReachTurn(cfg: Config, w: World, s: State, id: int)
      returns (u: State, last: int, items: seq<int>, k: nat, executed: seq<int>, errors: nat)
    requires Setting(cfg, w) && Reachable(cfg, w, s) && Untouched(cfg, w, s, id) && s.batch.NoBatch?
    requires id in w.rows && id > Checkpoint(s.log)
    ensures Reachable(cfg, w, u) && Untouched(cfg, w, u, id)
    ensures Between(u, last, items, k, executed, errors) && k < |items| && items[k] == id
    decreases |Above(w.rows.Keys, Checkpoint(s.log))|
  {
    last := Checkpoint(s.log);
    items := GetPendingFiles(s.rows, last, Limit(cfg));
    RowsAreKept(cfg, w, s);
    FirstIsFirst(Above(w.rows.Keys, last), Limit(cfg));
    assert id in Above(w.rows.Keys, last);
    BeginStep(cfg, s, true, last, items);
    ReachableStep(cfg, w, s, StartBatch(true));
    var t := Apply(cfg, s, StartBatch(true));
    if id in items {
      k :| 0 <= k < |items| && items[k] == id;
      u, executed, errors := PassTo(cfg, w, t, last, items, 0, k, [], 0, id);
    } else {
      t, executed, errors := PassTo(cfg, w, t, last, items, 0, |items|, [], 0, id);
      FinishStep(cfg, w, t, last, items, executed, errors, true);
      ReachableStep(cfg, w, t, Finish(true));
      CheckpointMoves(cfg, w, t, items, last);
      t := Apply(cfg, t, Finish(true));
      u, last, items, k, executed, errors := ReachTurn(cfg, w, t, id);
    }
  }

  lemma CheckpointMoves(cfg: Config, w: World, s: State, items: seq<int>, last: int)
    requires Setting(cfg, w) && Reachable(cfg, w, s) && last == Checkpoint(s.log) && items != []
    requires items == First(Above(w.rows.Keys, last), Limit(cfg))
    ensures
      var after := Checkpoint(s.log + [items[|items| - 1]]);
      after == items[|items| - 1] && |Above(w.rows.Keys, after)| < |Above(w.rows.Keys, last)|
  {
    ReachableAll(cfg, w, s);
    FirstIsFirst(Above(w.rows.Keys, last), Limit(cfg));
    assert items[|items| - 1] in Above(w.rows.Keys, last);
    CheckpointNonNegative(s.log);
    CheckpointGrows(s.log, items[|items| - 1]);
    BatchDrains(w.rows.Keys, last, Limit(cfg));
  }

  lemma LastTurn(cfg: Config, w: World, s: State, last: int, items: seq<int>, k: nat, executed: seq<int>, errors: nat, p: Plan)
      returns (u: State)
    requires Setting(cfg, w) && Reachable(cfg, w, s) && Between(s, last, items, k, executed, errors) && k < |items|
    requires Untouched(cfg, w, s, items[k]) && Possible(cfg, w, items[k], p) && Rewriting(p) && SourceOf(p) in w.files
    ensures
      var id := items[k];
      Reachable(cfg, w, u) && id in u.marked && u.marked[id] == p
      && PlaceOf(p) in u.files && u.files[PlaceOf(p)] == w.files[SourceOf(p)]
  {
    var id := items[k];
    RowsAreKept(cfg, w, s);
    NotSkipped(cfg, w, s, k, id);
    DispatchStep(cfg, s, last, items, k, executed, errors);
    ReachableStep(cfg, w, s, Dispatch);
    var t := Apply(cfg, s, Dispatch);
    var blocked :| MayFail(cfg, blocked) && p == Asked(cfg, w.files, blocked, id, w.rows[id]);
    OpensTo(cfg, w, t, id, blocked, p);
    OpenStep(cfg, t, id, blocked, true);
    ReachableStep(cfg, w, t, OpenSource(id, blocked, true));
    var o := Apply(cfg, t, OpenSource(id, blocked, true));
    if p.Copy? {
      assert DestOf(cfg, w, id, p.dest);
      u := CopyTurn(cfg, w, o, id, p);
    } else {
      SourceStands(cfg, w, o.files, id, p);
      u := MarkTurn(cfg, w, o, id, ToMark(cfg, p, o.files[p.at], true));
    }
  }

  lemma NotSkipped(cfg: Config, w: World, s: State, k: nat, id: int)
    requires Setting(cfg, w) && Reachable(cfg, w, s) && s.batch.Batch? && s.batch.next == k < |s.batch.items|
    requires s.batch.items[k] == id && id !in s.marked && Rewrites(cfg, w, id)
    ensures id in s.batch.snapshot && !Asked(cfg, s.files, {}, id, s.batch.snapshot[id]).Skip?
  {
    ReachableAll(cfg, w, s);
    NextIsNew(s.batch, s.rows);
    assert RowOk(cfg, w, s, id);
    CurrentPlan(cfg, w, s, id, {});
  }

  lemma OpensTo(cfg: Config, w: World, s: State, id: int, blocked: set<string>, p: Plan)
    requires Setting(cfg, w) && Reachable(cfg, w, s) && Holds(s, id, Opening) && id !in s.marked && id in w.rows
    requires p == Asked(cfg, w.files, blocked, id, w.rows[id]) && Rewriting(p) && Possible(cfg, w, id, p)
    ensures SameSources(cfg, w, s.files)
    ensures OpenedAs(cfg, s, id, blocked, true) ==
      if p.Copy? then Placing(p) else ToMark(cfg, p, if p.at in s.files then s.files[p.at] else [], true)
  {
    PlanStands(cfg, w, s, id, blocked);
  }

  lemma PlanStands(cfg: Config, w: World, s: State, id: int, blocked: set<string>)
    requires Setting(cfg, w) && Reachable(cfg, w, s) && At(s, id) && s.batch.workers[id].Opening?
    requires id !in s.marked && id in w.rows
    ensures SameSources(cfg, w, s.files)
    ensures Asked(cfg, s.files, blocked, id, s.batch.snapshot[id]) == Asked(cfg, w.files, blocked, id, w.rows[id])
  {
    OpenerIsCurrent(cfg, w, s, id);
    CurrentPlan(cfg, w, s, id, blocked);
  }

  lemma OpenerIsCurrent(cfg: Config, w: World, s: State, id: int)
    requires Setting(cfg, w) && Reachable(cfg, w, s) && At(s, id) && s.batch.workers[id].Opening?
    ensures DiskOk(cfg, w, s.files) && id in s.rows && RowOk(cfg, w, s, id) && s.batch.snapshot[id] == s.rows[id]
  {
    ReachableAll(cfg, w, s);
    assert id in Elements(s.batch.items[..s.batch.next]);
    assert id in s.batch.items;
  }

  lemma CopyTurn(cfg: Config, w: World, s: State, id: int, p: Plan) returns (u: State)
    requires Setting(cfg, w) && Reachable(cfg, w, s) && Holds(s, id, Placing(p)) && p.Copy? && p.dest !in s.files
    requires p.src in w.files && Possible(cfg, w, id, p)
    ensures Reachable(cfg, w, u) && id in u.marked && u.marked[id] == p
    ensures p.dest in u.files && u.files[p.dest] == w.files[p.src]
  {
    PlacingIsSound(cfg, w, s, id, p);
    WholeSource(cfg, w, s, id, p);
    var data := s.files[p.src];
    CreateStep(cfg, s, id, p, AllWell);
    ReachableStep(cfg, w, s, Place(id, AllWell));
    var t1 := Apply(cfg, s, Place(id, AllWell));
    WriteStep(cfg, t1, id, p, 0, |data|);
    ReachableStep(cfg, w, t1, Write(id, |data|));
    var t2 := Apply(cfg, t1, Write(id, |data|));
    assert [] + data[0..|data|] == data;
    EndStep(cfg, t2, id, p);
    ReachableStep(cfg, w, t2, CopyEnds(id));
    var t3 := Apply(cfg, t2, CopyEnds(id));
    u := MarkTurn(cfg, w, t3, id, ToMark(cfg, p, data, true));
  }

  lemma WholeSource(cfg: Config, w: World, s: State, id: int, p: Plan)
    requires Setting(cfg, w) && Reachable(cfg, w, s) && Possible(cfg, w, id, p) && Rewriting(p)
    ensures SourceOf(p) in w.files && SourceOf(p) in s.files && s.files[SourceOf(p)] == w.files[SourceOf(p)]
  {
    ReachableAll(cfg, w, s);
    SourceStands(cfg, w, s.files, id, p);
  }

  lemma MarkTurn(cfg: Config, w: World, s: State, id: int, pc: Worker) returns (u: State)
    requires Setting(cfg, w) && Reachable(cfg, w, s) && Holds(s, id, pc) && pc.Marking?
    ensures Reachable(cfg, w, u) && u.files == s.files && id in u.marked && u.marked[id] == pc.plan
  {
    WorkerHasRow(cfg, w, s, id);
    MarkStep(cfg, s, id, pc, true);
    ReachableStep(cfg, w, s, Mark(id, true));
    u := Apply(cfg, s, Mark(id, true));
  }
}
