/**
 Migration batches: a bounded pool of workers over the pending rows, a copy that may be cut off at
 any byte, a checkpoint log, and crashes and restarts at any step.

 What one row needs is decided by a planner, a function of the files, the id and the row. This
 module proves what holds for any planner that fits the table (Setting); module Planning has the
 planner the code uses and proves that it fits.
 */
module Migration {
  import opened Content
  import opened Collections

  /** A row of binary_file, as far as migration reads or writes it. */
  datatype Row = Row(module_: string, directory: string, fileName: string, path: string,
                     size: int, checksum: string, flag: string)

  type Files = map<string, Bytes>

  datatype Plan =
    | Skip                                            // already migrated
    | NotFound                                        // no source anywhere
    | Keep(newPath: string, at: string)               // the file stays where it is
    | Copy(newPath: string, dest: string, src: string)

  type Planner = (Files, int, Row) -> Plan

  /** mayFail says of which files a stat or open may fail when a source is looked for. */
  datatype Config = Config(planner: Planner, hash: Hasher, mayFail: string -> bool, workerCount: int, batchSize: int)

  datatype World = World(files: Files, rows: map<int, Row>)

  /** A row with work to do is taken exactly while fewer workers run than are set: 2 by default, 8 at most. */
  lemma DispatchIffSlotFree(cfg: Config, s: State)
    requires s.batch.Batch? && s.batch.next < |s.batch.items| && s.batch.items[s.batch.next] in s.batch.snapshot
    requires !Skips(cfg, s)
    ensures Enabled(cfg, s, Dispatch) <==>
      |InFlight(s.batch)| < if cfg.workerCount <= 0 then 2 else if cfg.workerCount <= 8 then cfg.workerCount else 8
  {
  }

  /** Worker slots: 2 by default, 8 at most. */
  function Slots(cfg: Config): (n: int)
    ensures 1 <= n <= 8
  {
    if cfg.workerCount <= 0 then 2 else if cfg.workerCount > 8 then 8 else cfg.workerCount
  }

  function Limit(cfg: Config): (n: nat)
    ensures n >= 1
  {
    if cfg.batchSize <= 0 then 100 else cfg.batchSize
  }

  // ---------- Pending rows ----------

  ghost function Min(ids: set<int>): (m: int)
    requires ids != {}
    ensures m in ids && forall i | i in ids :: m <= i
  {
    var i := Pick(ids);
    var rest := ids - {i};
    if rest == {} then assert ids == {i}; i
    else
      var m := Min(rest);
      assert ids == rest + {i};
      if i < m then i else m
  }

  /** The first n of ids in ascending order. */
  ghost function First(ids: set<int>, n: nat): seq<int>
    decreases n
  {
    if n == 0 || ids == {} then [] else [Min(ids)] + First(ids - {Min(ids)}, n - 1)
  }

  /** Ascending, taken from ids, with nothing smaller left out, and short only when ids run out. */
  predicate IsFirst(ids: set<int>, n: nat, r: seq<int>) {
    && (forall i | 0 <= i < |r| :: r[i] in ids)
    && (forall i, j | 0 <= i < j < |r| :: r[i] < r[j])
    && (forall x, i | x in ids && x !in r && 0 <= i < |r| :: r[i] < x)
    && |r| == (if n <= |ids| then n else |ids|)
  }

  lemma {:induction false} FirstIsFirst(ids: set<int>, n: nat)
    ensures IsFirst(ids, n, First(ids, n))
    decreases n
  {
    if n > 0 && ids != {} {
      var m := Min(ids);
      FirstIsFirst(ids - {m}, n - 1);
      assert |ids| == |ids - {m}| + 1;
      var rest := First(ids - {m}, n - 1);
      assert First(ids, n) == [m] + rest;
      forall x, i | x in ids && x !in [m] + rest && 0 <= i < |[m] + rest|
        ensures ([m] + rest)[i] < x
      {
        assert x != m && x in ids - {m};
      }
    }
  }

  ghost function Above(ids: set<int>, last: int): set<int> {
    set id | id in ids && id > last
  }

  /** SELECT ... WHERE bin_id > last ORDER BY bin_id LIMIT n. */
  ghost function GetPendingFiles(rows: map<int, Row>, last: int, n: nat): seq<int> {
    First(Above(rows.Keys, last), n)
  }

  // ---------- Plans and final results ----------

  /** What is planned for a row when the files in blocked cannot be opened: the lookup passes them over. */
  function Asked(cfg: Config, files: Files, blocked: set<string>, id: int, row: Row): Plan {
    cfg.planner(files - blocked, id, row)
  }

  ghost predicate MayFail(cfg: Config, blocked: set<string>) {
    forall k | k in blocked :: cfg.mayFail(k)
  }

  /** The plan when every open works. */
  ghost function PlanAt(cfg: Config, w: World, id: int): Plan
    requires id in w.rows
  {
    Asked(cfg, w.files, {}, id, w.rows[id])
  }

  /** A plan some failed opens may lead to. */
  ghost predicate Possible(cfg: Config, w: World, id: int, p: Plan) {
    id in w.rows && exists blocked: set<string> :: MayFail(cfg, blocked) && p == Asked(cfg, w.files, blocked, id, w.rows[id])
  }

  predicate Rewriting(p: Plan) {
    p.Copy? || p.Keep?
  }

  /** The file a plan reads, and the file its row ends up naming. */
  function SourceOf(p: Plan): string {
    match p
    case Copy(_, _, src) => src
    case Keep(_, at) => at
    case _ => ""
  }

  function PlaceOf(p: Plan): string {
    match p
    case Copy(_, dest, _) => dest
    case Keep(_, at) => at
    case _ => ""
  }

  ghost predicate Moves(cfg: Config, w: World, id: int) {
    id in w.rows && PlanAt(cfg, w, id).Copy?
  }

  ghost predicate Rewrites(cfg: Config, w: World, id: int) {
    id in w.rows && Rewriting(PlanAt(cfg, w, id))
  }

  ghost function Source(cfg: Config, w: World, id: int): string
    requires Rewrites(cfg, w, id)
  {
    SourceOf(PlanAt(cfg, w, id))
  }

  ghost function Dest(cfg: Config, w: World, id: int): string
    requires Moves(cfg, w, id)
  {
    PlanAt(cfg, w, id).dest
  }

  /** Row id may be copied to this path. */
  ghost predicate DestOf(cfg: Config, w: World, id: int, path: string) {
    exists p :: Possible(cfg, w, id, p) && p.Copy? && p.dest == path
  }

  ghost predicate IsDest(cfg: Config, w: World, path: string) {
    exists id :: DestOf(cfg, w, id, path)
  }

  /** Two disks agree everywhere but on destinations. */
  ghost predicate SameSources(cfg: Config, w: World, files: Files) {
    forall k | !IsDest(cfg, w, k) :: (k in files <==> k in w.files) && (k in files ==> files[k] == w.files[k])
  }

  /** The row a worker writes once data is in place. A checksum that could not be read back is stored empty. */
  function Rewritten(cfg: Config, row: Row, p: Plan, data: Bytes, hashed: bool): Row
    requires Rewriting(p)
  {
    row.(path := p.newPath, flag := "M", size := |data|, checksum := if hashed then cfg.hash(data) else "")
  }

  /** Whatever opens fail, the source found for the row has the same bytes. */
  ghost predicate Agrees(cfg: Config, w: World, id: int) {
    forall p, q | Possible(cfg, w, id, p) && Possible(cfg, w, id, q) && Rewriting(p) && Rewriting(q)
                  && SourceOf(p) in w.files && SourceOf(q) in w.files ::
      w.files[SourceOf(p)] == w.files[SourceOf(q)]
  }

  /** The table and disk a migration starts from, and a planner that fits them. */
  ghost predicate Setting(cfg: Config, w: World) {
    && (forall id | id in w.rows :: id > 0)
    && DestsDistinct(cfg, w) && SourcesSafe(cfg, w) && DestsBegun(cfg, w)
    && PlansAreStable(cfg, w) && SkipsStand(cfg)
  }

  /** Failed opens make no row look migrated. */
  ghost predicate SkipsStand(cfg: Config) {
    forall files, blocked, id, row | Asked(cfg, files, blocked, id, row).Skip? :: Asked(cfg, files, {}, id, row).Skip?
  }

  ghost predicate DestsDistinct(cfg: Config, w: World) {
    forall a, b, k | DestOf(cfg, w, a, k) && DestOf(cfg, w, b, k) :: a == b
  }

  /** Every source exists, no row's source is some row's destination, and failing opens create none. */
  ghost predicate SourcesSafe(cfg: Config, w: World) {
    forall id, p | Possible(cfg, w, id, p) && Rewriting(p) ::
      SourceOf(p) in w.files && !IsDest(cfg, w, SourceOf(p)) && Rewrites(cfg, w, id)
  }

  /** A destination that exists at the start is the beginning of its source. */
  ghost predicate DestsBegun(cfg: Config, w: World) {
    forall id, p | Possible(cfg, w, id, p) && p.Copy? && p.dest in w.files && p.src in w.files ::
      w.files[p.dest] <= w.files[p.src]
  }

  /** Writing destinations changes no plan, and a row once rewritten is skipped, or kept and asked for again. */
  ghost predicate PlansAreStable(cfg: Config, w: World) {
    && (forall files, blocked, id | id in w.rows && SameSources(cfg, w, files) ::
          Asked(cfg, files, blocked, id, w.rows[id]) == Asked(cfg, w.files, blocked, id, w.rows[id]))
    && (forall files, blocked, id, p, data, hashed |
          Possible(cfg, w, id, p) && Rewriting(p) && SameSources(cfg, w, files) ::
          var again := Asked(cfg, files, blocked, id, Rewritten(cfg, w.rows[id], p, data, hashed));
          again.Skip? || (p.Keep? && again == Asked(cfg, w.files, blocked, id, w.rows[id])))
  }

  lemma PlanIsPossible(cfg: Config, w: World, id: int)
    requires id in w.rows
    ensures Possible(cfg, w, id, PlanAt(cfg, w, id))
  {
    assert MayFail(cfg, {});
  }

  // ---------- The machine ----------

  datatype Worker =
    | Opening
    | Placing(plan: Plan)                 // source open, destination not examined yet
    | Copying(plan: Plan, k: nat)         // destination created, k bytes written
    | Marking(plan: Plan, checksum: string, size: nat, hashed: bool)
    | Reporting                           // row updated
    | Ended(ok: bool)

  datatype Batch =
    | NoBatch
    | Batch(last: int, items: seq<int>, snapshot: map<int, Row>, next: nat,
            workers: map<int, Worker>, executed: seq<int>, errors: nat)

  /**
   log holds the last_bin_id of every checkpoint row. marked, unhashed, attempted and faulty are
   history: rows a worker rewrote and by which plan, those whose checksum could not be read, rows
   whose turn came to an end, and whether any input or output failed so far.
   */
  datatype State = State(files: Files, rows: map<int, Row>, log: seq<int>, batch: Batch,
                         marked: map<int, Plan>, unhashed: set<int>, attempted: set<int>, faulty: bool)

  /** Whether the directory can be made, an existing destination examined, a new one created, and one read back. */
  datatype PlaceIO = PlaceIO(dir: bool, stat: bool, create: bool, hash: bool)

  const AllWell := PlaceIO(true, true, true, true)

  datatype Event =
    | StartBatch(readOk: bool)
    | Dispatch
    | OpenSource(id: int, blocked: set<string>, hashOk: bool)
    | Place(id: int, io: PlaceIO)
    | Write(id: int, n: nat)
    | CopyEnds(id: int)
    | CopyFails(id: int, removed: bool)
    | Mark(id: int, ok: bool)
    | Report(id: int)
    | Finish(logOk: bool)
    | Crash

  ghost function InitialState(w: World): State {
    State(w.files, w.rows, [], NoBatch, map[], {}, {}, false)
  }

  /** COALESCE(MAX(last_bin_id), 0). */
  ghost function Checkpoint(log: seq<int>): int {
    MaxOrZero(set x | x in log)
  }

  function Highest(b: Batch): int
    requires b.Batch?
  {
    if b.items == [] then b.last else b.items[|b.items| - 1]
  }

  function InFlight(b: Batch): set<int>
    requires b.Batch?
  {
    set id | id in b.workers && !b.workers[id].Ended?
  }

  predicate At(s: State, id: int) {
    s.batch.Batch? && id in s.batch.workers && id in s.batch.snapshot
  }

  /** The next item is skipped: decided on flag and path alone, before any file is looked at. */
  predicate Skips(cfg: Config, s: State)
    requires s.batch.Batch? && s.batch.next < |s.batch.items| && s.batch.items[s.batch.next] in s.batch.snapshot
  {
    var id := s.batch.items[s.batch.next];
    Asked(cfg, s.files, {}, id, s.batch.snapshot[id]).Skip?
  }

  ghost predicate Enabled(cfg: Config, s: State, e: Event) {
    match e
    case StartBatch(_) => s.batch.NoBatch?
    case Dispatch =>
      // A row that is skipped takes no slot.
      s.batch.Batch? && s.batch.next < |s.batch.items| && s.batch.items[s.batch.next] in s.batch.snapshot
      && (Skips(cfg, s) || |InFlight(s.batch)| < Slots(cfg))
    case OpenSource(id, blocked, _) => At(s, id) && s.batch.workers[id].Opening? && MayFail(cfg, blocked)
    case Place(id, _) => At(s, id) && s.batch.workers[id].Placing? && s.batch.workers[id].plan.Copy?
    case Write(id, n) =>
      At(s, id) && s.batch.workers[id].Copying? && s.batch.workers[id].plan.Copy?
      && s.batch.workers[id].plan.src in s.files && s.batch.workers[id].plan.dest in s.files
      && s.batch.workers[id].k + n <= |s.files[s.batch.workers[id].plan.src]|
    case CopyEnds(id) =>
      At(s, id) && s.batch.workers[id].Copying? && s.batch.workers[id].plan.Copy?
      && s.batch.workers[id].plan.src in s.files
      && s.batch.workers[id].k == |s.files[s.batch.workers[id].plan.src]|
    case CopyFails(id, _) => At(s, id) && s.batch.workers[id].Copying? && s.batch.workers[id].plan.Copy?
    case Mark(id, _) => At(s, id) && s.batch.workers[id].Marking? && id in s.rows
    case Report(id) => At(s, id) && s.batch.workers[id].Reporting?
    case Finish(_) => s.batch.Batch? && s.batch.next == |s.batch.items| && InFlight(s.batch) == {}
    case Crash => true
  }

  /** Worker id moves to pc; an ended turn is counted under the lock. */
  function Go(s: State, id: int, pc: Worker): State
    requires s.batch.Batch?
  {
    var b := s.batch;
    s.(batch := b.(workers := b.workers[id := pc],
                   executed := if pc == Ended(true) then b.executed + [id] else b.executed,
                   errors := if pc == Ended(false) then b.errors + 1 else b.errors),
       attempted := if pc.Ended? then s.attempted + {id} else s.attempted)
  }

  /** The values to store once the file at path is in place; a failed read-back leaves "". */
  function ToMark(cfg: Config, plan: Plan, data: Bytes, hashOk: bool): Worker {
    Marking(plan, if hashOk then cfg.hash(data) else "", |data|, hashOk)
  }

  ghost function Begin(cfg: Config, s: State, readOk: bool): State {
    var last := if readOk then Checkpoint(s.log) else 0;
    var items := GetPendingFiles(s.rows, last, Limit(cfg));
    if items == [] then s
    else s.(batch := Batch(last, items, map id | id in items && id in s.rows :: s.rows[id], 0, map[], [], 0))
  }

  ghost function Next(cfg: Config, s: State): State
    requires Enabled(cfg, s, Dispatch)
  {
    var b := s.batch;
    var id := b.items[b.next];
    var t := s.(batch := b.(next := b.next + 1));
    if Skips(cfg, s) then Go(t, id, Ended(true)) else Go(t, id, Opening)
  }

  /** Where looking for the source leads a worker: files that cannot be opened are passed over. */
  ghost function OpenedAs(cfg: Config, s: State, id: int, blocked: set<string>, hashOk: bool): Worker
    requires At(s, id)
  {
    var plan := Asked(cfg, s.files, blocked, id, s.batch.snapshot[id]);
    match plan
    case Skip => Ended(true)
    case NotFound => Ended(false)
    case Keep(_, at) => ToMark(cfg, plan, if at in s.files then s.files[at] else [], hashOk)
    case Copy(_, _, _) => Placing(plan)
  }

  ghost function Open(cfg: Config, s: State, id: int, blocked: set<string>, hashOk: bool): State
    requires Enabled(cfg, s, OpenSource(id, blocked, hashOk))
  {
    var pc := OpenedAs(cfg, s, id, blocked, hashOk);
    Go(s, id, pc).(faulty := s.faulty || blocked != {} || (pc.Marking? && !hashOk))
  }

  /** A destination of equal size, if it can be examined, counts as copied. */
  predicate AlreadyThere(files: Files, plan: Plan, io: PlaceIO)
    requires plan.Copy?
  {
    io.stat && plan.dest in files && |files[plan.dest]| == if plan.src in files then |files[plan.src]| else 0
  }

  /** What is not there is created, or truncated; without a directory or a file the turn ends. */
  ghost function PlaceFile(cfg: Config, s: State, id: int, io: PlaceIO): State
    requires Enabled(cfg, s, Place(id, io))
  {
    var plan := s.batch.workers[id].plan;
    var t :=
      if !io.dir then Go(s, id, Ended(false))
      else if AlreadyThere(s.files, plan, io) then Go(s, id, ToMark(cfg, plan, s.files[plan.dest], io.hash))
      else if !io.create then Go(s, id, Ended(false))
      else Go(s, id, Copying(plan, 0)).(files := s.files[plan.dest := []]);
    t.(faulty := s.faulty || io != AllWell)
  }

  /** One write of the copy loop. */
  ghost function WriteChunk(cfg: Config, s: State, id: int, n: nat): State
    requires Enabled(cfg, s, Write(id, n))
  {
    var pc := s.batch.workers[id];
    var chunk := s.files[pc.plan.src][pc.k..pc.k + n];
    Go(s, id, Copying(pc.plan, pc.k + n)).(files := s.files[pc.plan.dest := s.files[pc.plan.dest] + chunk])
  }

  /** A copy error; the partial destination is removed if that works. */
  ghost function Abandon(cfg: Config, s: State, id: int, removed: bool): State
    requires Enabled(cfg, s, CopyFails(id, removed))
  {
    Go(s, id, Ended(false)).(
      files := if removed then s.files - {s.batch.workers[id].plan.dest} else s.files, faulty := true)
  }

  function NewPath(p: Plan): string {
    if Rewriting(p) then p.newPath else ""
  }

  /** UpdatePathAndStatus. */
  ghost function MarkRow(cfg: Config, s: State, id: int, ok: bool): State
    requires Enabled(cfg, s, Mark(id, ok))
  {
    var pc := s.batch.workers[id];
    if ok then
      Go(s, id, Reporting).(
        rows := s.rows[id := s.rows[id].(path := NewPath(pc.plan), checksum := pc.checksum, size := pc.size, flag := "M")],
        marked := s.marked[id := pc.plan],
        unhashed := if pc.hashed then s.unhashed - {id} else s.unhashed + {id})
    else Go(s, id, Ended(false)).(faulty := true)
  }

  ghost function Apply(cfg: Config, s: State, e: Event): State
    requires Enabled(cfg, s, e)
  {
    match e
    case StartBatch(readOk) => Begin(cfg, s, readOk)
    case Dispatch => Next(cfg, s)
    case OpenSource(id, blocked, hashOk) => Open(cfg, s, id, blocked, hashOk)
    case Place(id, io) => PlaceFile(cfg, s, id, io)
    case Write(id, n) => WriteChunk(cfg, s, id, n)
    case CopyEnds(id) =>
      Go(s, id, ToMark(cfg, s.batch.workers[id].plan, s.files[s.batch.workers[id].plan.src], true))
    case CopyFails(id, removed) => Abandon(cfg, s, id, removed)
    case Mark(id, ok) => MarkRow(cfg, s, id, ok)
    case Report(id) => Go(s, id, Ended(true))
    case Finish(logOk) => Conclude(s, logOk)
    case Crash => s.(batch := NoBatch)
  }

  /** The checkpoint row is written once all workers are done; its own failure is ignored. */
  function Conclude(s: State, logOk: bool): State
    requires s.batch.Batch?
  {
    s.(log := if logOk then s.log + [Highest(s.batch)] else s.log, batch := NoBatch)
  }

  ghost predicate Run(cfg: Config, s: State, trace: seq<Event>, s': State)
    decreases |trace|
  {
    if trace == [] then s == s'
    else Enabled(cfg, s, trace[0]) && Run(cfg, Apply(cfg, s, trace[0]), trace[1..], s')
  }

  // ---------- Invariants ----------

  /** The bytes are a beginning of a source the row may be copied from. */
  ghost predicate BeginsSome(cfg: Config, w: World, id: int, data: Bytes) {
    exists p :: Possible(cfg, w, id, p) && p.Copy? && p.src in w.files && data <= w.files[p.src]
  }

  /** Sources are untouched; a destination is absent or the beginning of a source of its row. */
  ghost predicate DiskOk(cfg: Config, w: World, files: Files) {
    && SameSources(cfg, w, files)
    && (forall id, k | DestOf(cfg, w, id, k) && k in files :: BeginsSome(cfg, w, id, files[k]))
  }

  /** The file a plan leads to is there, and is its source if opens cannot lead elsewhere. */
  ghost predicate FileOk(cfg: Config, w: World, files: Files, id: int, p: Plan) {
    && Possible(cfg, w, id, p) && Rewriting(p) && PlaceOf(p) in files && SourceOf(p) in w.files
    && (Agrees(cfg, w, id) ==> files[PlaceOf(p)] == w.files[SourceOf(p)])
  }

  /** A row is as it was, or rewritten by a possible plan, and then says what its file is. */
  ghost predicate RowOk(cfg: Config, w: World, s: State, id: int)
    requires id in s.rows
  {
    id in w.rows &&
    if id in s.marked then
      var p := s.marked[id];
      FileOk(cfg, w, s.files, id, p) && s.rows[id] == Rewritten(cfg, w.rows[id], p, s.files[PlaceOf(p)], id !in s.unhashed)
    else s.rows[id] == w.rows[id]
  }

  ghost predicate RowsOk(cfg: Config, w: World, s: State) {
    s.rows.Keys == w.rows.Keys && s.marked.Keys <= s.rows.Keys && forall id | id in s.rows :: RowOk(cfg, w, s, id)
  }

  /** The row has not been copied to a destination. */
  predicate NotMoved(s: State, id: int) {
    id in s.marked ==> s.marked[id].Keep?
  }

  ghost predicate WorkerOk(cfg: Config, w: World, s: State, id: int, pc: Worker) {
    id in s.rows &&
    match pc
    case Placing(plan) => Possible(cfg, w, id, plan) && plan.Copy? && plan.src in w.files && NotMoved(s, id)
    case Copying(plan, k) =>
      Possible(cfg, w, id, plan) && plan.Copy? && NotMoved(s, id)
      && plan.src in w.files && plan.dest in s.files && k <= |w.files[plan.src]|
      && s.files[plan.dest] == w.files[plan.src][..k]
    case Marking(plan, checksum, size, hashed) =>
      FileOk(cfg, w, s.files, id, plan) && NotMoved(s, id)
      && size == |s.files[PlaceOf(plan)]| && checksum == (if hashed then cfg.hash(s.files[PlaceOf(plan)]) else "")
    case Reporting => id in s.marked
    case _ => true
  }

  /** Rows read at the start of the batch are still current for workers that have not written theirs. */
  predicate Unwritten(pc: Worker) {
    !pc.Reporting? && !pc.Ended?
  }

  predicate ShapeOk(b: Batch, rows: map<int, Row>)
    requires b.Batch?
  {
    && b.next <= |b.items|
    && (forall i, j | 0 <= i < j < |b.items| :: b.items[i] < b.items[j])
    && (forall i | 0 <= i < |b.items| :: b.items[i] in rows && b.items[i] in b.snapshot)
    && b.workers.Keys == Elements(b.items[..b.next])
  }

  /** Rows whose turn has not ended are as the batch read them. */
  predicate SnapshotOk(b: Batch, rows: map<int, Row>)
    requires b.Batch?
  {
    forall id | id in b.items && (id in b.workers ==> Unwritten(b.workers[id])) ::
      id in rows && id in b.snapshot && b.snapshot[id] == rows[id]
  }

  ghost predicate BatchOk(cfg: Config, w: World, s: State) {
    s.batch.Batch? ==>
      && ShapeOk(s.batch, s.rows)
      && SnapshotOk(s.batch, s.rows)
      && (forall id | id in s.batch.workers :: WorkerOk(cfg, w, s, id, s.batch.workers[id]))
  }

  ghost predicate Inv(cfg: Config, w: World, s: State) {
    DiskOk(cfg, w, s.files) && RowsOk(cfg, w, s) && BatchOk(cfg, w, s)
  }

  /** What is planned for a row in the middle of a migration. */
  lemma CurrentPlan(cfg: Config, w: World, s: State, id: int, blocked: set<string>)
    requires Setting(cfg, w) && DiskOk(cfg, w, s.files) && id in s.rows && RowOk(cfg, w, s, id)
    ensures
      var plan := Asked(cfg, s.files, blocked, id, s.rows[id]);
      var first := Asked(cfg, w.files, blocked, id, w.rows[id]);
      if id in s.marked then plan.Skip? || (NotMoved(s, id) && plan == first) else plan == first
    ensures MayFail(cfg, blocked) ==> Possible(cfg, w, id, Asked(cfg, w.files, blocked, id, w.rows[id]))
  {
    if id in s.marked {
      var p := s.marked[id];
      assert s.rows[id] == Rewritten(cfg, w.rows[id], p, s.files[PlaceOf(p)], id !in s.unhashed);
    }
  }

  // ---------- One worker's step leaves the others alone ----------

  /** The step from s to t changes at most row id, its history and its destination. */
  ghost predicate OnlyTouches(cfg: Config, w: World, s: State, t: State, id: int) {
    && t.rows.Keys == s.rows.Keys
    && (forall j | j in s.rows && j != id :: t.rows[j] == s.rows[j])
    && (forall j | j != id :: (j in s.marked <==> j in t.marked) && (j in s.unhashed <==> j in t.unhashed))
    && (forall j | j != id && j in s.marked && j in t.marked :: t.marked[j] == s.marked[j])
    && (forall k | !DestOf(cfg, w, id, k) :: (k in s.files <==> k in t.files) && (k in s.files ==> t.files[k] == s.files[k]))
  }

  /** The files other rows stand on are not destinations of this one. */
  lemma PlaceIsForeign(cfg: Config, w: World, id: int, j: int, p: Plan)
    requires DestsDistinct(cfg, w) && SourcesSafe(cfg, w) && Possible(cfg, w, j, p) && Rewriting(p)
    requires j != id || p.Keep?
    ensures !DestOf(cfg, w, id, PlaceOf(p))
  {
    if p.Copy? {
      assert DestOf(cfg, w, j, p.dest);
    } else {
      assert !IsDest(cfg, w, SourceOf(p));
    }
  }

  lemma OthersKeepRow(cfg: Config, w: World, s: State, t: State, id: int, j: int)
    requires DestsDistinct(cfg, w) && SourcesSafe(cfg, w) && OnlyTouches(cfg, w, s, t, id)
    requires j != id && j in s.rows && RowOk(cfg, w, s, j)
    ensures RowOk(cfg, w, t, j)
  {
    if j in s.marked {
      PlaceIsForeign(cfg, w, id, j, s.marked[j]);
    }
  }

  lemma OthersKeepWorker(cfg: Config, w: World, s: State, t: State, id: int, j: int, pc: Worker)
    requires DestsDistinct(cfg, w) && SourcesSafe(cfg, w) && OnlyTouches(cfg, w, s, t, id)
    requires j != id && WorkerOk(cfg, w, s, j, pc)
    ensures WorkerOk(cfg, w, t, j, pc)
  {
    if pc.Copying? || pc.Marking? {
      PlaceIsForeign(cfg, w, id, j, pc.plan);
    }
  }

  lemma FrameRows(cfg: Config, w: World, s: State, t: State, id: int)
    requires DestsDistinct(cfg, w) && SourcesSafe(cfg, w) && RowsOk(cfg, w, s) && OnlyTouches(cfg, w, s, t, id)
    requires id in t.rows && t.marked.Keys <= t.rows.Keys && RowOk(cfg, w, t, id)
    ensures RowsOk(cfg, w, t)
  {
    forall j | j in t.rows
      ensures RowOk(cfg, w, t, j)
    {
      if j != id {
        OthersKeepRow(cfg, w, s, t, id, j);
      }
    }
  }

  /** The batch after worker id moves to pc, possibly being dispatched by this step. */
  predicate Advances(b: Batch, c: Batch, id: int, pc: Worker) {
    && b.Batch? && c.Batch? && c.items == b.items && c.snapshot == b.snapshot
    && (id in b.workers || (b.next < |b.items| && id == b.items[b.next]))
    && c.next == (if id in b.workers then b.next else b.next + 1)
    && c.workers == b.workers[id := pc]
  }

  lemma FrameBatch(cfg: Config, w: World, s: State, t: State, id: int, pc: Worker)
    requires DestsDistinct(cfg, w) && SourcesSafe(cfg, w) && BatchOk(cfg, w, s) && OnlyTouches(cfg, w, s, t, id)
    requires Advances(s.batch, t.batch, id, pc) && WorkerOk(cfg, w, t, id, pc)
    requires Unwritten(pc) ==>
      t.rows[id] == s.rows[id] && (id in s.batch.workers ==> Unwritten(s.batch.workers[id]))
    ensures BatchOk(cfg, w, t)
  {
    forall j | j in t.batch.workers
      ensures WorkerOk(cfg, w, t, j, t.batch.workers[j])
    {
      if j != id {
        OthersKeepWorker(cfg, w, s, t, id, j, s.batch.workers[j]);
      }
    }
    ShapeKept(s.batch, s.rows, t.batch, t.rows, id);
    SnapshotKept(s.batch, s.rows, t.batch, t.rows, id, pc);
  }

  lemma SnapshotKept(b: Batch, rows: map<int, Row>, c: Batch, rows': map<int, Row>, id: int, pc: Worker)
    requires b.Batch? && ShapeOk(b, rows) && SnapshotOk(b, rows) && Advances(b, c, id, pc)
    requires rows'.Keys == rows.Keys && forall j | j in rows && j != id :: rows'[j] == rows[j]
    requires Unwritten(pc) ==> id in rows && rows'[id] == rows[id] && (id in b.workers ==> Unwritten(b.workers[id]))
    ensures SnapshotOk(c, rows')
  {
    forall j | j in c.items && (j in c.workers ==> Unwritten(c.workers[j]))
      ensures j in rows' && j in c.snapshot && c.snapshot[j] == rows'[j]
    {
      assert j in b.items;
      assert j in b.workers ==> Unwritten(b.workers[j]);
    }
  }

  /** Worker id moves to pc; all that is left to show is about id alone. */
  lemma StepFrame(cfg: Config, w: World, s: State, t: State, id: int, pc: Worker)
    requires DestsDistinct(cfg, w) && SourcesSafe(cfg, w) && RowsOk(cfg, w, s) && BatchOk(cfg, w, s) && OnlyTouches(cfg, w, s, t, id)
    requires Advances(s.batch, t.batch, id, pc)
    requires DiskOk(cfg, w, t.files) && id in t.rows && t.marked.Keys <= t.rows.Keys && RowOk(cfg, w, t, id)
    requires WorkerOk(cfg, w, t, id, pc)
    requires Unwritten(pc) ==>
      t.rows[id] == s.rows[id] && (id in s.batch.workers ==> Unwritten(s.batch.workers[id]))
    ensures Inv(cfg, w, t)
  {
    FrameRows(cfg, w, s, t, id);
    FrameBatch(cfg, w, s, t, id, pc);
  }

  /** As StepFrame, for a step that touches neither files nor rows. */
  lemma QuietFrame(cfg: Config, w: World, s: State, t: State, id: int, pc: Worker)
    requires DestsDistinct(cfg, w) && SourcesSafe(cfg, w) && Inv(cfg, w, s) && Advances(s.batch, t.batch, id, pc)
    requires t.files == s.files && t.rows == s.rows && t.marked == s.marked && t.unhashed == s.unhashed
    requires WorkerOk(cfg, w, s, id, pc)
    requires Unwritten(pc) && id in s.batch.workers ==> Unwritten(s.batch.workers[id])
    ensures Inv(cfg, w, t)
  {
    assert RowOk(cfg, w, s, id);
    SameStateSameChecks(cfg, w, s, t, id, pc);
    StepFrame(cfg, w, s, t, id, pc);
  }

  lemma SameStateSameChecks(cfg: Config, w: World, s: State, t: State, id: int, pc: Worker)
    requires t.files == s.files && t.rows == s.rows && t.marked == s.marked && t.unhashed == s.unhashed
    requires id in s.rows
    ensures WorkerOk(cfg, w, t, id, pc) == WorkerOk(cfg, w, s, id, pc)
    ensures RowOk(cfg, w, t, id) == RowOk(cfg, w, s, id)
  {
  }

  lemma ShapeKept(b: Batch, rows: map<int, Row>, c: Batch, rows': map<int, Row>, id: int)
    requires b.Batch? && c.Batch? && ShapeOk(b, rows) && rows'.Keys == rows.Keys
    requires id in b.workers || (b.next < |b.items| && id == b.items[b.next])
    requires c.items == b.items && c.snapshot == b.snapshot
    requires c.next == if id in b.workers then b.next else b.next + 1
    requires c.workers.Keys == b.workers.Keys + {id}
    ensures ShapeOk(c, rows')
  {
    if id !in b.workers {
      assert c.items[..c.next] == b.items[..b.next] + [id];
      assert Elements(c.items[..c.next]) == Elements(b.items[..b.next]) + {id};
    }
  }

  lemma InitInv(cfg: Config, w: World)
    requires Setting(cfg, w)
    ensures Inv(cfg, w, InitialState(w))
  {
    forall id, k | DestOf(cfg, w, id, k) && k in w.files
      ensures BeginsSome(cfg, w, id, w.files[k])
    {
      var p :| Possible(cfg, w, id, p) && p.Copy? && p.dest == k;
      assert SourceOf(p) in w.files;
    }
  }

  lemma StartKeepsInv(cfg: Config, w: World, s: State, readOk: bool)
    requires Inv(cfg, w, s) && s.batch.NoBatch?
    ensures Inv(cfg, w, Begin(cfg, s, readOk))
  {
    var last := if readOk then Checkpoint(s.log) else 0;
    FirstIsFirst(Above(s.rows.Keys, last), Limit(cfg));
    var t := Begin(cfg, s, readOk);
    forall id | id in t.rows
      ensures RowOk(cfg, w, t, id)
    {
      assert RowOk(cfg, w, s, id);
    }
  }

  /** A step that touches neither files nor rows and moves one worker. */
  predicate QuietMove(s: State, t: State, id: int) {
    && t.files == s.files && t.rows == s.rows && t.marked == s.marked && t.unhashed == s.unhashed
    && t.batch.Batch? && id in t.batch.workers && Advances(s.batch, t.batch, id, t.batch.workers[id])
  }

  lemma QuietStep(cfg: Config, w: World, s: State, t: State, id: int)
    requires DestsDistinct(cfg, w) && SourcesSafe(cfg, w) && Inv(cfg, w, s) && QuietMove(s, t, id)
    requires WorkerOk(cfg, w, s, id, t.batch.workers[id])
    requires id in s.batch.workers ==> Unwritten(s.batch.workers[id])
    ensures Inv(cfg, w, t)
  {
    QuietFrame(cfg, w, s, t, id, t.batch.workers[id]);
  }

  lemma DispatchShape(cfg: Config, s: State, t: State, id: int)
    requires Enabled(cfg, s, Dispatch) && t == Next(cfg, s) && id == s.batch.items[s.batch.next]
    requires id !in s.batch.workers
    ensures QuietMove(s, t, id)
    ensures t.batch.workers[id].Opening? || t.batch.workers[id].Ended?
  {
  }

  /** The next item has no worker yet. */
  lemma NextIsNew(b: Batch, rows: map<int, Row>)
    requires b.Batch? && ShapeOk(b, rows) && b.next < |b.items|
    ensures b.items[b.next] !in b.workers
  {
    forall i | 0 <= i < b.next
      ensures b.items[..b.next][i] != b.items[b.next]
    {
      assert b.items[i] < b.items[b.next];
    }
    var id := b.items[b.next];
    assert id !in Elements(b.items[..b.next]);
  }

  lemma DispatchKeepsInv(cfg: Config, w: World, s: State)
    requires DestsDistinct(cfg, w) && SourcesSafe(cfg, w) && Inv(cfg, w, s) && Enabled(cfg, s, Dispatch)
    ensures Inv(cfg, w, Next(cfg, s))
  {
    NextIsNew(s.batch, s.rows);
    var id := s.batch.items[s.batch.next];
    DispatchShape(cfg, s, Next(cfg, s), id);
    QuietStep(cfg, w, s, Next(cfg, s), id);
  }

  lemma OpenKeepsInv(cfg: Config, w: World, s: State, id: int, blocked: set<string>, hashOk: bool)
    requires Setting(cfg, w) && Inv(cfg, w, s) && Enabled(cfg, s, OpenSource(id, blocked, hashOk))
    ensures Inv(cfg, w, Open(cfg, s, id, blocked, hashOk))
  {
    var t := Open(cfg, s, id, blocked, hashOk);
    OpenShape(cfg, s, id, blocked, hashOk, t);
    OpenedWorkerOk(cfg, w, s, id, blocked, hashOk, t.batch.workers[id]);
    QuietStep(cfg, w, s, t, id);
  }

  lemma OpenShape(cfg: Config, s: State, id: int, blocked: set<string>, hashOk: bool, t: State)
    requires Enabled(cfg, s, OpenSource(id, blocked, hashOk)) && t == Open(cfg, s, id, blocked, hashOk)
    ensures QuietMove(s, t, id)
    ensures t.batch.workers[id] == OpenedAs(cfg, s, id, blocked, hashOk)
  {
  }

  /** The row of a worker that starts is the one its batch read. */
  lemma OpeningRow(cfg: Config, w: World, s: State, id: int)
    requires Inv(cfg, w, s) && At(s, id) && s.batch.workers[id].Opening?
    ensures WorkerOk(cfg, w, s, id, Opening) && id in s.rows && s.batch.snapshot[id] == s.rows[id] && RowOk(cfg, w, s, id)
  {
    assert WorkerOk(cfg, w, s, id, s.batch.workers[id]);
    assert id in Elements(s.batch.items[..s.batch.next]);
    assert id in s.batch.items;
  }

  lemma OpenedWorkerOk(cfg: Config, w: World, s: State, id: int, blocked: set<string>, hashOk: bool, pc: Worker)
    requires Setting(cfg, w) && Inv(cfg, w, s) && At(s, id) && s.batch.workers[id].Opening? && MayFail(cfg, blocked)
    requires pc == OpenedAs(cfg, s, id, blocked, hashOk)
    ensures WorkerOk(cfg, w, s, id, pc)
  {
    OpeningRow(cfg, w, s, id);
    CurrentPlan(cfg, w, s, id, blocked);
    var plan := Asked(cfg, s.files, blocked, id, s.rows[id]);
    if Rewriting(plan) {
      assert Possible(cfg, w, id, plan) && SourceOf(plan) in w.files && !IsDest(cfg, w, SourceOf(plan));
    }
  }

  /** Putting a beginning of a source at the row's destination is safe for every other row. */
  lemma DestUpdate(cfg: Config, w: World, s: State, t: State, id: int, plan: Plan, data: Bytes)
    requires DestsDistinct(cfg, w) && DiskOk(cfg, w, s.files) && Possible(cfg, w, id, plan) && plan.Copy?
    requires plan.src in w.files && data <= w.files[plan.src]
    requires t.files == s.files[plan.dest := data] && t.rows == s.rows
    requires t.marked == s.marked && t.unhashed == s.unhashed
    ensures OnlyTouches(cfg, w, s, t, id) && DiskOk(cfg, w, t.files)
  {
    assert DestOf(cfg, w, id, plan.dest) && IsDest(cfg, w, plan.dest);
    assert BeginsSome(cfg, w, id, data);
  }

  /** A row that was not copied stands on no destination of its own. */
  lemma UnmovedRowOk(cfg: Config, w: World, s: State, t: State, id: int)
    requires DestsDistinct(cfg, w) && SourcesSafe(cfg, w) && OnlyTouches(cfg, w, s, t, id)
    requires id in s.rows && NotMoved(s, id) && RowOk(cfg, w, s, id)
    requires t.rows == s.rows && t.marked == s.marked && t.unhashed == s.unhashed
    ensures RowOk(cfg, w, t, id)
  {
    if id in s.marked {
      PlaceIsForeign(cfg, w, id, id, s.marked[id]);
    }
  }

  /** A source that may be found is on the disk unchanged. */
  lemma SourceStands(cfg: Config, w: World, files: Files, id: int, p: Plan)
    requires SourcesSafe(cfg, w) && SameSources(cfg, w, files) && Possible(cfg, w, id, p) && Rewriting(p)
    ensures SourceOf(p) in w.files && SourceOf(p) in files && files[SourceOf(p)] == w.files[SourceOf(p)]
  {
  }

  lemma PlaceKeepsInv(cfg: Config, w: World, s: State, id: int, io: PlaceIO)
    requires DestsDistinct(cfg, w) && SourcesSafe(cfg, w)
    requires Inv(cfg, w, s) && Enabled(cfg, s, Place(id, io))
    ensures Inv(cfg, w, PlaceFile(cfg, s, id, io))
  {
    var plan := s.batch.workers[id].plan;
    assert WorkerOk(cfg, w, s, id, Placing(plan));
    SourceStands(cfg, w, s.files, id, plan);
    PlaceShape(cfg, s, id, io, plan);
    var t := PlaceFile(cfg, s, id, io);
    if !io.dir {
      QuietFrame(cfg, w, s, t, id, Ended(false));
    } else if AlreadyThere(s.files, plan, io) {
      ShortcutIsSource(cfg, w, s, id, plan);
      QuietFrame(cfg, w, s, t, id, ToMark(cfg, plan, s.files[plan.dest], io.hash));
    } else if !io.create {
      QuietFrame(cfg, w, s, t, id, Ended(false));
    } else {
      assert w.files[plan.src][..0] == [];
      CopyAdvances(cfg, w, s, t, id, plan, 0);
    }
  }

  /** The state after a destination was examined. */
  lemma PlaceShape(cfg: Config, s: State, id: int, io: PlaceIO, plan: Plan)
    requires Enabled(cfg, s, Place(id, io)) && s.batch.workers[id] == Placing(plan) && plan.src in s.files
    ensures
      var t := PlaceFile(cfg, s, id, io);
      var there := AlreadyThere(s.files, plan, io);
      && t.rows == s.rows && t.marked == s.marked && t.unhashed == s.unhashed
      && (io.dir && there ==> t.files == s.files && Advances(s.batch, t.batch, id, ToMark(cfg, plan, s.files[plan.dest], io.hash)))
      && (io.dir && !there && io.create ==> t.files == s.files[plan.dest := []] && Advances(s.batch, t.batch, id, Copying(plan, 0)))
      && (!io.dir || (!there && !io.create) ==> t.files == s.files && Advances(s.batch, t.batch, id, Ended(false)))
  {
  }

  /** Equal size is equal content if every source of the row has the same bytes: the destination begins one of them. */
  lemma ShortcutIsSource(cfg: Config, w: World, s: State, id: int, plan: Plan)
    requires DiskOk(cfg, w, s.files) && Possible(cfg, w, id, plan) && plan.Copy? && plan.src in w.files
    requires plan.dest in s.files && |s.files[plan.dest]| == |w.files[plan.src]|
    ensures FileOk(cfg, w, s.files, id, plan)
  {
    assert DestOf(cfg, w, id, plan.dest);
    if Agrees(cfg, w, id) {
      BeginsPlan(cfg, w, id, plan, s.files[plan.dest]);
    }
  }

  lemma BeginsPlan(cfg: Config, w: World, id: int, plan: Plan, data: Bytes)
    requires Agrees(cfg, w, id) && Possible(cfg, w, id, plan) && Rewriting(plan) && SourceOf(plan) in w.files
    requires BeginsSome(cfg, w, id, data)
    ensures data <= w.files[SourceOf(plan)]
  {
    var q :| Possible(cfg, w, id, q) && q.Copy? && q.src in w.files && data <= w.files[q.src];
    assert w.files[SourceOf(q)] == w.files[SourceOf(plan)];
  }

  lemma WriteKeepsInv(cfg: Config, w: World, s: State, id: int, n: nat)
    requires DestsDistinct(cfg, w) && SourcesSafe(cfg, w)
    requires Inv(cfg, w, s) && Enabled(cfg, s, Write(id, n))
    ensures Inv(cfg, w, WriteChunk(cfg, s, id, n))
  {
    var plan, k := s.batch.workers[id].plan, s.batch.workers[id].k;
    assert WorkerOk(cfg, w, s, id, Copying(plan, k));
    CopyingFacts(cfg, w, s, id, plan, k);
    WriteShape(cfg, w, s, id, n);
    var t := WriteChunk(cfg, s, id, n);
    assert t.files == s.files[plan.dest := w.files[plan.src][..k + n]];
    CopyAdvances(cfg, w, s, t, id, plan, k + n);
  }

  /** The state after a write, in terms of the bytes now at the destination. */
  lemma WriteShape(cfg: Config, w: World, s: State, id: int, n: nat)
    requires Enabled(cfg, s, Write(id, n))
    requires
      var pc := s.batch.workers[id];
      pc.plan.src in w.files && s.files[pc.plan.src] == w.files[pc.plan.src]
      && s.files[pc.plan.dest] == w.files[pc.plan.src][..pc.k]
    ensures
      var pc, t := s.batch.workers[id], WriteChunk(cfg, s, id, n);
      && t.files == s.files[pc.plan.dest := w.files[pc.plan.src][..pc.k + n]]
      && t.rows == s.rows && t.marked == s.marked && t.unhashed == s.unhashed
      && Advances(s.batch, t.batch, id, Copying(pc.plan, pc.k + n))
  {
    var pc := s.batch.workers[id];
    var src := w.files[pc.plan.src];
    assert src[..pc.k] + src[pc.k..pc.k + n] == src[..pc.k + n];
  }

  /** What a copying worker stands on. */
  lemma CopyingFacts(cfg: Config, w: World, s: State, id: int, plan: Plan, k: nat)
    requires SourcesSafe(cfg, w) && SameSources(cfg, w, s.files) && WorkerOk(cfg, w, s, id, Copying(plan, k))
    ensures Possible(cfg, w, id, plan) && plan.Copy? && id in s.rows && NotMoved(s, id)
    ensures plan.src in w.files && plan.src in s.files && s.files[plan.src] == w.files[plan.src]
    ensures plan.dest in s.files && k <= |w.files[plan.src]| && s.files[plan.dest] == w.files[plan.src][..k]
  {
    SourceStands(cfg, w, s.files, id, plan);
  }

  /** A worker with a longer beginning of its source at its destination. */
  lemma CopyAdvances(cfg: Config, w: World, s: State, t: State, id: int, plan: Plan, k: nat)
    requires DestsDistinct(cfg, w) && SourcesSafe(cfg, w) && Inv(cfg, w, s)
    requires Possible(cfg, w, id, plan) && plan.Copy? && plan.src in w.files && k <= |w.files[plan.src]|
    requires id in s.rows && NotMoved(s, id) && s.batch.Batch? && id in s.batch.workers && Unwritten(s.batch.workers[id])
    requires t.files == s.files[plan.dest := w.files[plan.src][..k]]
    requires t.rows == s.rows && t.marked == s.marked && t.unhashed == s.unhashed
    requires Advances(s.batch, t.batch, id, Copying(plan, k))
    ensures Inv(cfg, w, t)
  {
    assert RowOk(cfg, w, s, id);
    DestUpdate(cfg, w, s, t, id, plan, w.files[plan.src][..k]);
    UnmovedRowOk(cfg, w, s, t, id);
    StepFrame(cfg, w, s, t, id, Copying(plan, k));
  }

  lemma CopyEndsKeepsInv(cfg: Config, w: World, s: State, e: Event)
    requires DestsDistinct(cfg, w) && SourcesSafe(cfg, w) && Inv(cfg, w, s) && Enabled(cfg, s, e) && e.CopyEnds?
    ensures Inv(cfg, w, Apply(cfg, s, e))
  {
    var plan, k := s.batch.workers[e.id].plan, s.batch.workers[e.id].k;
    assert WorkerOk(cfg, w, s, e.id, Copying(plan, k));
    CopyingFacts(cfg, w, s, e.id, plan, k);
    assert w.files[plan.src][..k] == w.files[plan.src];
    QuietFrame(cfg, w, s, Apply(cfg, s, e), e.id, ToMark(cfg, plan, s.files[plan.src], true));
  }

  lemma AbandonKeepsInv(cfg: Config, w: World, s: State, id: int, removed: bool)
    requires DestsDistinct(cfg, w) && SourcesSafe(cfg, w) && Inv(cfg, w, s) && Enabled(cfg, s, CopyFails(id, removed))
    ensures Inv(cfg, w, Abandon(cfg, s, id, removed))
  {
    var plan := s.batch.workers[id].plan;
    var t := Abandon(cfg, s, id, removed);
    assert WorkerOk(cfg, w, s, id, s.batch.workers[id]);
    if removed {
      assert RowOk(cfg, w, s, id);
      DestRemoved(cfg, w, s, t, id, plan);
      UnmovedRowOk(cfg, w, s, t, id);
      StepFrame(cfg, w, s, t, id, Ended(false));
    } else {
      QuietFrame(cfg, w, s, t, id, Ended(false));
    }
  }

  lemma DestRemoved(cfg: Config, w: World, s: State, t: State, id: int, plan: Plan)
    requires DestsDistinct(cfg, w) && DiskOk(cfg, w, s.files) && Possible(cfg, w, id, plan) && plan.Copy?
    requires t.files == s.files - {plan.dest} && t.rows == s.rows
    requires t.marked == s.marked && t.unhashed == s.unhashed
    ensures OnlyTouches(cfg, w, s, t, id) && DiskOk(cfg, w, t.files)
  {
    assert DestOf(cfg, w, id, plan.dest) && IsDest(cfg, w, plan.dest);
  }

  lemma MarkKeepsInv(cfg: Config, w: World, s: State, id: int, ok: bool)
    requires DestsDistinct(cfg, w) && SourcesSafe(cfg, w) && Inv(cfg, w, s) && Enabled(cfg, s, Mark(id, ok))
    ensures Inv(cfg, w, MarkRow(cfg, s, id, ok))
  {
    var t := MarkRow(cfg, s, id, ok);
    var pc := s.batch.workers[id];
    assert WorkerOk(cfg, w, s, id, pc);
    if ok {
      assert RowOk(cfg, w, s, id);
      MarkShape(cfg, s, id, pc);
      MarkedRowOk(cfg, w, s, t, id, pc);
      MarkFrame(cfg, w, s, t, id, pc);
    } else {
      QuietStep(cfg, w, s, t, id);
    }
  }

  lemma MarkFrame(cfg: Config, w: World, s: State, t: State, id: int, pc: Worker)
    requires DestsDistinct(cfg, w) && SourcesSafe(cfg, w) && Inv(cfg, w, s)
    requires id in s.rows && s.batch.Batch? && id in s.batch.workers && pc.Marking? && id in t.rows
    requires t.rows == s.rows[id := t.rows[id]] && (t.unhashed == s.unhashed - {id} || t.unhashed == s.unhashed + {id})
    requires t.files == s.files && t.marked == s.marked[id := pc.plan] && Advances(s.batch, t.batch, id, Reporting)
    requires RowOk(cfg, w, t, id)
    ensures Inv(cfg, w, t)
  {
    assert t.rows.Keys == s.rows.Keys;
    StepFrame(cfg, w, s, t, id, Reporting);
  }

  lemma MarkShape(cfg: Config, s: State, id: int, pc: Worker)
    requires Enabled(cfg, s, Mark(id, true)) && s.batch.workers[id] == pc
    ensures
      var t := MarkRow(cfg, s, id, true);
      && t.files == s.files && t.marked == s.marked[id := pc.plan] && Advances(s.batch, t.batch, id, Reporting)
      && t.rows == s.rows[id := s.rows[id].(path := NewPath(pc.plan), checksum := pc.checksum, size := pc.size, flag := "M")]
      && t.unhashed == if pc.hashed then s.unhashed - {id} else s.unhashed + {id}
  {
  }

  /** The row a worker writes is that of its plan. */
  lemma MarkedRowOk(cfg: Config, w: World, s: State, t: State, id: int, pc: Worker)
    requires id in s.rows && RowOk(cfg, w, s, id) && pc.Marking? && WorkerOk(cfg, w, s, id, pc)
    requires t.files == s.files && t.marked == s.marked[id := pc.plan]
    requires t.rows == s.rows[id := s.rows[id].(path := NewPath(pc.plan), checksum := pc.checksum, size := pc.size, flag := "M")]
    requires t.unhashed == if pc.hashed then s.unhashed - {id} else s.unhashed + {id}
    ensures RowOk(cfg, w, t, id)
  {
  }

  lemma StepKeepsInv(cfg: Config, w: World, s: State, e: Event)
    requires Setting(cfg, w) && Inv(cfg, w, s) && Enabled(cfg, s, e)
    ensures Inv(cfg, w, Apply(cfg, s, e))
  {
    match e
    case StartBatch(readOk) => StartKeepsInv(cfg, w, s, readOk);
    case Dispatch => DispatchKeepsInv(cfg, w, s);
    case OpenSource(id, blocked, hashOk) => OpenKeepsInv(cfg, w, s, id, blocked, hashOk);
    case Place(id, io) => PlaceKeepsInv(cfg, w, s, id, io);
    case Write(id, n) => WriteKeepsInv(cfg, w, s, id, n);
    case CopyEnds(_) => CopyEndsKeepsInv(cfg, w, s, e);
    case CopyFails(id, removed) => AbandonKeepsInv(cfg, w, s, id, removed);
    case Mark(id, ok) => MarkKeepsInv(cfg, w, s, id, ok);
    case Report(id) => QuietFrame(cfg, w, s, Apply(cfg, s, e), id, Ended(true));
    case Finish(_) => BatchEndKeepsInv(cfg, w, s, Apply(cfg, s, e));
    case Crash => BatchEndKeepsInv(cfg, w, s, Apply(cfg, s, e));
  }

  lemma BatchEndKeepsInv(cfg: Config, w: World, s: State, t: State)
    requires Inv(cfg, w, s) && t.batch.NoBatch?
    requires t.files == s.files && t.rows == s.rows && t.marked == s.marked && t.unhashed == s.unhashed
    ensures Inv(cfg, w, t)
  {
    forall id | id in t.rows
      ensures RowOk(cfg, w, t, id)
    {
      assert RowOk(cfg, w, s, id);
    }
  }
}
