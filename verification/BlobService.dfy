/**
 Upload, delete and serve over the content-addressed store and its two tables.

 The machine runs any number of uploads, deletes and crashes at once. Its visible content is the
 plain map Contents from bin_id to bytes, and every step of the machine is a step of that map.
 */
module BlobService {
  import opened Content
  import opened CasStore
  import opened Collections
  import opened Paths

  /** A row of binary_file, as far as serving reads it. */
  datatype Row = Row(path: string, directory: string, module_: string, fileName: string, size: nat, checksum: string)

  /** What the handler makes of the upload form; path is the logical path it hands to Insert. */
  datatype Meta = Meta(path: string, directory: string, module_: string, fileName: string)

  datatype UploadPhase = Indexed | HasId(binId: int) | Replied(binId: int) | Rejected

  /** phys maps content_hash to storage_path; rows is binary_file by primary key. */
  datatype Service = Service(
    store: Store,
    phys: map<string, string>,
    rows: map<int, Row>,
    uploads: map<nat, UploadPhase>)

  const EmptyService := Service(EmptyStore, map[], map[], map[])

  datatype ServiceEvent =
    | SaveStep(e: Event)
    | RecordObject(id: nat, ok: bool)
    | PickId(id: nat, queryOk: bool, clock: int)
    | InsertRow(id: nat, meta: Meta, ok: bool)
    | DeleteRow(binId: int)
    | CrashAll

  function ObjectPath(checksum: string): string {
    "objects/" + checksum
  }

  /** The id an upload will try to insert: one past the largest, or the clock. */
  ghost function NextId(rows: map<int, Row>, queryOk: bool, clock: int): int {
    var next := MaxOrZero(rows.Keys) + 1;
    if !queryOk || next <= 0 then clock else next
  }

  /**
   With an answer to the query: above every id, and no further than one. Without one, or where one past
   the largest id is not positive: the clock.
   */
  lemma NextIdIs(rows: map<int, Row>, queryOk: bool, clock: int)
    ensures !queryOk || (rows != map[] && forall n | n in rows :: n < 0) ==> NextId(rows, queryOk, clock) == clock
    ensures queryOk && (rows == map[] || exists n :: n in rows && n >= 0) ==>
      && (forall n | n in rows :: n < NextId(rows, queryOk, clock))
      && (if rows == map[] then NextId(rows, queryOk, clock) == 1 else NextId(rows, queryOk, clock) - 1 in rows)
  {
  }

  predicate Saved(s: Store, id: nat) {
    id in s.calls && s.calls[id].phase.Returned? && s.calls[id].phase.result.Stored?
  }

  ghost predicate CanDo(hash: Hasher, s: Service, e: ServiceEvent) {
    match e
    case SaveStep(se) => Enabled(hash, s.store, se) && !se.Crash?
    case RecordObject(id, _) => Saved(s.store, id) && id !in s.uploads
    case PickId(id, _, _) => id in s.uploads && s.uploads[id].Indexed?
    case InsertRow(id, _, _) => id in s.uploads && s.uploads[id].HasId? && Saved(s.store, id)
    case DeleteRow(_) => true
    case CrashAll => true
  }

  ghost predicate Inserts(s: Service, e: ServiceEvent) {
    e.InsertRow? && e.ok && e.id in s.uploads && s.uploads[e.id].HasId? && s.uploads[e.id].binId !in s.rows
  }

  ghost function Do(hash: Hasher, s: Service, e: ServiceEvent): Service
    requires CanDo(hash, s, e)
  {
    match e
    case SaveStep(se) => s.(store := Apply(hash, s.store, se))
    case RecordObject(id, ok) =>
      // ON CONFLICT DO NOTHING; a failed insert is logged and the upload goes on.
      var h := s.store.calls[id].phase.result.checksum;
      s.(phys := if ok && h !in s.phys then s.phys[h := ObjectPath(h)] else s.phys,
         uploads := s.uploads[id := Indexed])
    case PickId(id, queryOk, clock) =>
      s.(uploads := s.uploads[id := HasId(NextId(s.rows, queryOk, clock))])
    case InsertRow(id, meta, ok) =>
      // The primary key refuses an id another upload took in between.
      if Inserts(s, e) then
        var binId := s.uploads[id].binId;
        var saved := s.store.calls[id].phase.result;
        var row := Row(TrimSlash(meta.path), meta.directory, meta.module_, meta.fileName, saved.size, saved.checksum);
        s.(rows := s.rows[binId := row], uploads := s.uploads[id := Replied(binId)])
      else s.(uploads := s.uploads[id := Rejected])
    case DeleteRow(binId) => s.(rows := s.rows - {binId})
    case CrashAll => s.(store := Apply(hash, s.store, Crash), uploads := map[])
  }

  /** The row keeps what the upload says: its names as they are, its path without a leading slash. */
  predicate RowHolds(row: Row, meta: Meta, stream: Bytes, checksum: string) {
    && row.directory == meta.directory && row.module_ == meta.module_ && row.fileName == meta.fileName
    && (meta.path == "" || meta.path[0] != '/' ==> row.path == meta.path)
    && (meta.path != "" && meta.path[0] == '/' ==> "/" + row.path == meta.path)
    && row.size == |stream| && row.checksum == checksum
  }

  /**
   An upload that picks its id and inserts at once, on a table of positive ids: with an answer to the
   query it gets in, under one past the largest id; without one, under the clock exactly if that is free.
   The row is that of its own file, and no other row changes.
   */
  lemma PickThenInsert(hash: Hasher, s: Service, id: nat, queryOk: bool, clock: int, meta: Meta)
    requires CanDo(hash, s, PickId(id, queryOk, clock)) && Saved(s.store, id) && ReturnsRecorded(hash, s.store)
    requires forall n | n in s.rows :: n > 0
    ensures
      var mid := Do(hash, s, PickId(id, queryOk, clock));
      var e := InsertRow(id, meta, true);
      && CanDo(hash, mid, e)
      && (Inserts(mid, e) <==> queryOk || clock !in s.rows)
      && (Inserts(mid, e) ==>
            var next, binId, stream := Do(hash, mid, e), mid.uploads[id].binId, s.store.calls[id].stream;
            && next.uploads[id] == Replied(binId) && binId !in s.rows && binId in next.rows
            && next.rows == s.rows[binId := next.rows[binId]] && RowHolds(next.rows[binId], meta, stream, hash(stream))
            && (if !queryOk then binId == clock
                else (forall n | n in s.rows :: n < binId) && (binId == 1 || binId - 1 in s.rows)))
  {
    NextIdIs(s.rows, queryOk, clock);
  }

  ghost predicate Sighted(hash: Hasher, s: Service, e: ServiceEvent)
    requires CanDo(hash, s, e)
  {
    e.SaveStep? ==> !Misread(hash, s.store, e.e)
  }

  ghost predicate ServiceRun(hash: Hasher, s: Service, trace: seq<ServiceEvent>, s': Service)
    decreases |trace|
  {
    if trace == [] then s == s'
    else CanDo(hash, s, trace[0]) && ServiceRun(hash, Do(hash, s, trace[0]), trace[1..], s')
  }

  /** A run in which no stat failure is taken for the existence of a missing object. */
  ghost predicate SightedServiceRun(hash: Hasher, s: Service, trace: seq<ServiceEvent>, s': Service)
    decreases |trace|
  {
    if trace == [] then s == s'
    else
      CanDo(hash, s, trace[0]) && Sighted(hash, s, trace[0])
      && SightedServiceRun(hash, Do(hash, s, trace[0]), trace[1..], s')
  }

  lemma {:induction false} SightedIsServiceRun(hash: Hasher, s: Service, trace: seq<ServiceEvent>, s': Service)
    requires SightedServiceRun(hash, s, trace, s')
    ensures ServiceRun(hash, s, trace, s')
    decreases |trace|
  {
    if trace != [] {
      SightedIsServiceRun(hash, Do(hash, s, trace[0]), trace[1..], s');
    }
  }

  // ---------- What every run keeps ----------

  /** A row has the checksum and the size of some stream that was offered, stored or not. */
  ghost predicate RowsOffered(hash: Hasher, s: Service) {
    forall n | n in s.rows :: exists b :: b in s.store.streams && s.rows[n].checksum == hash(b) && s.rows[n].size == |b|
  }

  ghost predicate IndexOk(s: Service) {
    forall h | h in s.phys :: s.phys[h] == ObjectPath(h)
  }

  ghost predicate LooseInv(hash: Hasher, s: Service) {
    Inv(hash, s.store) && ReturnsRecorded(hash, s.store) && RowsOffered(hash, s) && IndexOk(s)
  }

  lemma StoreStepKeepsLoose(hash: Hasher, s: Service, e: ServiceEvent)
    requires LooseInv(hash, s) && CanDo(hash, s, e)
    ensures
      var t := Do(hash, s, e).store;
      Inv(hash, t) && ReturnsRecorded(hash, t) && s.store.streams <= t.streams
  {
    if e.SaveStep? || e.CrashAll? {
      var se := if e.SaveStep? then e.e else Crash;
      StepKeepsInv(hash, s.store, se);
      StepKeepsReturns(hash, s.store, se);
    }
  }

  lemma StepKeepsLoose(hash: Hasher, s: Service, e: ServiceEvent)
    requires LooseInv(hash, s) && CanDo(hash, s, e)
    ensures LooseInv(hash, Do(hash, s, e))
  {
    var s' := Do(hash, s, e);
    StoreStepKeepsLoose(hash, s, e);
    forall n | n in s'.rows
      ensures exists b :: b in s'.store.streams && s'.rows[n].checksum == hash(b) && s'.rows[n].size == |b|
    {
      if n in s.rows && s'.rows[n] == s.rows[n] {
        var b :| b in s.store.streams && s.rows[n].checksum == hash(b) && s.rows[n].size == |b|;
        assert b in s'.store.streams;
      } else {
        var b := s.store.calls[e.id].stream;
        assert b in s'.store.streams && s'.rows[n].checksum == hash(b);
      }
    }
  }

  lemma {:induction false} RunKeepsLoose(hash: Hasher, s: Service, trace: seq<ServiceEvent>, s': Service)
    requires LooseInv(hash, s) && ServiceRun(hash, s, trace, s')
    ensures LooseInv(hash, s') && s.store.streams <= s'.store.streams
    decreases |trace|
  {
    if trace != [] {
      StepKeepsLoose(hash, s, trace[0]);
      StoreStepKeepsLoose(hash, s, trace[0]);
      RunKeepsLoose(hash, Do(hash, s, trace[0]), trace[1..], s');
    }
  }

  /** This event renames an object of the checksum into place. */
  ghost predicate Publishes(hash: Hasher, s: Service, e: ServiceEvent, h: string)
    requires CanDo(hash, s, e)
  {
    e.SaveStep? && Places(hash, s.store, e.e, h)
  }

  ghost predicate Published(hash: Hasher, s: Service, trace: seq<ServiceEvent>, s': Service, h: string)
    requires ServiceRun(hash, s, trace, s')
    decreases |trace|
  {
    trace != [] && (Publishes(hash, s, trace[0], h) || Published(hash, Do(hash, s, trace[0]), trace[1..], s', h))
  }

  /** Over any run of the service, objects are those there before and those some upload renamed into place. */
  lemma {:induction false} StoredIffPublished(hash: Hasher, s: Service, trace: seq<ServiceEvent>, s': Service, h: string)
    requires ServiceRun(hash, s, trace, s')
    ensures h in s'.store.disk.objects <==> h in s.store.disk.objects || Published(hash, s, trace, s', h)
    decreases |trace|
  {
    if trace != [] {
      var next := Do(hash, s, trace[0]);
      assert h in next.store.disk.objects <==> h in s.store.disk.objects || Publishes(hash, s, trace[0], h);
      StoredIffPublished(hash, next, trace[1..], s', h);
    }
  }

  // ---------- What sighted runs keep ----------

  ghost predicate TablesOk(s: Service) {
    && (forall n | n in s.rows ::
          s.rows[n].checksum in s.store.disk.objects
          && s.rows[n].size == |s.store.disk.objects[s.rows[n].checksum]|)
    && (forall h | h in s.phys :: s.phys[h] == ObjectPath(h) && h in s.store.disk.objects)
  }

  ghost predicate ServiceInv(hash: Hasher, s: Service) {
    Inv(hash, s.store) && Backed(hash, s.store) && ReturnsRecorded(hash, s.store) && TablesOk(s)
  }

  /** A call that returned success left its stream in the store. */
  lemma SavedIsStored(hash: Hasher, s: Store, id: nat)
    requires Inv(hash, s) && Backed(hash, s) && ReturnsRecorded(hash, s) && CollisionFree(hash, s.streams)
    requires Saved(s, id)
    ensures UploadStored(s, id) && s.calls[id].phase.result.checksum == hash(s.calls[id].stream)
  {
  }

  lemma StoreStepKeepsInv(hash: Hasher, s: Service, e: ServiceEvent)
    requires ServiceInv(hash, s) && CanDo(hash, s, e) && Sighted(hash, s, e)
    ensures
      var t := Do(hash, s, e).store;
      Inv(hash, t) && Backed(hash, t) && ReturnsRecorded(hash, t)
  {
    if e.SaveStep? || e.CrashAll? {
      var se := if e.SaveStep? then e.e else Crash;
      StepKeepsInv(hash, s.store, se);
      StepKeepsBacked(hash, s.store, se);
      StepKeepsReturns(hash, s.store, se);
    }
  }

  /** What a step other than a table change does to objects: nothing is lost. */
  lemma ObjectsSurvive(hash: Hasher, s: Service, e: ServiceEvent)
    requires Inv(hash, s.store) && CanDo(hash, s, e)
    requires CollisionFree(hash, Do(hash, s, e).store.streams)
    ensures Preserved(s.store.disk.objects, Do(hash, s, e).store.disk.objects)
    ensures CollisionFree(hash, s.store.streams)
  {
    if e.SaveStep? {
      StepGrowsStreams(hash, s.store, e.e);
      StepPreservesObjects(hash, s.store, e.e);
    }
  }

  lemma TablesSurvive(s: Service, s': Service)
    requires TablesOk(s) && Preserved(s.store.disk.objects, s'.store.disk.objects)
    requires s'.phys == s.phys && s'.rows == s.rows
    ensures TablesOk(s') && Contents(s') == Contents(s)
  {
    forall n | n in s.rows
      ensures Contents(s')[n] == Contents(s)[n]
    {
      assert s.rows[n].checksum in s.store.disk.objects;
    }
    assert Contents(s') == Contents(s);
  }

  lemma TableStepIsSound(hash: Hasher, s: Service, e: ServiceEvent)
    requires TablesOk(s) && CanDo(hash, s, e) && !e.SaveStep? && !e.CrashAll?
    requires e.RecordObject? || e.InsertRow? ==> UploadStored(s.store, e.id)
    ensures TablesOk(Do(hash, s, e))
    ensures Contents(Do(hash, s, e)) == Perform(Contents(s), ActionOf(s, e))
  {
    assert Contents(Do(hash, s, e)) == Perform(Contents(s), ActionOf(s, e));
  }

  /** The object of a finished call is in the store and is its stream. */
  predicate UploadStored(s: Store, id: nat) {
    Saved(s, id) && var saved := s.calls[id].phase.result;
    saved.checksum in s.disk.objects && s.disk.objects[saved.checksum] == s.calls[id].stream
    && saved.size == |s.calls[id].stream|
  }

  // ---------- Refinement of a plain map ----------

  /** What a client sees: the bytes behind every bin_id. */
  ghost function Contents(s: Service): map<int, Bytes>
    requires TablesOk(s)
  {
    map n | n in s.rows :: s.store.disk.objects[s.rows[n].checksum]
  }

  datatype Action = Stutter | Put(binId: int, content: Bytes) | Drop(binId: int)

  /** The effect of one event on the plain map. */
  ghost function ActionOf(s: Service, e: ServiceEvent): Action {
    if Inserts(s, e) && e.id in s.store.calls then Put(s.uploads[e.id].binId, s.store.calls[e.id].stream)
    else if e.DeleteRow? then Drop(e.binId)
    else Stutter
  }

  function Perform(m: map<int, Bytes>, a: Action): map<int, Bytes> {
    match a
    case Stutter => m
    case Put(n, content) => m[n := content]
    case Drop(n) => m - {n}
  }

  /**
   Each step of the service is one step of the map: an insert puts exactly the stream its own caller
   sent under an id that was free, a delete drops one id, and everything else, other uploads of the
   same content and crashes included, changes nothing a client can see.
   */
  lemma {:induction false} StepRefinesMap(hash: Hasher, s: Service, e: ServiceEvent)
    requires ServiceInv(hash, s) && CanDo(hash, s, e) && Sighted(hash, s, e)
    requires CollisionFree(hash, Do(hash, s, e).store.streams)
    ensures ServiceInv(hash, Do(hash, s, e))
    ensures Contents(Do(hash, s, e)) == Perform(Contents(s), ActionOf(s, e))
    ensures ActionOf(s, e).Put? ==> ActionOf(s, e).binId !in Contents(s)
  {
    var s' := Do(hash, s, e);
    StoreStepKeepsInv(hash, s, e);
    ObjectsSurvive(hash, s, e);
    if e.SaveStep? || e.CrashAll? {
      TablesSurvive(s, s');
    } else {
      if e.RecordObject? || e.InsertRow? {
        SavedIsStored(hash, s.store, e.id);
      }
      TableStepIsSound(hash, s, e);
    }
  }

  ghost function Actions(hash: Hasher, s: Service, trace: seq<ServiceEvent>, s': Service): seq<Action>
    requires ServiceRun(hash, s, trace, s')
    decreases |trace|
  {
    if trace == [] then []
    else [ActionOf(s, trace[0])] + Actions(hash, Do(hash, s, trace[0]), trace[1..], s')
  }

  function Replay(m: map<int, Bytes>, actions: seq<Action>): map<int, Bytes>
    decreases |actions|
  {
    if actions == [] then m else Replay(Perform(m, actions[0]), actions[1..])
  }

  lemma {:induction false} SightedGrowsStreams(hash: Hasher, s: Service, trace: seq<ServiceEvent>, s': Service)
    requires SightedServiceRun(hash, s, trace, s')
    ensures s.store.streams <= s'.store.streams
    decreases |trace|
  {
    if trace != [] {
      SightedGrowsStreams(hash, Do(hash, s, trace[0]), trace[1..], s');
    }
  }

  /** A whole sighted run: the service and the plain map, given the same actions, agree at the end. */
  lemma {:induction false} RunRefinesMap(hash: Hasher, s: Service, trace: seq<ServiceEvent>, s': Service)
    requires ServiceInv(hash, s) && SightedServiceRun(hash, s, trace, s') && CollisionFree(hash, s'.store.streams)
    ensures ServiceInv(hash, s') && ServiceRun(hash, s, trace, s')
    ensures Contents(s') == Replay(Contents(s), Actions(hash, s, trace, s'))
    decreases |trace|
  {
    if trace != [] {
      var next := Do(hash, s, trace[0]);
      SightedGrowsStreams(hash, next, trace[1..], s');
      StepRefinesMap(hash, s, trace[0]);
      RunRefinesMap(hash, next, trace[1..], s');
      var actions := Actions(hash, s, trace, s');
      assert actions[0] == ActionOf(s, trace[0]);
      assert actions[1..] == Actions(hash, next, trace[1..], s');
    }
  }

  /** The map has the rows' ids, and under each the stream of the row's checksum and size, stored or not. */
  ghost predicate Promises(hash: Hasher, s: Service, m: map<int, Bytes>) {
    && m.Keys == s.rows.Keys
    && forall n | n in m :: m[n] in s.store.streams && s.rows[n].checksum == hash(m[n]) && s.rows[n].size == |m[n]|
  }

  lemma StepKeepsPromises(hash: Hasher, s: Service, e: ServiceEvent, m: map<int, Bytes>)
    requires LooseInv(hash, s) && CanDo(hash, s, e) && Promises(hash, s, m)
    ensures Promises(hash, Do(hash, s, e), Perform(m, ActionOf(s, e)))
  {
    StoreStepKeepsLoose(hash, s, e);
    if e.InsertRow? {
      assert s.store.calls[e.id].stream in s.store.streams;
    }
  }

  lemma {:induction false} RunKeepsPromises(hash: Hasher, s: Service, trace: seq<ServiceEvent>, s': Service, m: map<int, Bytes>)
    requires LooseInv(hash, s) && ServiceRun(hash, s, trace, s') && Promises(hash, s, m)
    ensures Promises(hash, s', Replay(m, Actions(hash, s, trace, s')))
    decreases |trace|
  {
    if trace != [] {
      var next := Do(hash, s, trace[0]);
      StepKeepsLoose(hash, s, trace[0]);
      StepKeepsPromises(hash, s, trace[0], m);
      RunKeepsPromises(hash, next, trace[1..], s', Perform(m, ActionOf(s, trace[0])));
      var actions := Actions(hash, s, trace, s');
      assert actions[0] == ActionOf(s, trace[0]);
      assert actions[1..] == Actions(hash, next, trace[1..], s');
    }
  }

  /**
   Every run, misread stats included: the table has exactly the ids of the plain map, with the checksum
   and size of the bytes there, and those bytes are stored exactly when some upload published them.
   */
  lemma EveryRunRefinesMap(hash: Hasher, trace: seq<ServiceEvent>, s: Service)
    requires ServiceRun(hash, EmptyService, trace, s) && CollisionFree(hash, s.store.streams)
    ensures
      var m, objects := Replay(map[], Actions(hash, EmptyService, trace, s)), s.store.disk.objects;
      && m.Keys == s.rows.Keys
      && forall n | n in m ::
           && s.rows[n].checksum == hash(m[n]) && s.rows[n].size == |m[n]|
           && (hash(m[n]) in objects <==> Published(hash, EmptyService, trace, s, hash(m[n])))
           && (hash(m[n]) in objects ==> objects[hash(m[n])] == m[n])
  {
    var m := Replay(map[], Actions(hash, EmptyService, trace, s));
    RunKeepsLoose(hash, EmptyService, trace, s);
    RunKeepsPromises(hash, EmptyService, trace, s, map[]);
    forall n | n in m
      ensures hash(m[n]) in s.store.disk.objects <==> Published(hash, EmptyService, trace, s, hash(m[n]))
    {
      StoredIffPublished(hash, EmptyService, trace, s, hash(m[n]));
    }
  }

  // ---------- Serving ----------

  /** Files the service did not put in the store, by the place Open looks for them. */
  datatype Elsewhere = Elsewhere(
    root: map<string, Bytes>, direct: map<string, Bytes>, legacy: map<string, Bytes>, legacySet: bool)

  /**
   How one request goes: whether binary_file and physical_objects could be asked, and which of the
   attempts to open a file, counted from 0, fail although the place is occupied.
   */
  datatype Reading = Reading(rowOk: bool, indexOk: bool, failed: set<int>)

  const Smooth := Reading(true, true, {})

  /** The files as that request finds them. */
  datatype View = View(objects: map<string, Bytes>, world: Elsewhere, failed: set<int>)

  function Lookup(files: map<string, Bytes>, key: string): Option<Bytes> {
    if key in files then Some(files[key]) else None
  }

  function OrElse(a: Option<Bytes>, b: Option<Bytes>): Option<Bytes> {
    if a.Some? then a else b
  }

  /** A file under the storage root: an object, or something else. */
  function RootFile(objects: map<string, Bytes>, world: Elsewhere, rel: string): Option<Bytes> {
    if |rel| > 8 && rel[..8] == "objects/" && rel[8..] in objects then Some(objects[rel[8..]])
    else Lookup(world.root, rel)
  }

  /** os.Open and Stat on what is there. */
  function Try(v: View, attempt: int, there: Option<Bytes>): Option<Bytes> {
    if attempt in v.failed then None else there
  }

  /**
   Open: under the root, then the path as given, then under the legacy root, then its base name there.
   A place that cannot be opened is passed over. Its attempts are counted from first on.
   */
  function Open(v: View, path: string, first: int): Option<Bytes> {
    var rel := TrimSlash(path);
    OrElse(Try(v, first, RootFile(v.objects, v.world, Clean(rel))),
    OrElse(Try(v, first + 1, Lookup(v.world.direct, path)),
    if !v.world.legacySet then None
    else OrElse(Try(v, first + 2, Lookup(v.world.legacy, Clean(rel))), Try(v, first + 3, Lookup(v.world.legacy, Base(rel))))))
  }

  /** Where a row's file is looked for: by its stored path or, in the end, by its names. */
  function NamePath(row: Row): string {
    Join([if row.directory == "" then row.module_ else row.directory, row.fileName])
  }

  predicate InIndex(s: Service, row: Row, indexOk: bool) {
    indexOk && row.checksum != "" && row.checksum in s.phys
  }

  function PhysicalPath(s: Service, row: Row, indexOk: bool): string {
    if InIndex(s, row, indexOk) then s.phys[row.checksum] else row.path
  }

  function ViewOf(s: Service, world: Elsewhere, r: Reading): View {
    View(s.store.disk.objects, world, r.failed)
  }

  /** ServeFileByID: None is 404. */
  function ServeFileByID(s: Service, world: Elsewhere, binId: int, r: Reading): Option<Bytes> {
    if !r.rowOk || binId !in s.rows then None
    else
      var row := s.rows[binId];
      OrElse(Open(ViewOf(s, world, r), PhysicalPath(s, row, r.indexOk), 0), Open(ViewOf(s, world, r), NamePath(row), 4))
  }

  // ---------- The places a file is looked for ----------

  datatype Spot = UnderRoot(rel: string) | Direct(path: string) | UnderLegacy(rel: string)

  function At(objects: map<string, Bytes>, world: Elsewhere, spot: Spot): Option<Bytes> {
    match spot
    case UnderRoot(rel) => RootFile(objects, world, rel)
    case Direct(path) => Lookup(world.direct, path)
    case UnderLegacy(rel) => if world.legacySet then Lookup(world.legacy, rel) else None
  }

  /** The places of one path, in order. */
  function Spots(path: string): seq<Spot> {
    var rel := TrimSlash(path);
    [UnderRoot(Clean(rel)), Direct(path), UnderLegacy(Clean(rel)), UnderLegacy(Base(rel))]
  }

  /** The places of a row's stored path, then those of its names: attempts 0 to 7. */
  function RowSpots(path: string, row: Row): seq<Spot> {
    Spots(path) + Spots(NamePath(row))
  }

  /** The bytes that attempt finds, if it is not one that fails. */
  function Opened(v: View, spots: seq<Spot>, i: int): Option<Bytes>
    requires 0 <= i < |spots|
  {
    Try(v, i, At(v.objects, v.world, spots[i]))
  }

  /** No occupied place opens. */
  predicate NoneOpens(v: View, spots: seq<Spot>) {
    forall i | 0 <= i < |spots| :: Opened(v, spots, i) == None
  }

  /** The first place that opens holds these bytes. */
  predicate FirstHolds(v: View, spots: seq<Spot>, content: Bytes) {
    exists i :: 0 <= i < |spots| && FirstAt(v, spots, i, content)
  }

  predicate FirstAt(v: View, spots: seq<Spot>, i: int, content: Bytes)
    requires 0 <= i < |spots|
  {
    Opened(v, spots, i) == Some(content) && forall j | 0 <= j < i :: Opened(v, spots, j) == None
  }

  /** The attempts from first on: their spots, in order. */
  function Attempt(v: View, path: string, first: int, k: int): Option<Bytes>
    requires 0 <= k < 4
  {
    Try(v, first + k, At(v.objects, v.world, Spots(path)[k]))
  }

  lemma OpenTriesFour(v: View, path: string, first: int)
    ensures Open(v, path, first) ==
      OrElse(Attempt(v, path, first, 0), OrElse(Attempt(v, path, first, 1),
      OrElse(Attempt(v, path, first, 2), Attempt(v, path, first, 3))))
  {
  }

  /** What Open finds is what the first of its four attempts that opens finds. */
  predicate FirstOfFour(v: View, path: string, first: int, k: int) {
    0 <= k < 4 && Attempt(v, path, first, k) == Open(v, path, first) && forall j | 0 <= j < k :: Attempt(v, path, first, j) == None
  }

  lemma OpenTakesFirst(v: View, path: string, first: int) returns (k: int)
    ensures FirstOfFour(v, path, first, k) && (Open(v, path, first) == None ==> k == 3)
  {
    OpenTriesFour(v, path, first);
    k := if Attempt(v, path, first, 0).Some? then 0
         else if Attempt(v, path, first, 1).Some? then 1
         else if Attempt(v, path, first, 2).Some? then 2
         else 3;
  }

  lemma AttemptsOfRow(v: View, path: string, row: Row)
    ensures forall i | 0 <= i < 4 :: Opened(v, RowSpots(path, row), i) == Attempt(v, path, 0, i)
    ensures forall i | 4 <= i < 8 :: Opened(v, RowSpots(path, row), i) == Attempt(v, NamePath(row), 4, i - 4)
  {
  }

  lemma RowTakesFirst(v: View, path: string, row: Row)
    ensures
      var spots, found := RowSpots(path, row), OrElse(Open(v, path, 0), Open(v, NamePath(row), 4));
      && (found == None ==> NoneOpens(v, spots))
      && (found.Some? ==> FirstHolds(v, spots, found.value))
  {
    var spots := RowSpots(path, row);
    AttemptsOfRow(v, path, row);
    var k := OpenTakesFirst(v, path, 0);
    var l := OpenTakesFirst(v, NamePath(row), 4);
    if Open(v, path, 0).Some? {
      assert FirstAt(v, spots, k, Open(v, path, 0).value);
    } else if Open(v, NamePath(row), 4).Some? {
      assert FirstAt(v, spots, 4 + l, Open(v, NamePath(row), 4).value);
    }
  }

  /** Serving a row answers 404 exactly when none of its places opens, and otherwise with the first that does. */
  lemma ServeTakesFirst(s: Service, world: Elsewhere, binId: int, r: Reading)
    requires binId in s.rows && r.rowOk
    ensures
      var row := s.rows[binId];
      var spots, v := RowSpots(PhysicalPath(s, row, r.indexOk), row), ViewOf(s, world, r);
      && (ServeFileByID(s, world, binId, r) == None <==> NoneOpens(v, spots))
      && (forall c :: ServeFileByID(s, world, binId, r) == Some(c) <==> FirstHolds(v, spots, c))
  {
    RowTakesFirst(ViewOf(s, world, r), PhysicalPath(s, s.rows[binId], r.indexOk), s.rows[binId]);
  }

  /** The places of a row's names: below its directory if it has one, below its module otherwise. */
  lemma NameSpots(row: Row)
    requires Normal(row.fileName)
    ensures row.directory == "" && Normal(row.module_) ==>
      var path := row.module_ + "/" + row.fileName;
      Spots(NamePath(row)) == [UnderRoot(path), Direct(path), UnderLegacy(path), UnderLegacy(row.fileName)]
    ensures Normal(row.directory) ==>
      var path := row.directory + "/" + row.fileName;
      Spots(NamePath(row)) == [UnderRoot(path), Direct(path), UnderLegacy(path), UnderLegacy(row.fileName)]
  {
    var dir := if row.directory == "" then row.module_ else row.directory;
    if Normal(dir) {
      TwoNames(dir, row.fileName);
    }
  }

  /** The places of an absolute path: its slash counts only for the path as given. */
  lemma AbsoluteSpots(dir: string, name: string)
    requires Normal(dir) && Normal(name)
    ensures Spots("/" + dir + "/" + name) ==
      [UnderRoot(dir + "/" + name), Direct("/" + dir + "/" + name), UnderLegacy(dir + "/" + name), UnderLegacy(name)]
  {
    TwoNames(dir, name);
    assert ("/" + dir + "/" + name)[1..] == dir + "/" + name;
  }

  /** With files at both names, a row with a directory is served the one there, not the one at its module. */
  lemma DirectoryGoesFirst(s: Service, binId: int, r: Reading, atDirectory: Bytes, atModule: Bytes)
    requires binId in s.rows && r == Reading(true, r.indexOk, {0, 1, 2, 3})
    requires Normal(s.rows[binId].directory) && Normal(s.rows[binId].fileName) && s.rows[binId].module_ != s.rows[binId].directory
    requires s.rows[binId].directory != "objects"
    ensures
      var row := s.rows[binId];
      var a, b := row.directory + "/" + row.fileName, row.module_ + "/" + row.fileName;
      ServeFileByID(s, Elsewhere(map[], map[], map[b := atModule][a := atDirectory], true), binId, r) == Some(atDirectory)
  {
    var row := s.rows[binId];
    var a, b := row.directory + "/" + row.fileName, row.module_ + "/" + row.fileName;
    var v := ViewOf(s, Elsewhere(map[], map[], map[b := atModule][a := atDirectory], true), r);
    NameSpots(row);
    OpenTriesFour(v, NamePath(row), 4);
    NotAnObject(row.directory, row.fileName);
  }

  lemma NotAnObject(dir: string, name: string)
    requires Normal(dir) && dir != "objects"
    ensures
      var path := dir + "/" + name;
      |path| <= 8 || path[..8] != "objects/"
  {
    var path, own := dir + "/" + name, "objects/";
    assert path[|dir|] == '/' && own[7] == '/' && forall i | 0 <= i < 7 :: own[i] != '/';
    assert forall i | 0 <= i < |dir| :: dir[i] in dir && path[i] == dir[i];
    assert |dir| == 7 ==> path[..8] == dir + "/";
  }

  /** Checksums are file names: not empty, no slash, not a dot directory. */
  ghost predicate NamesFiles(hash: Hasher) {
    forall b: Bytes :: Normal(hash(b))
  }

  lemma ObjectPathIsClean(h: string)
    requires Normal(h)
    ensures TrimSlash(ObjectPath(h)) == ObjectPath(h) && Clean(ObjectPath(h)) == ObjectPath(h)
  {
    assert ObjectPath(h) == "objects" + "/" + h;
    SplitAppend("objects", h);
    SplitOne("objects");
    PushAllAppend(false, [], ["objects"], h);
    assert PushAll(false, [], ["objects"]) == ["objects"];
    JoinWithAppend(["objects"], h);
  }

  /** An indexed object that opens is served before anything else with any name anywhere. */
  lemma OpenFindsObject(v: View, h: string)
    requires Normal(h) && h in v.objects
    ensures Spots(ObjectPath(h))[0] == UnderRoot(ObjectPath(h)) && At(v.objects, v.world, UnderRoot(ObjectPath(h))) == Some(v.objects[h])
    ensures 0 !in v.failed ==> Open(v, ObjectPath(h), 0) == Some(v.objects[h])
  {
    ObjectPathIsClean(h);
    assert ObjectPath(h)[..8] == "objects/" && ObjectPath(h)[8..] == h;
  }

  /**
   opens: the row leads to its stored object, and that opens. The answer is right exactly if so, or
   if the first place that does open happens to hold the same bytes; 404 exactly when nothing opens.
   */
  predicate RightIff(served: Option<Bytes>, rowOk: bool, opens: bool, v: View, spots: seq<Spot>, stream: Bytes) {
    && (served == Some(stream) <==> rowOk && (opens || FirstHolds(v, spots, stream)))
    && (served == None <==> !rowOk || (!opens && NoneOpens(v, spots)))
  }

  /** The row's object is found by its checksum, is stored, and opens. */
  predicate ObjectOpens(s: Service, row: Row, r: Reading) {
    InIndex(s, row, r.indexOk) && row.checksum in s.store.disk.objects && 0 !in r.failed
  }

  /** When serving a row is right, and when it is 404, whatever cannot be read and whatever is missing. */
  lemma ServeIsRightIff(hash: Hasher, s: Service, world: Elsewhere, binId: int, r: Reading, stream: Bytes)
    requires LooseInv(hash, s) && NamesFiles(hash) && CollisionFree(hash, s.store.streams)
    requires binId in s.rows && stream in s.store.streams && s.rows[binId].checksum == hash(stream)
    ensures
      var row := s.rows[binId];
      RightIff(ServeFileByID(s, world, binId, r), r.rowOk, ObjectOpens(s, row, r),
               ViewOf(s, world, r), RowSpots(PhysicalPath(s, row, r.indexOk), row), stream)
  {
    var row := s.rows[binId];
    if r.rowOk {
      ServeTakesFirst(s, world, binId, r);
      if ObjectOpens(s, row, r) {
        OpenFindsObject(ViewOf(s, world, r), row.checksum);
        assert s.store.disk.objects[row.checksum] == stream;
      }
    }
  }

  // ---------- Rows over runs ----------

  predicate NoDelete(trace: seq<ServiceEvent>, binId: int) {
    forall i | 0 <= i < |trace| :: trace[i] != DeleteRow(binId)
  }

  lemma RowSurvives(hash: Hasher, s: Service, e: ServiceEvent, binId: int)
    requires CanDo(hash, s, e) && binId in s.rows && e != DeleteRow(binId)
    ensures
      var next := Do(hash, s, e);
      binId in next.rows && next.rows[binId] == s.rows[binId]
  {
  }

  lemma {:induction false} RowSurvivesRun(hash: Hasher, s: Service, trace: seq<ServiceEvent>, s': Service, binId: int)
    requires ServiceRun(hash, s, trace, s') && binId in s.rows && NoDelete(trace, binId)
    ensures binId in s'.rows && s'.rows[binId] == s.rows[binId]
    decreases |trace|
  {
    if trace != [] {
      RowSurvives(hash, s, trace[0], binId);
      RowSurvivesRun(hash, Do(hash, s, trace[0]), trace[1..], s', binId);
    }
  }

  /** This event puts the checksum into physical_objects. */
  ghost predicate Records(hash: Hasher, s: Service, e: ServiceEvent, h: string)
    requires CanDo(hash, s, e)
  {
    e.RecordObject? && e.ok && s.store.calls[e.id].phase.result.checksum == h
  }

  /** Some upload of a run puts the checksum there. */
  ghost predicate Recorded(hash: Hasher, s: Service, trace: seq<ServiceEvent>, s': Service, h: string)
    requires ServiceRun(hash, s, trace, s')
    decreases |trace|
  {
    trace != [] && (Records(hash, s, trace[0], h) || Recorded(hash, Do(hash, s, trace[0]), trace[1..], s', h))
  }

  lemma {:induction false} IndexedIffRecorded(hash: Hasher, s: Service, trace: seq<ServiceEvent>, s': Service, h: string)
    requires ServiceRun(hash, s, trace, s')
    ensures h in s'.phys <==> h in s.phys || Recorded(hash, s, trace, s', h)
    decreases |trace|
  {
    if trace != [] {
      var next := Do(hash, s, trace[0]);
      assert h in next.phys <==> h in s.phys || Records(hash, s, trace[0], h);
      IndexedIffRecorded(hash, next, trace[1..], s', h);
    }
  }

  /** Right after its insert the row has the checksum of its upload. */
  lemma InsertedRow(hash: Hasher, s: Service, e: ServiceEvent)
    requires LooseInv(hash, s) && CanDo(hash, s, e) && Inserts(s, e)
    ensures
      var next, binId, stream := Do(hash, s, e), s.uploads[e.id].binId, s.store.calls[e.id].stream;
      && LooseInv(hash, next) && next.phys == s.phys && next.store == s.store
      && binId in next.rows && next.rows[binId].checksum == hash(stream) && stream in next.store.streams
  {
    StepKeepsLoose(hash, s, e);
  }

  /**
   An upload and what becomes of it: past leads to s, where e inserts its row, and after any future
   without a delete of that id the service is in s'.
   */
  ghost predicate Uploads(hash: Hasher, past: seq<ServiceEvent>, s: Service, e: ServiceEvent,
                          future: seq<ServiceEvent>, s': Service)
  {
    && ServiceRun(hash, EmptyService, past, s) && CanDo(hash, s, e) && Inserts(s, e)
    && ServiceRun(hash, Do(hash, s, e), future, s') && NoDelete(future, s.uploads[e.id].binId)
    && NamesFiles(hash) && CollisionFree(hash, s'.store.streams)
  }

  /** Some upload of the same content got as far as its rename. */
  ghost predicate EverPublished(hash: Hasher, past: seq<ServiceEvent>, s: Service, e: ServiceEvent,
                                future: seq<ServiceEvent>, s': Service, h: string)
    requires Uploads(hash, past, s, e, future, s')
  {
    Published(hash, EmptyService, past, s, h) || Published(hash, Do(hash, s, e), future, s', h)
  }

  /** What serving the id comes to, if the index has the checksum by then exactly when indexed says so. */
  lemma UploadIsServedIff(hash: Hasher, past: seq<ServiceEvent>, s: Service, e: ServiceEvent,
                          future: seq<ServiceEvent>, s': Service, world: Elsewhere, r: Reading, indexed: bool)
    requires Uploads(hash, past, s, e, future, s')
    requires indexed <==> hash(s.store.calls[e.id].stream) in s'.phys
    ensures
      var binId, stream := s.uploads[e.id].binId, s.store.calls[e.id].stream;
      var h, row := hash(stream), Do(hash, s, e).rows[binId];
      var path := if r.indexOk && indexed then ObjectPath(h) else row.path;
      RightIff(ServeFileByID(s', world, binId, r), r.rowOk,
               r.indexOk && indexed && EverPublished(hash, past, s, e, future, s', h) && 0 !in r.failed,
               ViewOf(s', world, r), RowSpots(path, row), stream)
  {
    var next := Do(hash, s, e);
    var binId, stream := s.uploads[e.id].binId, s.store.calls[e.id].stream;
    RunKeepsLoose(hash, EmptyService, past, s);
    InsertedRow(hash, s, e);
    RunKeepsLoose(hash, next, future, s');
    RowSurvivesRun(hash, next, future, s', binId);
    StoredIffPublished(hash, EmptyService, past, s, hash(stream));
    StoredIffPublished(hash, next, future, s', hash(stream));
    assert Normal(hash(stream));
    ServeIsRightIff(hash, s', world, binId, r, stream);
  }

  /**
   The promise of the service. Take any reachable state, any upload that inserts its row there after
   its object was indexed, and any continuation without a delete of that very id: uploads and deletes
   of other ids, even with the same content, failures, misread stats and crashes. While the tables can be
   asked, serving the id returns exactly the bytes that were uploaded if some upload of that content
   was ever renamed into place and the object opens. Otherwise the first place that opens decides.
   */
  lemma UploadedBytesAreServed(hash: Hasher, past: seq<ServiceEvent>, s: Service, e: ServiceEvent,
                               future: seq<ServiceEvent>, s': Service, world: Elsewhere, r: Reading)
    requires Uploads(hash, past, s, e, future, s')
    requires hash(s.store.calls[e.id].stream) in s.phys
    ensures
      var binId, stream := s.uploads[e.id].binId, s.store.calls[e.id].stream;
      var h, row := hash(stream), Do(hash, s, e).rows[binId];
      RightIff(ServeFileByID(s', world, binId, r), r.rowOk,
               r.indexOk && EverPublished(hash, past, s, e, future, s', h) && 0 !in r.failed,
               ViewOf(s', world, r), RowSpots(if r.indexOk then ObjectPath(h) else row.path, row), stream)
  {
    IndexedIffRecorded(hash, Do(hash, s, e), future, s', hash(s.store.calls[e.id].stream));
    UploadIsServedIff(hash, past, s, e, future, s', world, r, true);
  }

  /**
   An upload whose own index insert failed: its bytes are served as above once an upload of the same
   content is indexed. Until then the places of the row's own path and names decide.
   */
  lemma UnindexedUntilRecorded(hash: Hasher, past: seq<ServiceEvent>, s: Service, e: ServiceEvent,
                               future: seq<ServiceEvent>, s': Service, world: Elsewhere, r: Reading)
    requires Uploads(hash, past, s, e, future, s')
    requires hash(s.store.calls[e.id].stream) !in s.phys
    ensures
      var binId, stream := s.uploads[e.id].binId, s.store.calls[e.id].stream;
      var h, row := hash(stream), Do(hash, s, e).rows[binId];
      var indexed := r.indexOk && Recorded(hash, Do(hash, s, e), future, s', h);
      RightIff(ServeFileByID(s', world, binId, r), r.rowOk,
               indexed && EverPublished(hash, past, s, e, future, s', h) && 0 !in r.failed,
               ViewOf(s', world, r), RowSpots(if indexed then ObjectPath(h) else row.path, row), stream)
  {
    var h := hash(s.store.calls[e.id].stream);
    IndexedIffRecorded(hash, Do(hash, s, e), future, s', h);
    UploadIsServedIff(hash, past, s, e, future, s', world, r, h in s'.phys);
  }

  /** If no stat was misread before the insert, the content was published: what misreads come later is all one. */
  lemma SightedUploadIsPublished(hash: Hasher, past: seq<ServiceEvent>, s: Service, e: ServiceEvent,
                                 future: seq<ServiceEvent>, s': Service)
    requires Uploads(hash, past, s, e, future, s') && SightedServiceRun(hash, EmptyService, past, s)
    ensures EverPublished(hash, past, s, e, future, s', hash(s.store.calls[e.id].stream))
  {
    RunKeepsLoose(hash, EmptyService, past, s);
    InsertedRow(hash, s, e);
    RunKeepsLoose(hash, Do(hash, s, e), future, s');
    RunRefinesMap(hash, EmptyService, past, s);
    SavedIsStored(hash, s.store, e.id);
    StoredIffPublished(hash, EmptyService, past, s, hash(s.store.calls[e.id].stream));
  }

  // ---------- Two runs that go wrong ----------

  lemma SightedRunStep(hash: Hasher, s: Service, e: ServiceEvent, rest: seq<ServiceEvent>, s': Service)
    requires CanDo(hash, s, e) && Sighted(hash, s, e) && SightedServiceRun(hash, Do(hash, s, e), rest, s')
    ensures SightedServiceRun(hash, s, [e] + rest, s')
  {
    assert ([e] + rest)[1..] == rest;
  }

  /** A call alone in an empty store: five events from the open temporary file to the published object. */
  lemma FirstSave(hash: Hasher, stream: Bytes, rest: seq<ServiceEvent>, s': Service) returns (trace: seq<ServiceEvent>)
    requires SightedServiceRun(hash, AfterFirstSave(hash, stream), rest, s')
    ensures SightedServiceRun(hash, EmptyService, trace, s')
  {
    var copied := Copied(stream);
    trace := [SaveStep(CopyEnd(0)), SaveStep(Probe(0, NotFound)), SaveStep(Rename(0, true))] + rest;
    LastSteps(hash, stream, rest, s');
    var s1 := Do(hash, EmptyService, SaveStep(Begin(0, 0, stream)));
    assert Do(hash, s1, SaveStep(CopyChunk(0, |stream|))) == copied by {
      assert [] + stream[0..|stream|] == stream;
    }
    SightedRunStep(hash, s1, SaveStep(CopyChunk(0, |stream|)), trace, s');
    trace := [SaveStep(CopyChunk(0, |stream|))] + trace;
    SightedRunStep(hash, EmptyService, SaveStep(Begin(0, 0, stream)), trace, s');
    trace := [SaveStep(Begin(0, 0, stream))] + trace;
  }

  /** The only call has copied its stream. */
  ghost function Copied(stream: Bytes): Service {
    EmptyService.(store := Store(Disk(map[0 := stream], map[]), map[0 := Call(0, stream, Copying(|stream|))], {stream}, {}))
  }

  lemma LastSteps(hash: Hasher, stream: Bytes, rest: seq<ServiceEvent>, s': Service)
    requires SightedServiceRun(hash, AfterFirstSave(hash, stream), rest, s')
    ensures SightedServiceRun(hash, Copied(stream), [SaveStep(CopyEnd(0)), SaveStep(Probe(0, NotFound)), SaveStep(Rename(0, true))] + rest, s')
  {
    var s2 := Copied(stream);
    var e3, e4, e5 := SaveStep(CopyEnd(0)), SaveStep(Probe(0, NotFound)), SaveStep(Rename(0, true));
    var s3 := Do(hash, s2, e3);
    var s4 := Do(hash, s3, e4);
    assert Do(hash, s4, e5) == AfterFirstSave(hash, stream);
    SightedRunStep(hash, s4, e5, rest, s');
    SightedRunStep(hash, s3, e4, [e5] + rest, s');
    SightedRunStep(hash, s2, e3, [e4] + ([e5] + rest), s');
    assert [e3] + ([e4] + ([e5] + rest)) == [e3, e4, e5] + rest;
  }

  ghost function AfterFirstSave(hash: Hasher, stream: Bytes): Service {
    var h := hash(stream);
    EmptyService.(store := Store(
      Disk(map[], map[h := stream]),
      map[0 := Call(0, stream, Returned(Stored(h, |stream|)))],
      {stream}, {Receipt(h, |stream|, stream)}))
  }

  const Nowhere := Elsewhere(map[], map[], map[], true)

  const NamedMF := Meta("", "", "m", "f")

  /** The first upload goes on from its saved object to its row. */
  lemma FirstUpload(hash: Hasher, stream: Bytes, indexed: bool) returns (trace: seq<ServiceEvent>, s: Service)
    ensures SightedServiceRun(hash, EmptyService, trace, s)
    ensures s.uploads == map[0 := Replied(1)] && s.rows == map[1 := Row("", "", "m", "f", |stream|, hash(stream))]
    ensures s.store.disk.objects == map[hash(stream) := stream]
    ensures s.phys == if indexed then map[hash(stream) := ObjectPath(hash(stream))] else map[]
  {
    var saved := AfterFirstSave(hash, stream);
    var e6, e7, e8 := RecordObject(0, indexed), PickId(0, true, 0), InsertRow(0, NamedMF, true);
    var s6 := Do(hash, saved, e6);
    var s7 := Do(hash, s6, e7);
    s := Do(hash, s7, e8);
    assert s6.rows.Keys == {};
    assert s7.uploads[0] == HasId(1);
    assert TrimSlash("") == "";
    SightedRunStep(hash, s7, e8, [], s);
    SightedRunStep(hash, s6, e7, [e8] + [], s);
    SightedRunStep(hash, saved, e6, [e7] + ([e8] + []), s);
    trace := FirstSave(hash, stream, [e6] + ([e7] + ([e8] + [])), s);
  }

  /**
   The upload that continues after a failed physical_objects insert is answered with an id that then
   serves 404, although the bytes are in the store: the run below does it for every hash and stream.
   */
  lemma UnindexedUploadIs404(hash: Hasher, stream: Bytes) returns (trace: seq<ServiceEvent>, s: Service)
    ensures SightedServiceRun(hash, EmptyService, trace, s)
    ensures s.uploads == map[0 := Replied(1)] && 1 in s.rows
    ensures TablesOk(s) && Contents(s) == map[1 := stream]
    ensures ServeFileByID(s, Nowhere, 1, Smooth) == None
  {
    trace, s := FirstUpload(hash, stream, false);
    assert Contents(s) == map[1 := stream];
    assert Split("") == [""];
    assert PushAll(false, [], [""]) == [];
    TwoNames("m", "f");
  }

  /** A file at the names m/f below the legacy root, and nothing else the service did not store. */
  function LegacyMF(other: Bytes): Elsewhere {
    Elsewhere(map[], map[], map["m/f" := other], true)
  }

  lemma FailedObjectFindsNothing(v: View, h: string, other: Bytes)
    requires Normal(h) && v.world == LegacyMF(other) && v.failed == {0}
    ensures Open(v, ObjectPath(h), 0) == None
  {
    ObjectPathIsClean(h);
    assert ObjectPath(h)[0] == 'o' && "m/f"[0] == 'm' && "m/f"[1] == '/';
    assert Base(ObjectPath(h)) != "m/f";
  }

  lemma NamesFindLegacy(v: View, row: Row, other: Bytes)
    requires v.world == LegacyMF(other) && v.failed == {0} && row.directory == "" && row.module_ == "m" && row.fileName == "f"
    ensures Open(v, NamePath(row), 4) == Some(other)
  {
    TwoNames("m", "f");
    assert "m" + "/" + "f" == "m/f";
  }

  /**
   Found in the code: with a file at the row's own names below the legacy root, one failed open of the
   object serves that file under the id, although the object is stored, indexed and intact.
   */
  lemma FailedOpenServesAnother(hash: Hasher, stream: Bytes, other: Bytes) returns (trace: seq<ServiceEvent>, s: Service)
    requires NamesFiles(hash)
    ensures SightedServiceRun(hash, EmptyService, trace, s) && s.uploads == map[0 := Replied(1)]
    ensures ServeFileByID(s, LegacyMF(other), 1, Smooth) == Some(stream)
    ensures ServeFileByID(s, LegacyMF(other), 1, Smooth.(failed := {0})) == Some(other)
  {
    trace, s := FirstUpload(hash, stream, true);
    assert Normal(hash(stream));
    OpenFindsObject(ViewOf(s, LegacyMF(other), Smooth), hash(stream));
    var v := ViewOf(s, LegacyMF(other), Smooth.(failed := {0}));
    FailedObjectFindsNothing(v, hash(stream), other);
    NamesFindLegacy(v, s.rows[1], other);
  }
}
