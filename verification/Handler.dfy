/**
 The HTTP handlers over storage and tables: one upload, a bulk upload, a delete.
 Parsing and responses are left out; each outside answer is a field of the attempt.
 */
module Handler {
  import opened Content
  import opened CasStore
  import opened Collections
  import opened Paths
  import opened SaveCas
  import opened BlobService

  /** One file of a request, and what the outside world answers while it is stored. */
  datatype Attempt = Attempt(
    stamp: int, openFails: bool, chunks: seq<Bytes>, faults: Faults,
    indexOk: bool, queryOk: bool, clock: int, insertOk: bool, meta: Meta)

  datatype UploadResult = Created(binId: int) | Error

  function Stream(a: Attempt): Bytes {
    Flatten(a.chunks)
  }

  /** The row an upload writes. */
  function RowOf(hash: Hasher, a: Attempt): Row {
    Row(TrimSlash(a.meta.path), a.meta.directory, a.meta.module_, a.meta.fileName, |Stream(a)|, hash(Stream(a)))
  }

  /** Objects on disk, physical_objects and binary_file. */
  datatype Tables = Tables(objects: map<string, Bytes>, phys: map<string, string>, rows: map<int, Row>)

  // ---------- One upload, as a function ----------

  predicate Present(hash: Hasher, objects: map<string, Bytes>, a: Attempt) {
    hash(Stream(a)) in objects
  }

  /** SaveCAS returns an error. */
  predicate SaveFails(hash: Hasher, objects: map<string, Bytes>, a: Attempt) {
    a.openFails || a.faults.readFails
    || (!a.faults.statFails && !Present(hash, objects, a) && a.faults.renameFails && !a.faults.restatFails)
  }

  /** SaveCAS takes a failed stat for the presence of a missing object. */
  predicate Blind(hash: Hasher, objects: map<string, Bytes>, a: Attempt) {
    && !a.openFails && !a.faults.readFails && !Present(hash, objects, a)
    && (a.faults.statFails || (a.faults.renameFails && a.faults.restatFails))
  }

  function ObjectsAfter(hash: Hasher, objects: map<string, Bytes>, a: Attempt): map<string, Bytes> {
    if SaveFails(hash, objects, a) || Present(hash, objects, a) || Blind(hash, objects, a) then objects
    else objects[hash(Stream(a)) := Stream(a)]
  }

  lemma RowOfHolds(hash: Hasher, a: Attempt)
    ensures RowHolds(RowOf(hash, a), a.meta, Stream(a), hash(Stream(a)))
  {
  }

  ghost function ResultOf(hash: Hasher, t: Tables, a: Attempt): UploadResult {
    var id := NextId(t.rows, a.queryOk, a.clock);
    if SaveFails(hash, t.objects, a) || !a.insertOk || id in t.rows then Error else Created(id)
  }

  ghost function UploadOne(hash: Hasher, t: Tables, a: Attempt): Tables {
    var h := hash(Stream(a));
    Tables(ObjectsAfter(hash, t.objects, a),
           if !SaveFails(hash, t.objects, a) && a.indexOk && h !in t.phys then t.phys[h := ObjectPath(h)] else t.phys,
           match ResultOf(hash, t, a) case Created(id) => t.rows[id := RowOf(hash, a)] case Error => t.rows)
  }

  ghost function UploadAll(hash: Hasher, t: Tables, files: seq<Attempt>): Tables {
    if files == [] then t else UploadOne(hash, UploadAll(hash, t, files[..|files| - 1]), files[|files| - 1])
  }

  ghost function Results(hash: Hasher, t: Tables, files: seq<Attempt>): seq<UploadResult> {
    if files == [] then []
    else
      var front := files[..|files| - 1];
      Results(hash, t, front) + [ResultOf(hash, UploadAll(hash, t, front), files[|files| - 1])]
  }

  // ---------- Which id an upload gets ----------

  /** One past the largest of the ids, or 1 if there are none. */
  ghost predicate OnePast(rows: map<int, Row>, id: int) {
    (forall n | n in rows :: n < id) && (if rows == map[] then id == 1 else id - 1 in rows)
  }

  /**
   On a table of positive ids, an upload whose save and insert work is answered with one past the
   largest id; if the query for it fails, with the clock, or with an error if a row has that id.
   The row holds what was uploaded, and nothing else in the table changes.
   */
  lemma UploadIsAnswered(hash: Hasher, t: Tables, a: Attempt)
    requires !SaveFails(hash, t.objects, a) && a.insertOk && forall n | n in t.rows :: n > 0
    ensures
      var r, rows := ResultOf(hash, t, a), UploadOne(hash, t, a).rows;
      && (a.queryOk ==> r.Created? && OnePast(t.rows, r.binId))
      && (!a.queryOk ==> r == if a.clock in t.rows then Error else Created(a.clock))
      && (r.Created? ==>
            && r.binId in rows && rows == t.rows[r.binId := rows[r.binId]]
            && RowHolds(rows[r.binId], a.meta, Stream(a), hash(Stream(a))))
      && (r.Error? ==> rows == t.rows)
  {
    NextIdIs(t.rows, a.queryOk, a.clock);
    RowOfHolds(hash, a);
  }

  /**
   The index has a checksum after an upload exactly when it had it, or it is that of the file, the save
   worked and so did the insert; an entry once there stays, and a new one leads to objects.
   */
  lemma UploadIsIndexed(hash: Hasher, t: Tables, a: Attempt, h: string)
    ensures
      var phys := UploadOne(hash, t, a).phys;
      && (h in phys <==> h in t.phys || (h == hash(Stream(a)) && !SaveFails(hash, t.objects, a) && a.indexOk))
      && (h in t.phys ==> phys[h] == t.phys[h])
      && (h in phys && h !in t.phys ==> phys[h] == "objects/" + h)
  {
  }

  /** Nothing fails while this file is stored, whatever is stored already. */
  predicate NothingFails(a: Attempt) {
    !a.openFails && !a.faults.readFails && !a.faults.renameFails && a.queryOk && a.insertOk
  }

  /** The ids are positive and go up to top. */
  ghost predicate UpTo(rows: map<int, Row>, top: nat) {
    (forall n | n in rows :: 0 < n <= top) && (top in rows || (rows == map[] && top == 0))
  }

  lemma NextOne(hash: Hasher, t: Tables, a: Attempt, top: nat)
    requires UpTo(t.rows, top) && NothingFails(a)
    ensures ResultOf(hash, t, a) == Created(top + 1) && UpTo(UploadOne(hash, t, a).rows, top + 1)
  {
    UploadIsAnswered(hash, t, a);
  }

  /** Each answer is an id, they count up from one past top, and the table's ids go up to the last. */
  ghost predicate CountsUp(rows: map<int, Row>, results: seq<UploadResult>, top: nat) {
    UpTo(rows, top + |results|) && forall i | 0 <= i < |results| :: results[i] == Created(top + 1 + i)
  }

  lemma CountsOn(hash: Hasher, mid: Tables, a: Attempt, before: seq<UploadResult>, top: nat)
    requires CountsUp(mid.rows, before, top) && NothingFails(a)
    ensures CountsUp(UploadOne(hash, mid, a).rows, before + [ResultOf(hash, mid, a)], top)
  {
    NextOne(hash, mid, a, top + |before|);
  }

  /** A bulk upload in which nothing fails, on a table of positive ids: consecutive ids, in the order of the files. */
  lemma {:induction false} BulkIdsAreConsecutive(hash: Hasher, t: Tables, files: seq<Attempt>, top: nat)
    requires UpTo(t.rows, top) && forall a | a in files :: NothingFails(a)
    ensures |Results(hash, t, files)| == |files| && CountsUp(UploadAll(hash, t, files).rows, Results(hash, t, files), top)
    decreases |files|
  {
    if files != [] {
      var front, a := files[..|files| - 1], files[|files| - 1];
      BulkIdsAreConsecutive(hash, t, front, top);
      CountsOn(hash, UploadAll(hash, t, front), a, Results(hash, t, front), top);
    }
  }

  // ---------- What uploads and deletes do to what clients see ----------

  /** Objects have their own names, and every row has its object. */
  ghost predicate Sound(hash: Hasher, t: Tables) {
    && (forall h | h in t.objects :: hash(t.objects[h]) == h)
    && (forall n | n in t.rows :: t.rows[n].checksum in t.objects)
  }

  ghost function Shown(t: Tables): map<int, Bytes>
    requires forall n | n in t.rows :: t.rows[n].checksum in t.objects
  {
    map n | n in t.rows :: t.objects[t.rows[n].checksum]
  }

  /** The new object does not have the name of an old one with other bytes. */
  ghost predicate Distinguished(hash: Hasher, objects: map<string, Bytes>, a: Attempt) {
    Present(hash, objects, a) ==> objects[hash(Stream(a))] == Stream(a)
  }

  lemma DistinguishedByHash(hash: Hasher, objects: map<string, Bytes>, a: Attempt)
    requires forall h | h in objects :: hash(objects[h]) == h
    requires CollisionFree(hash, objects.Values + {Stream(a)})
    ensures Distinguished(hash, objects, a)
  {
    if Present(hash, objects, a) {
      assert objects[hash(Stream(a))] in objects.Values;
    }
  }

  /**
   An upload that is answered with an id shows exactly its stream under that id, which was free, and
   one answered with an error changes nothing that shows; exactly unless an id is answered for a
   missing object that a failed stat made pass for present.
   */
  lemma UploadShowsIff(hash: Hasher, t: Tables, a: Attempt)
    requires Sound(hash, t) && Distinguished(hash, t.objects, a)
    ensures
      var t', r := UploadOne(hash, t, a), ResultOf(hash, t, a);
      && (Sound(hash, t') <==> !(r.Created? && Blind(hash, t.objects, a)))
      && (r.Created? ==> r.binId !in t.rows)
      && (Sound(hash, t') ==> Shown(t') == match r case Created(id) => Shown(t)[id := Stream(a)] case Error => Shown(t))
  {
    var t', r := UploadOne(hash, t, a), ResultOf(hash, t, a);
    assert forall h | h in t.objects :: h in t'.objects && t'.objects[h] == t.objects[h];
    if r.Created? {
      assert t'.rows[r.binId].checksum == hash(Stream(a));
      assert hash(Stream(a)) in t'.objects <==> !Blind(hash, t.objects, a);
    }
    if Sound(hash, t') {
      var shown := match r case Created(id) => Shown(t)[id := Stream(a)] case Error => Shown(t);
      forall n | n in t'.rows
        ensures n in shown && Shown(t')[n] == shown[n]
      {
        if r == Created(n) {
          assert t'.objects[hash(Stream(a))] == Stream(a);
        } else {
          assert t'.rows[n] == t.rows[n];
        }
      }
      assert Shown(t').Keys == shown.Keys;
    }
  }

  lemma DeleteShows(hash: Hasher, t: Tables, binId: int)
    requires Sound(hash, t)
    ensures
      var t' := t.(rows := t.rows - {binId});
      Sound(hash, t') && Shown(t') == Shown(t) - {binId}
  {
  }

  /** Every result is an error or names a new row that holds its own file; nothing else was written. */
  ghost predicate Filed(hash: Hasher, before: map<int, Row>, after: map<int, Row>,
                        attempts: seq<Attempt>, results: seq<UploadResult>)
  {
    && |results| == |attempts|
    && (forall n | n in before :: n in after && after[n] == before[n])
    && (forall i | 0 <= i < |results| && results[i].Created? ::
          results[i].binId !in before && results[i].binId in after
          && after[results[i].binId] == RowOf(hash, attempts[i]))
    && (forall i, j | 0 <= i < j < |results| && results[i].Created? && results[j].Created? ::
          results[i].binId != results[j].binId)
    && (forall n | n in after && n !in before ::
          exists i :: 0 <= i < |results| && results[i] == Created(n))
  }

  /** A bulk upload answers file by file: each success has a new row of its own, and no other row changes. */
  lemma {:induction false} BulkFilesEach(hash: Hasher, t: Tables, files: seq<Attempt>)
    ensures Filed(hash, t.rows, UploadAll(hash, t, files).rows, files, Results(hash, t, files))
    decreases |files|
  {
    if files != [] {
      var front, a := files[..|files| - 1], files[|files| - 1];
      var mid := UploadAll(hash, t, front);
      BulkFilesEach(hash, t, front);
      OneFiled(hash, mid, a);
      FiledAppend(hash, t.rows, mid.rows, UploadOne(hash, mid, a).rows, front, Results(hash, t, front), a, ResultOf(hash, mid, a));
      assert files == front + [a];
    }
  }

  lemma OneFiled(hash: Hasher, t: Tables, a: Attempt)
    ensures Filed(hash, t.rows, UploadOne(hash, t, a).rows, [a], [ResultOf(hash, t, a)])
  {
    var r := ResultOf(hash, t, a);
    assert [r][0] == r && [a][0] == a;
  }

  lemma FiledAppend(hash: Hasher, before: map<int, Row>, mid: map<int, Row>, after: map<int, Row>,
                    attempts: seq<Attempt>, results: seq<UploadResult>, a: Attempt, r: UploadResult)
    requires Filed(hash, before, mid, attempts, results) && Filed(hash, mid, after, [a], [r])
    ensures Filed(hash, before, after, attempts + [a], results + [r])
  {
    var all := results + [r];
    assert [r][0] == r && [a][0] == a;
    forall n | n in after && n !in before
      ensures exists i :: 0 <= i < |all| && all[i] == Created(n)
    {
      if n in mid {
        var i :| 0 <= i < |results| && results[i] == Created(n);
        assert all[i] == Created(n);
      } else {
        assert all[|results|] == Created(n);
      }
    }
  }

  // ---------- What a bulk upload shows ----------

  function Offered(files: seq<Attempt>): set<Bytes> {
    set i | 0 <= i < |files| :: Stream(files[i])
  }

  /** When file j is stored, its object is there for certain: the save succeeds and no failed stat is believed. */
  ghost predicate PublishesAt(hash: Hasher, t: Tables, files: seq<Attempt>, j: int, h: string)
    requires 0 <= j < |files|
  {
    var objects := UploadAll(hash, t, files[..j]).objects;
    hash(Stream(files[j])) == h && !SaveFails(hash, objects, files[j]) && !Blind(hash, objects, files[j])
  }

  ghost predicate Published(hash: Hasher, t: Tables, files: seq<Attempt>, h: string) {
    exists j :: 0 <= j < |files| && PublishesAt(hash, t, files, j, h)
  }

  lemma PublishedSnoc(hash: Hasher, t: Tables, files: seq<Attempt>, h: string)
    requires files != []
    ensures Published(hash, t, files, h) <==>
      Published(hash, t, files[..|files| - 1], h) || PublishesAt(hash, t, files, |files| - 1, h)
  {
    var n := |files| - 1;
    var front := files[..n];
    forall j | 0 <= j < n
      ensures PublishesAt(hash, t, front, j, h) <==> PublishesAt(hash, t, files, j, h)
    {
      assert front[..j] == files[..j];
    }
  }

  /** The objects after a bulk upload: the old ones and the published ones, each of them some stream under its name. */
  lemma {:induction false} ObjectsOfBulk(hash: Hasher, t: Tables, files: seq<Attempt>)
    requires forall h | h in t.objects :: hash(t.objects[h]) == h
    ensures
      var objects := UploadAll(hash, t, files).objects;
      && (forall h :: h in objects <==> h in t.objects || Published(hash, t, files, h))
      && (forall h | h in objects :: hash(objects[h]) == h && objects[h] in t.objects.Values + Offered(files))
      && (forall h | h in t.objects :: objects[h] == t.objects[h])
    decreases |files|
  {
    if files != [] {
      var n := |files| - 1;
      var front, a := files[..n], files[n];
      ObjectsOfBulk(hash, t, front);
      assert forall b | b in Offered(front) :: b in Offered(files);
      assert Stream(a) in Offered(files);
      var mid, objects := UploadAll(hash, t, front).objects, UploadAll(hash, t, files).objects;
      forall h
        ensures h in objects <==> h in t.objects || Published(hash, t, files, h)
      {
        PublishedSnoc(hash, t, files, h);
      }
    }
  }

  /**
   Each success of a bulk upload names a row whose object is there exactly when it was there before or
   some file of the same content was stored for certain; and then the object is that file's own stream.
   */
  lemma BulkShowsEach(hash: Hasher, t: Tables, files: seq<Attempt>, i: nat)
    requires Sound(hash, t) && CollisionFree(hash, t.objects.Values + Offered(files))
    requires i < |files| && i < |Results(hash, t, files)| && Results(hash, t, files)[i].Created?
    ensures
      var t', id, h := UploadAll(hash, t, files), Results(hash, t, files)[i].binId, hash(Stream(files[i]));
      && id !in t.rows && id in t'.rows && t'.rows[id] == RowOf(hash, files[i])
      && (h in t'.objects <==> h in t.objects || Published(hash, t, files, h))
      && (h in t'.objects ==> t'.objects[h] == Stream(files[i]))
  {
    BulkFilesEach(hash, t, files);
    ObjectsOfBulk(hash, t, files);
    assert Stream(files[i]) in Offered(files);
  }

  // ---------- The handlers ----------

  class Server {
    const storage: StorageService
    var phys: map<string, string>
    var rows: map<int, Row>

    constructor (storage: StorageService)
      ensures this.storage == storage && phys == map[] && rows == map[]
    {
      this.storage := storage;
      phys, rows := map[], map[];
    }

    ghost function Now(): Tables
      reads this, storage
    {
      Tables(storage.objects, phys, rows)
    }

    /** binaryRepo.Insert: the id is chosen first, and the primary key may refuse it. */
    method InsertBinaryFile(row: Row, queryOk: bool, clock: int, insertOk: bool) returns (result: UploadResult)
      modifies this`rows
      ensures
        var id := NextId(old(rows), queryOk, clock);
        && result == (if insertOk && id !in old(rows) then Created(id) else Error)
        && rows == (if result.Created? then old(rows)[id := row] else old(rows))
      ensures queryOk && insertOk && (forall n | n in old(rows) :: n > 0) ==> result.Created? && OnePast(old(rows), result.binId)
      ensures !queryOk ==> result == if insertOk && clock !in old(rows) then Created(clock) else Error
    {
      var max := MaxKey(rows);
      NextIdIs(rows, queryOk, clock);
      var binId := if !queryOk || max + 1 <= 0 then clock else max + 1;
      if insertOk && binId !in rows {
        rows := rows[binId := row];
        result := Created(binId);
      } else {
        result := Error;
      }
    }

    method Upload(hash: Hasher, a: Attempt) returns (result: UploadResult)
      modifies this`phys, this`rows, storage
      ensures Now() == UploadOne(hash, old(Now()), a) && result == ResultOf(hash, old(Now()), a)
    {
      if a.openFails {
        return Error;
      }
      var saved, _, _ := storage.SaveCAS(hash, a.stamp, a.chunks, a.faults);
      assert storage.objects == ObjectsAfter(hash, old(storage.objects), a);
      if saved.Failed? {
        return Error;
      }
      if a.indexOk && saved.checksum !in phys {
        phys := phys[saved.checksum := ObjectPath(saved.checksum)];
      }
      var row := Row(TrimSlash(a.meta.path), a.meta.directory, a.meta.module_, a.meta.fileName, saved.size, saved.checksum);
      result := InsertBinaryFile(row, a.queryOk, a.clock, a.insertOk);
    }

    /** Each file succeeds or fails on its own. */
    method BulkUpload(hash: Hasher, files: seq<Attempt>) returns (results: seq<UploadResult>)
      modifies this`phys, this`rows, storage
      ensures Now() == UploadAll(hash, old(Now()), files) && results == Results(hash, old(Now()), files)
    {
      results := [];
      for i := 0 to |files|
        invariant Now() == UploadAll(hash, old(Now()), files[..i])
        invariant results == Results(hash, old(Now()), files[..i])
      {
        assert files[..i + 1][..i] == files[..i];
        var r := Upload(hash, files[i]);
        results := results + [r];
      }
      assert files[..|files|] == files;
    }

    /** Deletes the metadata row only; the object may serve other rows. */
    method DeleteFile(binId: int, deleteOk: bool) returns (found: bool, ok: bool)
      modifies this`rows
      ensures found == (binId in old(rows)) && ok == (found && deleteOk)
      ensures Now() == if ok then old(Now()).(rows := old(rows) - {binId}) else old(Now())
    {
      found := binId in rows;
      ok := found && deleteOk;
      if ok {
        rows := rows - {binId};
      }
    }
  }

  /** SELECT COALESCE(MAX(bin_id), 0). */
  method MaxKey(rows: map<int, Row>) returns (max: int)
    ensures rows.Keys == {} ==> max == 0
    ensures rows.Keys != {} ==> max in rows
    ensures forall n | n in rows :: n <= max
  {
    max := 0;
    var left := rows.Keys;
    var first := true;
    while left != {}
      invariant left <= rows.Keys
      invariant first ==> left == rows.Keys && max == 0
      invariant !first ==> max in rows && forall n | n in rows && n !in left :: n <= max
    {
      var n := TakeOne(left);
      if first || n > max {
        max := n;
      }
      first := false;
      left := left - {n};
    }
  }
}
