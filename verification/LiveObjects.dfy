/**
 Quarantine against a service in use: what a run does to the objects that rows live on, and to serving
 those rows afterwards.
 */
module LiveObjects {
  import opened Content
  import opened CasStore
  import opened Collections
  import opened Paths
  import opened BlobService
  import Quarantine

  /** Where the object of a checksum lies on the disk the walk sees. */
  function ObjectFile(cfg: Quarantine.Config, h: string): string {
    cfg.storageRoot + "/objects/" + h
  }

  /** The disk holds every object of the store. */
  ghost predicate OnDisk(cfg: Quarantine.Config, objects: map<string, Bytes>, disk: map<string, Quarantine.File>) {
    forall h | h in objects :: ObjectFile(cfg, h) in disk && disk[ObjectFile(cfg, h)].content == objects[h]
  }

  /** What ExistsByPath asks about. */
  function RowPaths(s: Service): set<string> {
    set n | n in s.rows :: s.rows[n].path
  }

  /** The service with the objects that are still in place. */
  function AfterRun(cfg: Quarantine.Config, s: Service, disk: map<string, Quarantine.File>): Service {
    var left := map h | h in s.store.disk.objects && ObjectFile(cfg, h) in disk :: s.store.disk.objects[h];
    s.(store := s.store.(disk := s.store.disk.(objects := left)))
  }

  ghost predicate NoRowHasItsPath(s: Service, h: string) {
    forall m | m in s.rows :: s.rows[m].path != ObjectPath(h)
  }

  /** The run gets as far as moving: it is not dry, has its directory, and found no more than it may move. */
  ghost predicate RunMoves(cfg: Quarantine.Config, rows: set<string>, cutoff: int, faults: Quarantine.Faults,
                           disk: map<string, Quarantine.File>)
  {
    !cfg.dryRun && !faults.root && |Quarantine.Orphans(cfg, rows, cutoff, faults, disk)| <= cfg.maxMove
  }

  /** No call of the run on this file fails. */
  predicate CallsSucceed(faults: Quarantine.Faults, path: string) {
    path !in faults.visits && path !in faults.lookups && path !in faults.mkdirs && path !in faults.renames
  }

  /**
   Found in the code: the object of a row in use is moved, by any run that gets as far as moving and in
   which no call on it fails, exactly when the walk comes to it, it is past the grace period and no row
   happens to have the object's own path as its path.
   */
  lemma LiveObjectIsMovedIff(hash: Hasher, trace: seq<ServiceEvent>, s: Service, n: int, cfg: Quarantine.Config, faults: Quarantine.Faults,
                             disk: map<string, Quarantine.File>, disk': map<string, Quarantine.File>, cutoff: int)
    requires ServiceRun(hash, EmptyService, trace, s) && n in s.rows && s.rows[n].checksum in s.store.disk.objects
    requires OnDisk(cfg, s.store.disk.objects, disk)
    requires Quarantine.Relocated(cfg, disk, Quarantine.Moved(cfg, RowPaths(s), cutoff, faults, disk), disk')
    ensures
      var h := s.rows[n].checksum;
      var path := ObjectFile(cfg, h);
      && path in disk && hash(disk[path].content) == h && disk[path].content in s.store.streams
      && (path !in disk' <==>
            && RunMoves(cfg, RowPaths(s), cutoff, faults, disk) && CallsSucceed(faults, path)
            && !Quarantine.Skipped(cfg, path) && disk[path].modTime <= cutoff && NoRowHasItsPath(s, h))
      && (h !in AfterRun(cfg, s, disk').store.disk.objects <==> path !in disk')
  {
    var h := s.rows[n].checksum;
    StoredIsOnDisk(hash, trace, s, h, cfg, disk, disk');
    ObjectIsMovedIff(cfg, RowPaths(s), cutoff, faults, disk, disk', h);
    PathIsTaken(s, h);
  }

  lemma StoredIsOnDisk(hash: Hasher, trace: seq<ServiceEvent>, s: Service, h: string, cfg: Quarantine.Config,
                       disk: map<string, Quarantine.File>, disk': map<string, Quarantine.File>)
    requires ServiceRun(hash, EmptyService, trace, s) && h in s.store.disk.objects && OnDisk(cfg, s.store.disk.objects, disk)
    ensures
      var path := ObjectFile(cfg, h);
      && path in disk && hash(disk[path].content) == h && disk[path].content in s.store.streams
      && (h !in AfterRun(cfg, s, disk').store.disk.objects <==> path !in disk')
  {
    RunKeepsLoose(hash, EmptyService, trace, s);
  }

  lemma ObjectIsMovedIff(cfg: Quarantine.Config, rows: set<string>, cutoff: int, faults: Quarantine.Faults,
                         disk: map<string, Quarantine.File>, disk': map<string, Quarantine.File>, h: string)
    requires ObjectFile(cfg, h) in disk && Quarantine.Relocated(cfg, disk, Quarantine.Moved(cfg, rows, cutoff, faults, disk), disk')
    ensures
      var path := ObjectFile(cfg, h);
      path !in disk' <==>
        && RunMoves(cfg, rows, cutoff, faults, disk) && CallsSucceed(faults, path)
        && !Quarantine.Skipped(cfg, path) && disk[path].modTime <= cutoff && ObjectPath(h) !in rows
  {
    Quarantine.ObjectIsOrphanIff(cfg, rows, cutoff, faults, disk, h);
    Quarantine.GoneIffMoved(cfg, rows, cutoff, faults, disk, disk', ObjectFile(cfg, h));
  }

  lemma PathIsTaken(s: Service, h: string)
    ensures ObjectPath(h) in RowPaths(s) <==> !NoRowHasItsPath(s, h)
  {
  }

  /**
   What that does to serving a row found in the index, whatever opens fail: while its object stays it is
   served as any stored object is. Once it is moved, its first place is empty unless another file has
   that name, and the answer is 404 or what the first of the other places that opens holds.
   */
  lemma MovedObjectIsNotServed(hash: Hasher, trace: seq<ServiceEvent>, s: Service, n: int, cfg: Quarantine.Config,
                               disk': map<string, Quarantine.File>, world: Elsewhere, r: Reading)
    requires ServiceRun(hash, EmptyService, trace, s) && NamesFiles(hash)
    requires n in s.rows && s.rows[n].checksum in s.store.disk.objects && InIndex(s, s.rows[n], r.indexOk)
    ensures
      var h, row, after := s.rows[n].checksum, s.rows[n], AfterRun(cfg, s, disk');
      var served, v, spots := ServeFileByID(after, world, n, r), ViewOf(after, world, r), RowSpots(ObjectPath(h), row);
      && (ObjectFile(cfg, h) in disk' ==>
            RightIff(served, r.rowOk, 0 !in r.failed, v, spots, s.store.disk.objects[h]))
      && (ObjectFile(cfg, h) !in disk' ==>
            && spots[0] == UnderRoot(ObjectPath(h)) && At(v.objects, world, spots[0]) == Lookup(world.root, ObjectPath(h))
            && (served == None <==> !r.rowOk || NoneOpens(v, spots))
            && forall c :: served == Some(c) <==> r.rowOk && FirstHolds(v, spots, c))
  {
    RunKeepsLoose(hash, EmptyService, trace, s);
    var row, after := s.rows[n], AfterRun(cfg, s, disk');
    var h := row.checksum;
    var v := ViewOf(after, world, r);
    assert h == hash(s.store.disk.objects[h]);
    if r.rowOk {
      ServeTakesFirst(after, world, n, r);
    }
    ObjectSpot(v.objects, world, row);
    if ObjectFile(cfg, h) in disk' {
      OpenFindsObject(v, h);
    }
  }

  lemma ObjectSpot(objects: map<string, Bytes>, world: Elsewhere, row: Row)
    requires Normal(row.checksum)
    ensures
      var spots := RowSpots(ObjectPath(row.checksum), row);
      && spots[0] == UnderRoot(ObjectPath(row.checksum))
      && (row.checksum !in objects ==> At(objects, world, spots[0]) == Lookup(world.root, ObjectPath(row.checksum)))
  {
    var h := row.checksum;
    ObjectPathIsClean(h);
    assert ObjectPath(h)[..8] == "objects/" && ObjectPath(h)[8..] == h;
  }
}
