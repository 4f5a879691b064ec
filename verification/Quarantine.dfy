/**
 Orphan detection: files on disk that no row names are moved, not deleted, to a quarantine directory.

 The disk maps full paths to files. The order in which the walk visits files, and what fails, are
 parameters of a run.
 */
module Quarantine {
  import opened Content
  import opened Collections
  import Paths

  datatype Config = Config(storageRoot: string, quarantineRoot: string, dryRun: bool, graceDays: int, maxMove: int)

  const DEFAULT_GRACE_DAYS := 1
  const DEFAULT_MAX_MOVE := 100

  function Defaulted(cfg: Config): (c: Config)
    ensures c.graceDays > 0 && c.maxMove > 0 && c.quarantineRoot != ""
    ensures c.storageRoot == cfg.storageRoot && c.dryRun == cfg.dryRun
    ensures if cfg.graceDays > 0 then c.graceDays == cfg.graceDays else c.graceDays == 1
    ensures if cfg.maxMove > 0 then c.maxMove == cfg.maxMove else c.maxMove == 100
    ensures if cfg.quarantineRoot != "" then c.quarantineRoot == cfg.quarantineRoot else c.quarantineRoot == cfg.storageRoot + "/_quarantine"
  {
    cfg.(graceDays := if cfg.graceDays <= 0 then DEFAULT_GRACE_DAYS else cfg.graceDays,
         maxMove := if cfg.maxMove <= 0 then DEFAULT_MAX_MOVE else cfg.maxMove,
         quarantineRoot := if cfg.quarantineRoot == "" then cfg.storageRoot + "/_quarantine" else cfg.quarantineRoot)
  }

  datatype File = File(content: Bytes, modTime: int)

  datatype Action = DryRun | Quarantined

  /** A row of orphan_file_log. */
  datatype Entry = Entry(originalPath: string, quarantinePath: string, size: nat, action: Action)

  datatype World = World(disk: map<string, File>, log: seq<Entry>)

  /** The paths at which each kind of call fails. */
  datatype Faults = Faults(root: bool, visits: set<string>, lookups: set<string>, stats: set<string>,
                           mkdirs: set<string>, renames: set<string>, inserts: set<string>)

  const NoFaults := Faults(false, {}, {}, {}, {}, {}, {})

  datatype Outcome = RootFailed | TooMany(found: nat) | Finished(moved: nat)

  // ---------- Paths ----------

  predicate Under(dir: string, path: string) {
    |dir| < |path| && dir <= path && path[|dir|] == '/'
  }

  /** A directory on the way, the storage root included, has the quarantine root as a string prefix. */
  predicate Skipped(cfg: Config, path: string) {
    exists i | |cfg.storageRoot| <= i < |path| :: path[i] == '/' && cfg.quarantineRoot <= path[..i]
  }

  predicate Visible(cfg: Config, path: string) {
    Under(cfg.storageRoot, path) && !Skipped(cfg, path)
  }

  function Rel(cfg: Config, path: string): string {
    if Under(cfg.storageRoot, path) then path[|cfg.storageRoot| + 1..] else ""
  }

  function Target(cfg: Config, path: string): string {
    cfg.quarantineRoot + "/" + Rel(cfg, path)
  }

  lemma TargetsAreHidden(cfg: Config, path: string)
    ensures !Visible(cfg, Target(cfg, path))
  {
    var target := Target(cfg, path);
    var q := |cfg.quarantineRoot|;
    assert target[q] == '/' && target[..q] == cfg.quarantineRoot;
    if Under(cfg.storageRoot, target) {
      if |cfg.storageRoot| <= q {
        assert target[q] == '/' && cfg.quarantineRoot <= target[..q];
      } else {
        var i := |cfg.storageRoot|;
        assert target[i] == '/' && cfg.quarantineRoot <= target[..i];
      }
    }
  }

  /** A place is scanned exactly when the name of its directory does not begin with that of the quarantine root. */
  lemma ScannedIff(cfg: Config, dir: string, name: string)
    requires (dir == cfg.storageRoot || Under(cfg.storageRoot, dir)) && '/' !in name
    ensures Visible(cfg, dir + "/" + name) <==> !(cfg.quarantineRoot <= dir)
  {
    var path := dir + "/" + name;
    assert path[|dir|] == '/' && path[..|dir|] == dir;
    forall i | |dir| < i < |path|
      ensures path[i] != '/'
    {
      assert path[i] == name[i - |dir| - 1] && name[i - |dir| - 1] in name;
    }
    if Skipped(cfg, path) {
      var i :| |cfg.storageRoot| <= i < |path| && path[i] == '/' && cfg.quarantineRoot <= path[..i];
      assert path[..i] == dir[..i];
    }
  }

  /** With the quarantine directory q in the storage root: all but what lies in a directory there whose name begins with q. */
  lemma ScannedBesideQuarantine(cfg: Config, q: string, rel: string)
    requires q != "" && '/' !in q && cfg.quarantineRoot == cfg.storageRoot + "/" + q
    ensures Visible(cfg, cfg.storageRoot + "/" + rel) <==> '/' !in rel || !(q <= Paths.Before(rel, '/'))
  {
    if '/' in rel {
      var k, dir, name := SplitLast(cfg.storageRoot, rel);
      ScannedIff(cfg, dir, name);
      PrefixBelow(cfg.storageRoot + "/", q, rel[..k]);
      FirstNameIff(q, rel, k);
    } else {
      ScannedIff(cfg, cfg.storageRoot, rel);
    }
  }

  /** With a quarantine root elsewhere, no name of the two beginning the other: everything. */
  lemma ScannedApart(cfg: Config, rel: string)
    requires !(cfg.quarantineRoot <= cfg.storageRoot) && !(cfg.storageRoot <= cfg.quarantineRoot)
    ensures Visible(cfg, cfg.storageRoot + "/" + rel)
  {
    var dir, name := cfg.storageRoot, rel;
    if '/' in rel {
      var k;
      k, dir, name := SplitLast(cfg.storageRoot, rel);
    }
    ScannedIff(cfg, dir, name);
    assert cfg.storageRoot <= dir;
    OneBeginsTheOther(cfg.quarantineRoot, cfg.storageRoot, dir);
  }

  lemma OneBeginsTheOther(a: string, b: string, s: string)
    requires b <= s
    ensures a <= s ==> a <= b || b <= a
  {
  }

  /** The directory and the name of a place below some directory of the root. */
  lemma SplitLast(root: string, rel: string) returns (k: nat, dir: string, name: string)
    requires '/' in rel
    ensures k < |rel| && rel[k] == '/' && dir == root + "/" + rel[..k]
    ensures root + "/" + rel == dir + "/" + name && '/' !in name && Under(root, dir)
  {
    k := LastSlash(rel);
    dir, name := root + "/" + rel[..k], rel[k + 1..];
    assert rel == rel[..k] + "/" + name;
    assert dir[|root|] == '/' && dir[..|root|] == root;
  }

  lemma {:induction false} LastSlash(rel: string) returns (k: nat)
    requires '/' in rel
    ensures k < |rel| && rel[k] == '/' && '/' !in rel[k + 1..]
  {
    var front, last := rel[..|rel| - 1], rel[|rel| - 1];
    if last == '/' {
      k := |rel| - 1;
    } else {
      assert '/' in front by {
        var i :| 0 <= i < |rel| && rel[i] == '/';
        assert front[i] == '/';
      }
      k := LastSlash(front);
      assert rel[k + 1..] == front[k + 1..] + [last];
    }
  }

  lemma PrefixBelow(a: string, q: string, s: string)
    ensures a + q <= a + s <==> q <= s
  {
    assert (a + q)[|a|..] == q && (a + s)[|a|..] == s;
    if a + q <= a + s {
      assert s[..|q|] == (a + s)[|a|..|a| + |q|];
    }
    if q <= s {
      assert (a + s)[..|a| + |q|] == a + s[..|q|];
    }
  }

  /** A name without slashes begins a path up to one of its slashes exactly when it begins the first name of it. */
  lemma {:induction false} FirstNameIff(q: string, rel: string, k: nat)
    requires '/' !in q && k < |rel| && rel[k] == '/'
    ensures q <= rel[..k] <==> q <= Paths.Before(rel, '/')
    decreases |rel|
  {
    if rel[0] == '/' {
      assert q != "" ==> q[0] in q;
    } else if q != "" {
      forall c | c in q[1..]
        ensures c in q
      {
      }
      FirstNameIff(q[1..], rel[1..], k - 1);
      assert q == [q[0]] + q[1..] && rel[..k] == [rel[0]] + rel[1..][..k - 1];
      PrefixBelow([rel[0]], q[1..], rel[1..][..k - 1]);
      PrefixBelow([rel[0]], q[1..], Paths.Before(rel[1..], '/'));
    }
  }

  lemma TargetsAreDistinct(cfg: Config, a: string, b: string)
    requires Visible(cfg, a) && Visible(cfg, b) && Target(cfg, a) == Target(cfg, b)
    ensures a == b
  {
    SourceOfTarget(cfg, a);
    SourceOfTarget(cfg, b);
  }

  function Source(cfg: Config, target: string): string {
    if |target| <= |cfg.quarantineRoot| then "" else cfg.storageRoot + "/" + target[|cfg.quarantineRoot| + 1..]
  }

  lemma SourceOfTarget(cfg: Config, path: string)
    requires Visible(cfg, path)
    ensures Source(cfg, Target(cfg, path)) == path
  {
    assert Target(cfg, path)[|cfg.quarantineRoot| + 1..] == Rel(cfg, path);
  }

  // ---------- One run ----------

  /** Old enough, and no row has its path; a failed visit or lookup passes it over. */
  predicate Orphan(cfg: Config, rows: set<string>, cutoff: int, faults: Faults, disk: map<string, File>, path: string) {
    && path in disk && Visible(cfg, path) && path !in faults.visits
    && disk[path].modTime <= cutoff && path !in faults.lookups && Rel(cfg, path) !in rows
  }

  /** The orphans among some paths, in the same order. */
  function Found(cfg: Config, rows: set<string>, cutoff: int, faults: Faults, disk: map<string, File>, listing: seq<string>): seq<string> {
    if listing == [] then []
    else
      var before, path := Found(cfg, rows, cutoff, faults, disk, listing[..|listing| - 1]), listing[|listing| - 1];
      if Orphan(cfg, rows, cutoff, faults, disk, path) then before + [path] else before
  }

  predicate Moves(cfg: Config, faults: Faults, path: string) {
    !cfg.dryRun && path !in faults.mkdirs && path !in faults.renames
  }

  function EntryFor(cfg: Config, faults: Faults, w: World, path: string, action: Action): Entry {
    Entry(Rel(cfg, path), "_quarantine/" + Rel(cfg, path),
          if path in w.disk && path !in faults.stats then |w.disk[path].content| else 0, action)
  }

  function Logged(faults: Faults, log: seq<Entry>, path: string, e: Entry): seq<Entry> {
    if path in faults.inserts then log else log + [e]
  }

  /** A rename takes the place of whatever is at the target. */
  function MoveOne(cfg: Config, faults: Faults, w: World, path: string): World {
    if cfg.dryRun then w.(log := Logged(faults, w.log, path, EntryFor(cfg, faults, w, path, DryRun)))
    else if !Moves(cfg, faults, path) || path !in w.disk then w
    else World((w.disk - {path})[Target(cfg, path) := w.disk[path]],
               Logged(faults, w.log, path, EntryFor(cfg, faults, w, path, Quarantined)))
  }

  function MoveAll(cfg: Config, faults: Faults, w: World, paths: seq<string>): World {
    if paths == [] then w
    else MoveOne(cfg, faults, MoveAll(cfg, faults, w, paths[..|paths| - 1]), paths[|paths| - 1])
  }

  /** The walk visits every visible file once, in some order. */
  ghost predicate Lists(cfg: Config, disk: map<string, File>, listing: seq<string>) {
    NoDuplicates(listing) && forall p :: p in listing <==> p in disk && Visible(cfg, p)
  }

  // ---------- Where files end up ----------

  /** The files a run moves: the orphans, unless it is dry, stops short, or cannot move one. */
  ghost function Moved(cfg: Config, rows: set<string>, cutoff: int, faults: Faults, disk: map<string, File>): set<string> {
    if faults.root || cfg.dryRun || |Orphans(cfg, rows, cutoff, faults, disk)| > cfg.maxMove then {}
    else set p | p in Orphans(cfg, rows, cutoff, faults, disk) && Moves(cfg, faults, p)
  }

  ghost function Orphans(cfg: Config, rows: set<string>, cutoff: int, faults: Faults, disk: map<string, File>): set<string> {
    set p | p in disk && Orphan(cfg, rows, cutoff, faults, disk, p)
  }

  ghost function Targets(cfg: Config, moved: set<string>): set<string> {
    set p | p in moved :: Target(cfg, p)
  }

  /** The moved files are at their targets, in place of what was there; all others are where they were. */
  ghost predicate Relocated(cfg: Config, disk: map<string, File>, moved: set<string>, disk': map<string, File>) {
    && disk'.Keys == (disk.Keys - moved) + Targets(cfg, moved)
    && (forall p | p in moved && p in disk :: disk'[Target(cfg, p)] == disk[p])
    && (forall p | p in disk && p !in moved && p !in Targets(cfg, moved) :: disk'[p] == disk[p])
  }

  /** No target is the place of a visible file, nor the target of another one. */
  lemma TargetsApart(cfg: Config, moved: set<string>, path: string)
    requires Visible(cfg, path) && forall p | p in moved :: Visible(cfg, p)
    ensures path !in Targets(cfg, moved) && Target(cfg, path) !in moved && Target(cfg, path) != path
    ensures path !in moved ==> Target(cfg, path) !in Targets(cfg, moved)
  {
    TargetsAreHidden(cfg, path);
    forall p | p in moved
      ensures Target(cfg, p) != path && (path != p ==> Target(cfg, p) != Target(cfg, path))
    {
      TargetsAreHidden(cfg, p);
      if Target(cfg, p) == Target(cfg, path) {
        TargetsAreDistinct(cfg, p, path);
      }
    }
  }

  lemma MoveRelocates(cfg: Config, disk: map<string, File>, moved: set<string>, disk': map<string, File>, path: string)
    requires path in disk && Visible(cfg, path) && path !in moved
    requires forall p | p in moved :: p in disk && Visible(cfg, p)
    requires Relocated(cfg, disk, moved, disk')
    ensures path in disk' && disk'[path] == disk[path]
    ensures Relocated(cfg, disk, moved + {path}, (disk' - {path})[Target(cfg, path) := disk[path]])
  {
    var target := Target(cfg, path);
    var after := (disk' - {path})[target := disk[path]];
    TargetsApart(cfg, moved, path);
    assert Targets(cfg, moved + {path}) == Targets(cfg, moved) + {target};
    RelocatedMore(disk, moved, Targets(cfg, moved), disk', path, target);
    forall p | p in moved
      ensures after[Target(cfg, p)] == disk[p]
    {
      assert Target(cfg, p) in Targets(cfg, moved);
    }
  }

  lemma RelocatedMore(disk: map<string, File>, moved: set<string>, targets: set<string>, disk': map<string, File>, path: string, target: string)
    requires path in disk && path !in moved && path !in targets && target !in moved && target != path
    requires disk'.Keys == (disk.Keys - moved) + targets
    ensures
      var after := (disk' - {path})[target := disk[path]];
      && after.Keys == (disk.Keys - (moved + {path})) + (targets + {target})
      && forall p | p in after && p != target :: p in disk' && after[p] == disk'[p]
  {
  }

  lemma {:induction false} MoveAllRelocates(cfg: Config, faults: Faults, w: World, paths: seq<string>)
    requires NoDuplicates(paths) && forall p | p in paths :: p in w.disk && Visible(cfg, p)
    ensures Relocated(cfg, w.disk, Movable(cfg, faults, paths), MoveAll(cfg, faults, w, paths).disk)
    decreases |paths|
  {
    if paths == [] {
      assert Targets(cfg, {}) == {};
    } else {
      var front, path := paths[..|paths| - 1], paths[|paths| - 1];
      MoveAllRelocates(cfg, faults, w, front);
      MovableAppend(cfg, faults, front, path);
      assert paths == front + [path] && path !in front;
      if Moves(cfg, faults, path) {
        MoveRelocates(cfg, w.disk, Movable(cfg, faults, front), MoveAll(cfg, faults, w, front).disk, path);
      }
    }
  }

  /** Those of some paths that can be moved. */
  ghost function Movable(cfg: Config, faults: Faults, paths: seq<string>): set<string> {
    set p | p in paths && Moves(cfg, faults, p)
  }

  lemma MovableAppend(cfg: Config, faults: Faults, paths: seq<string>, path: string)
    ensures Movable(cfg, faults, paths + [path]) ==
      if Moves(cfg, faults, path) then Movable(cfg, faults, paths) + {path} else Movable(cfg, faults, paths)
  {
  }

  lemma {:induction false} FoundAreOrphans(cfg: Config, rows: set<string>, cutoff: int, faults: Faults, disk: map<string, File>, listing: seq<string>)
    requires NoDuplicates(listing)
    ensures
      var found := Found(cfg, rows, cutoff, faults, disk, listing);
      NoDuplicates(found) && forall p :: p in found <==> p in listing && Orphan(cfg, rows, cutoff, faults, disk, p)
    decreases |listing|
  {
    if listing != [] {
      var front, path := listing[..|listing| - 1], listing[|listing| - 1];
      assert listing == front + [path];
      FoundAreOrphans(cfg, rows, cutoff, faults, disk, front);
      assert path !in front;
    }
  }

  /** What the walk finds is the set of orphans, counted right. */
  lemma FoundIsExact(cfg: Config, rows: set<string>, cutoff: int, faults: Faults, disk: map<string, File>, listing: seq<string>)
    requires Lists(cfg, disk, listing)
    ensures
      var found := Found(cfg, rows, cutoff, faults, disk, listing);
      && NoDuplicates(found) && Elements(found) == Orphans(cfg, rows, cutoff, faults, disk)
      && |found| == |Orphans(cfg, rows, cutoff, faults, disk)|
  {
    FoundAreOrphans(cfg, rows, cutoff, faults, disk, listing);
    NoDuplicatesSize(Found(cfg, rows, cutoff, faults, disk, listing));
    assert Elements(Found(cfg, rows, cutoff, faults, disk, listing)) == Orphans(cfg, rows, cutoff, faults, disk);
  }

  // ---------- The service ----------

  class DedupService {
    const cfg: Config
    var disk: map<string, File>
    var log: seq<Entry>

    constructor (cfg: Config, disk: map<string, File>, log: seq<Entry>)
      ensures this.cfg == Defaulted(cfg) && this.disk == disk && this.log == log
    {
      this.cfg, this.disk, this.log := Defaulted(cfg), disk, log;
    }

    /** The walk: reads only. */
    method Scan(rows: set<string>, cutoff: int, faults: Faults, listing: seq<string>) returns (orphanFiles: seq<string>)
      requires forall p | p in listing :: p in disk && Visible(cfg, p)
      ensures orphanFiles == Found(cfg, rows, cutoff, faults, disk, listing)
    {
      orphanFiles := [];
      for i := 0 to |listing|
        invariant orphanFiles == Found(cfg, rows, cutoff, faults, disk, listing[..i])
      {
        assert listing[..i + 1][..i] == listing[..i];
        var path := listing[i];
        if path in faults.visits || disk[path].modTime > cutoff {
          continue;
        }
        if path in faults.lookups || Rel(cfg, path) in rows {
          continue;
        }
        orphanFiles := orphanFiles + [path];
      }
      assert listing[..|listing|] == listing;
    }

    /** Moves, or in a dry run only logs, what was found. */
    method Move(faults: Faults, orphanFiles: seq<string>) returns (movedCount: nat)
      requires NoDuplicates(orphanFiles) && forall p | p in orphanFiles :: p in disk && Visible(cfg, p)
      modifies this
      ensures World(disk, log) == MoveAll(cfg, faults, old(World(disk, log)), orphanFiles)
      ensures movedCount == |Movable(cfg, faults, orphanFiles)|
    {
      movedCount := 0;
      ghost var moved: set<string> := {};
      for i := 0 to |orphanFiles|
        invariant World(disk, log) == MoveAll(cfg, faults, old(World(disk, log)), orphanFiles[..i])
        invariant moved == Movable(cfg, faults, orphanFiles[..i]) && movedCount == |moved|
      {
        var path := orphanFiles[i];
        assert orphanFiles[..i + 1] == orphanFiles[..i] + [path] && orphanFiles[..i + 1][..i] == orphanFiles[..i];
        assert path !in orphanFiles[..i];
        MovableAppend(cfg, faults, orphanFiles[..i], path);
        StillThere(cfg, faults, old(World(disk, log)), orphanFiles, i);
        var size := if path in faults.stats then 0 else |disk[path].content|;
        if cfg.dryRun {
          if path !in faults.inserts {
            log := log + [Entry(Rel(cfg, path), "_quarantine/" + Rel(cfg, path), size, DryRun)];
          }
          continue;
        }
        if path in faults.mkdirs || path in faults.renames {
          continue;
        }
        disk := (disk - {path})[Target(cfg, path) := disk[path]];
        movedCount := movedCount + 1;
        moved := moved + {path};
        if path !in faults.inserts {
          log := log + [Entry(Rel(cfg, path), "_quarantine/" + Rel(cfg, path), size, Quarantined)];
        }
      }
      assert orphanFiles[..|orphanFiles|] == orphanFiles;
    }

    /**
     One run. It stops before moving anything when the quarantine directory cannot be made or when it
     finds more than it may move; otherwise exactly the orphans that can be moved are moved.
     */
    method FindAndQuarantineOrphans(rows: set<string>, cutoff: int, faults: Faults, listing: seq<string>) returns (outcome: Outcome)
      requires Lists(cfg, disk, listing)
      modifies this
      ensures
        var found := Orphans(cfg, rows, cutoff, faults, old(disk));
        outcome == if faults.root && !cfg.dryRun then RootFailed
                   else if |found| > cfg.maxMove then TooMany(|found|)
                   else Finished(|Moved(cfg, rows, cutoff, faults, old(disk))|)
      ensures Relocated(cfg, old(disk), Moved(cfg, rows, cutoff, faults, old(disk)), disk)
      ensures cfg.dryRun || !outcome.Finished? ==> disk == old(disk)
      ensures !outcome.Finished? ==> log == old(log)
      ensures outcome.Finished? ==>
        log == old(log) + LogOf(cfg, faults, old(disk), Found(cfg, rows, cutoff, faults, old(disk), listing))
    {
      if !cfg.dryRun && faults.root {
        NothingMoved(cfg, disk);
        return RootFailed;
      }
      var orphanFiles := Scan(rows, cutoff, faults, listing);
      FoundIsExact(cfg, rows, cutoff, faults, disk, listing);
      if |orphanFiles| > cfg.maxMove {
        NothingMoved(cfg, disk);
        return TooMany(|orphanFiles|);
      }
      MoveMovesOrphans(cfg, rows, cutoff, faults, World(disk, log), listing);
      MovesAreLogged(cfg, faults, World(disk, log), orphanFiles);
      var movedCount := Move(faults, orphanFiles);
      outcome := Finished(movedCount);
    }
  }

  lemma NothingMoved(cfg: Config, disk: map<string, File>)
    ensures Relocated(cfg, disk, {}, disk)
  {
    assert Targets(cfg, {}) == {};
  }

  /** Moving what the walk found moves the orphans. */
  lemma MoveMovesOrphans(cfg: Config, rows: set<string>, cutoff: int, faults: Faults, w: World, listing: seq<string>)
    requires Lists(cfg, w.disk, listing) && (cfg.dryRun || !faults.root)
    requires |Orphans(cfg, rows, cutoff, faults, w.disk)| <= cfg.maxMove
    ensures
      var found := Found(cfg, rows, cutoff, faults, w.disk, listing);
      var disk' := MoveAll(cfg, faults, w, found).disk;
      && Moved(cfg, rows, cutoff, faults, w.disk) == Movable(cfg, faults, found)
      && (forall p | p in found :: p in w.disk && Visible(cfg, p))
      && Relocated(cfg, w.disk, Moved(cfg, rows, cutoff, faults, w.disk), disk')
      && (cfg.dryRun ==> disk' == w.disk)
  {
    var found := Found(cfg, rows, cutoff, faults, w.disk, listing);
    FoundAreOrphans(cfg, rows, cutoff, faults, w.disk, listing);
    MoveAllRelocates(cfg, faults, w, found);
    assert Movable(cfg, faults, found) == Moved(cfg, rows, cutoff, faults, w.disk);
    if cfg.dryRun {
      DryRunMovesNothing(cfg, faults, w, found);
    }
  }

  lemma {:induction false} DryRunMovesNothing(cfg: Config, faults: Faults, w: World, paths: seq<string>)
    requires cfg.dryRun
    ensures MoveAll(cfg, faults, w, paths).disk == w.disk
    decreases |paths|
  {
    if paths != [] {
      DryRunMovesNothing(cfg, faults, w, paths[..|paths| - 1]);
    }
  }

  /** An orphan is in its place until its turn comes. */
  lemma StillThere(cfg: Config, faults: Faults, w: World, paths: seq<string>, i: nat)
    requires NoDuplicates(paths) && i < |paths| && forall p | p in paths :: p in w.disk && Visible(cfg, p)
    ensures
      var before := MoveAll(cfg, faults, w, paths[..i]);
      paths[i] in before.disk && before.disk[paths[i]] == w.disk[paths[i]]
  {
    var front := paths[..i];
    MoveAllRelocates(cfg, faults, w, front);
    assert paths[i] !in front;
    MoveRelocates(cfg, w.disk, Movable(cfg, faults, front), MoveAll(cfg, faults, w, front).disk, paths[i]);
  }

  /** The log rows of a run, from the disk it found: every move, or in a dry run every orphan, whose insert works. */
  function LogOf(cfg: Config, faults: Faults, disk: map<string, File>, paths: seq<string>): seq<Entry> {
    if paths == [] then []
    else
      var before, path := LogOf(cfg, faults, disk, paths[..|paths| - 1]), paths[|paths| - 1];
      if path in faults.inserts || !(cfg.dryRun || Moves(cfg, faults, path)) then before
      else
        var size := if path in disk && path !in faults.stats then |disk[path].content| else 0;
        before + [Entry(Rel(cfg, path), "_quarantine/" + Rel(cfg, path), size, if cfg.dryRun then DryRun else Quarantined)]
  }

  /** The row of one file: where it was and where it went, below the two roots, its size as far as it is known, and which kind of run. */
  lemma LogOfOne(cfg: Config, faults: Faults, disk: map<string, File>, rel: string)
    requires cfg.storageRoot + "/" + rel in disk
    ensures
      var path := cfg.storageRoot + "/" + rel;
      var size := if path in faults.stats then 0 else |disk[path].content|;
      LogOf(cfg, faults, disk, [path]) ==
        if path in faults.inserts || (!cfg.dryRun && (path in faults.mkdirs || path in faults.renames)) then []
        else [Entry(rel, "_quarantine/" + rel, size, if cfg.dryRun then DryRun else Quarantined)]
  {
    var path := cfg.storageRoot + "/" + rel;
    assert path[|cfg.storageRoot|] == '/' && path[|cfg.storageRoot| + 1..] == rel && path[..|cfg.storageRoot|] == cfg.storageRoot;
    var paths := [path];
    assert LogOf(cfg, faults, disk, paths[..0]) == [];
  }

  /** Moving one file does not disturb what is logged of the next. */
  lemma {:induction false} MovesAreLogged(cfg: Config, faults: Faults, w: World, paths: seq<string>)
    requires NoDuplicates(paths) && forall p | p in paths :: p in w.disk && Visible(cfg, p)
    ensures MoveAll(cfg, faults, w, paths).log == w.log + LogOf(cfg, faults, w.disk, paths)
    decreases |paths|
  {
    if paths != [] {
      MovesAreLogged(cfg, faults, w, paths[..|paths| - 1]);
      StillThere(cfg, faults, w, paths, |paths| - 1);
    }
  }

  // ---------- What a run does to the files ----------

  lemma {:induction false} TargetsCount(cfg: Config, moved: set<string>)
    requires forall p | p in moved :: Visible(cfg, p)
    ensures |Targets(cfg, moved)| == |moved|
    decreases moved
  {
    if moved != {} {
      var p := Pick(moved);
      var rest := moved - {p};
      TargetsCount(cfg, rest);
      assert Targets(cfg, moved) == Targets(cfg, rest) + {Target(cfg, p)};
      forall o | o in rest
        ensures Target(cfg, o) != Target(cfg, p)
      {
        if Target(cfg, o) == Target(cfg, p) {
          TargetsAreDistinct(cfg, o, p);
        }
      }
      assert Target(cfg, p) !in Targets(cfg, rest);
    }
  }

  /** The sizes before and after, from the sets of paths alone. */
  lemma RelocatedCount(paths: set<string>, moved: set<string>, targets: set<string>)
    requires moved <= paths && moved !! targets && |moved| == |targets|
    ensures |(paths - moved) + targets| == |paths| - |paths * targets|
  {
    var stayed := paths - moved;
    assert stayed * targets == paths * targets;
    assert |stayed + targets| == |stayed| + |targets| - |stayed * targets|;
  }

  lemma MovedAreGone(cfg: Config, disk: map<string, File>, moved: set<string>, disk': map<string, File>)
    requires Relocated(cfg, disk, moved, disk')
    requires forall p | p in moved :: p in disk && Visible(cfg, p)
    ensures moved !! Targets(cfg, moved)
    ensures forall p | p in moved :: p !in disk' && Target(cfg, p) in disk' && disk'[Target(cfg, p)] == disk[p]
  {
    forall p | p in moved
      ensures p !in Targets(cfg, moved) && Target(cfg, p) in Targets(cfg, moved)
    {
      TargetsApart(cfg, moved, p);
    }
  }

  /**
   Only orphans move and at most the limit of them; each is found unchanged under the quarantine root,
   every other file stays as it is unless its place is taken, and exactly as many files are lost as
   targets were occupied.
   */
  lemma {:induction false} RunConserves(cfg: Config, rows: set<string>, cutoff: int, faults: Faults, disk: map<string, File>, disk': map<string, File>)
    requires cfg.maxMove >= 0
    requires Relocated(cfg, disk, Moved(cfg, rows, cutoff, faults, disk), disk')
    ensures
      var moved := Moved(cfg, rows, cutoff, faults, disk);
      var occupied := disk.Keys * Targets(cfg, moved);
      && |moved| <= cfg.maxMove
      && (forall p | p in disk && !Orphan(cfg, rows, cutoff, faults, disk, p) && p !in occupied :: p in disk' && disk'[p] == disk[p])
      && (forall p | p in moved :: p !in disk' && Target(cfg, p) in disk' && disk'[Target(cfg, p)] == disk[p])
      && |disk'| == |disk| - |occupied|
      && (|disk'| == |disk| <==> forall p | p in moved :: Target(cfg, p) !in disk)
  {
    var moved := Moved(cfg, rows, cutoff, faults, disk);
    var targets := Targets(cfg, moved);
    SubsetSize(moved, Orphans(cfg, rows, cutoff, faults, disk));
    TargetsCount(cfg, moved);
    MovedAreGone(cfg, disk, moved, disk');
    RelocatedCount(disk.Keys, moved, targets);
    assert |disk'| == |disk'.Keys| && |disk| == |disk.Keys|;
    assert (forall p | p in moved :: Target(cfg, p) !in disk) <==> disk.Keys * targets == {} by {
      forall p | p in moved
        ensures Target(cfg, p) in targets
      {
      }
    }
  }

  /**
   After a run the orphans left, for the same rows and cutoff, are those it did not move; so if it moved
   them all, a repeat finds nothing.
   */
  lemma {:induction false} RepeatFindsTheRest(cfg: Config, rows: set<string>, cutoff: int, disk: map<string, File>, moved: set<string>, disk': map<string, File>)
    requires moved <= Orphans(cfg, rows, cutoff, NoFaults, disk) && Relocated(cfg, disk, moved, disk')
    ensures Orphans(cfg, rows, cutoff, NoFaults, disk') == Orphans(cfg, rows, cutoff, NoFaults, disk) - moved
  {
    forall p | p in Targets(cfg, moved)
      ensures !Visible(cfg, p)
    {
      var o :| o in moved && Target(cfg, o) == p;
      TargetsAreHidden(cfg, o);
    }
  }

  lemma {:induction false} RepeatMovesNothing(cfg: Config, rows: set<string>, cutoff: int, faults: Faults, disk: map<string, File>, disk': map<string, File>)
    requires !cfg.dryRun && !faults.root && |Orphans(cfg, rows, cutoff, faults, disk)| <= cfg.maxMove
    requires faults.visits == {} && faults.lookups == {} && faults.mkdirs == {} && faults.renames == {}
    requires Relocated(cfg, disk, Moved(cfg, rows, cutoff, faults, disk), disk')
    ensures Orphans(cfg, rows, cutoff, NoFaults, disk') == {} && Moved(cfg, rows, cutoff, NoFaults, disk') == {}
  {
    var moved := Moved(cfg, rows, cutoff, faults, disk);
    assert moved == Orphans(cfg, rows, cutoff, NoFaults, disk);
    RepeatFindsTheRest(cfg, rows, cutoff, disk, moved, disk');
  }

  /** Stored objects are looked up by their own path like any other file. */
  lemma ObjectIsOrphanIff(cfg: Config, rows: set<string>, cutoff: int, faults: Faults, disk: map<string, File>, checksum: string)
    requires cfg.storageRoot + "/objects/" + checksum in disk
    ensures
      var path := cfg.storageRoot + "/objects/" + checksum;
      && ('/' !in checksum ==> (Skipped(cfg, path) <==> cfg.quarantineRoot <= cfg.storageRoot + "/objects"))
      && (Orphan(cfg, rows, cutoff, faults, disk, path) <==>
        && !Skipped(cfg, path) && disk[path].modTime <= cutoff && "objects/" + checksum !in rows
        && path !in faults.visits && path !in faults.lookups)
  {
    var path := cfg.storageRoot + "/objects/" + checksum;
    if '/' !in checksum {
      var dir := cfg.storageRoot + "/objects";
      assert dir[|cfg.storageRoot|] == '/' && dir + "/" + checksum == path;
      ScannedIff(cfg, dir, checksum);
    }
    assert path[|cfg.storageRoot|] == '/' && path[..|cfg.storageRoot|] == cfg.storageRoot;
    assert path[|cfg.storageRoot| + 1..] == "objects/" + checksum;
  }

  /** After a run exactly the moved files are gone from their places. */
  lemma GoneIffMoved(cfg: Config, rows: set<string>, cutoff: int, faults: Faults, disk: map<string, File>, disk': map<string, File>, path: string)
    requires Relocated(cfg, disk, Moved(cfg, rows, cutoff, faults, disk), disk') && path in disk
    ensures path !in disk' <==> path in Moved(cfg, rows, cutoff, faults, disk)
  {
    MovedAreGone(cfg, disk, Moved(cfg, rows, cutoff, faults, disk), disk');
  }

  /**
   A run that nothing stops moves every old file that no row names, from wherever it is scanned, to its
   own place below the quarantine root, unchanged.
   */
  lemma OldFileIsMoved(cfg: Config, rows: set<string>, cutoff: int, disk: map<string, File>, disk': map<string, File>,
                       dir: string, name: string, rel: string)
    requires !cfg.dryRun && |Orphans(cfg, rows, cutoff, NoFaults, disk)| <= cfg.maxMove
    requires Relocated(cfg, disk, Moved(cfg, rows, cutoff, NoFaults, disk), disk')
    requires (dir == cfg.storageRoot || Under(cfg.storageRoot, dir)) && '/' !in name && !(cfg.quarantineRoot <= dir)
    requires dir + "/" + name == cfg.storageRoot + "/" + rel
    requires dir + "/" + name in disk && disk[dir + "/" + name].modTime <= cutoff && rel !in rows
    ensures dir + "/" + name !in disk' && cfg.quarantineRoot + "/" + rel in disk'
    ensures disk'[cfg.quarantineRoot + "/" + rel] == disk[dir + "/" + name]
  {
    var path := dir + "/" + name;
    ScannedIff(cfg, dir, name);
    assert path[|cfg.storageRoot| + 1..] == rel;
    assert path in Orphans(cfg, rows, cutoff, NoFaults, disk);
    MovedAreGone(cfg, disk, Moved(cfg, rows, cutoff, NoFaults, disk), disk');
  }

  /** Found in the code: the skip is by string prefix, so a sibling of the quarantine directory is never scanned. */
  lemma SiblingIsSkipped(cfg: Config, suffix: string, rel: string)
    requires Under(cfg.storageRoot, cfg.quarantineRoot)
    ensures !Visible(cfg, cfg.quarantineRoot + suffix + "/" + rel)
  {
    var path := cfg.quarantineRoot + suffix + "/" + rel;
    var i := |cfg.quarantineRoot + suffix|;
    assert path[i] == '/' && cfg.quarantineRoot <= path[..i];
  }
}
