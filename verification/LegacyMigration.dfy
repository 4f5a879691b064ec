/**
 Runs of the migration with the planner the code uses: what failed opens can do to a table, what a
 stored path leads to afterwards, and whether files stay below the storage root.
 */
module LegacyMigration {
  import opened Content
  import opened Collections
  import opened Paths
  import opened PathTree
  import opened Migration
  import opened MigrationRuns
  import opened MigrationOpens
  import opened Planning

  // ---------- Failed opens ----------

  /**
   Whatever opens fail of those that may, every run keeps every row's own bytes, exactly when no row has
   a later occupied place with other content behind places whose opens may fail.
   */
  lemma OneContentIffRunsStayRight(cfg: Config, site: Site, w: World)
    requires Apart(cfg, site, w) && NotBegun(cfg, w)
    ensures (forall s | Reachable(cfg, w, s) :: BytesAreRight(cfg, w, s) && PrefixesAreRight(cfg, w, s)) <==>
      forall id | id in w.rows && !AlreadyMigrated(w.rows[id]) ::
        OneContent(cfg, w.files, Candidates(site, LegacyPath(w.rows[id])))
  {
    CodeFitsSetting(cfg, site, w);
    FailedOpensAreHarmlessIff(cfg, w);
    forall id | id in w.rows
      ensures Agrees(cfg, w, id) <==>
        AlreadyMigrated(w.rows[id]) || OneContent(cfg, w.files, Candidates(site, LegacyPath(w.rows[id])))
    {
      if AlreadyMigrated(w.rows[id]) {
        MigratedAgrees(cfg, site, w, id);
      } else {
        AgreesIff(cfg, site, w, id);
      }
    }
  }

  /**
   Found in the code: a row with a file at its own place and another one at its base name. If the open
   of the first may fail, there is a run that ends with the row marked, and the destination of the
   first file, which the row names, holding the second.
   */
  lemma FailedOpenMarksAnother(cfg: Config, site: Site, w: World, id: int, whole: string, base: string) returns (s: State)
    requires Apart(cfg, site, w) && NotBegun(cfg, w) && id in w.rows && !AlreadyMigrated(w.rows[id])
    requires TwoLegacyFiles(site, w.files, id, w.rows[id], whole, base)
    requires cfg.mayFail(whole) && w.files[whole] != w.files[base]
    ensures Reachable(cfg, w, s) && id in s.marked && Moves(cfg, w, id) && Source(cfg, w, id) == whole
    ensures Dest(cfg, w, id) in s.files && s.files[Dest(cfg, w, id)] == w.files[base]
  {
    CodeFitsSetting(cfg, site, w);
    FailedOpenCopiesAnother(site, w.files, id, w.rows[id], whole, base);
    var p := DivertedPlan(cfg, site, w, id, whole);
    s := DivertedRun(cfg, w, id, p);
  }

  lemma DivertedPlan(cfg: Config, site: Site, w: World, id: int, whole: string) returns (p: Plan)
    requires cfg.planner == PlannerOf(site) && id in w.rows && cfg.mayFail(whole)
    ensures p == PlanOf(site, w.files - {whole}, id, w.rows[id]) && Possible(cfg, w, id, p)
    ensures PlanAt(cfg, w, id) == PlanOf(site, w.files, id, w.rows[id])
  {
    assert w.files - {} == w.files;
    assert MayFail(cfg, {whole});
    p := Asked(cfg, w.files, {whole}, id, w.rows[id]);
  }

  // ---------- What a stored path leads to ----------

  /** A migrated path is looked up at its destination first. */
  lemma MigratedPathIsFirst(site: Site, files: Files, rel: string)
    requires site.root != "" && Destination(site.root, rel) in files
    ensures FirstFound(files, Candidates(site, rel)) == Some(Spot(Destination(site.root, rel), Destination(site.root, rel)))
  {
    TrimmedJoin(site.root, rel);
    FoundFirst(files, Candidates(site, rel), 0);
  }

  /** A kept row's own lookup goes on finding what it found at the start. */
  lemma KeptPathFinds(cfg: Config, site: Site, w: World, s: State, id: int)
    requires Apart(cfg, site, w) && Rewrites(cfg, w, id) && SameSources(cfg, w, s.files)
    ensures
      var found := FirstFound(s.files, Candidates(site, LegacyPath(w.rows[id])));
      && found.Some? && found.value.key == Source(cfg, w, id) && Source(cfg, w, id) in w.files
      && found.value.key in s.files && s.files[found.value.key] == w.files[Source(cfg, w, id)]
  {
    var row := w.rows[id];
    var places := Candidates(site, LegacyPath(row));
    PlanIsPossible(cfg, w, id);
    SourceIsSafe(cfg, site, w, id, PlanAt(cfg, w, id));
    assert w.files - {} == w.files && s.files - {} == s.files;
    assert PlanAt(cfg, w, id) == PlanOf(site, w.files, id, row);
    OnlyMigratedSkips(site, w.files, id, row);
    PlanForShape(site, id, row, FirstFound(w.files, places));
    FoundIsStable(cfg, w, s.files, {}, places);
  }

  /** The destination of a plan, or the place it keeps, is where its path is looked up first. */
  lemma PlaceOfNewPath(cfg: Config, site: Site, w: World, id: int, p: Plan)
    requires Apart(cfg, site, w) && Possible(cfg, w, id, p) && Rewriting(p) && site.root != ""
    requires p.newPath != LegacyPath(w.rows[id]) || p.Copy?
    ensures PlaceOf(p) == Destination(site.root, p.newPath)
  {
    var blocked := PossibleShape(cfg, site, w, id, p);
    PlanShape(site, w.files - blocked, id, w.rows[id]);
    if p.Keep? {
      ComponentsOfJoin(site.root, p.newPath);
      CleanKeepsComponents(site.root + "/" + p.newPath);
      KeptAtDestination(site, w.files - blocked, id, w.rows[id]);
    }
  }

  lemma KeptAtDestination(site: Site, files: Files, id: int, row: Row)
    requires site.root != "" && PlanOf(site, files, id, row).Keep? && PlanOf(site, files, id, row).newPath != LegacyPath(row)
    ensures
      var p := PlanOf(site, files, id, row);
      p.at == Destination(site.root, p.newPath)
  {
    var places := Candidates(site, LegacyPath(row));
    FoundIsPlace(files, places);
    var found := FirstFound(files, places);
    PlanForShape(site, id, row, found);
    assert found.value in places;
    assert found.value.key == found.value.shown || found.value.key == Clean(found.value.shown);
    var rel := PlanOf(site, files, id, row).newPath;
    ComponentsOfJoin(site.root, rel);
    CleanKeepsComponents(site.root + "/" + rel);
  }

  /**
   After any run, looking up the path stored in a marked row finds a file. It is the row's own content,
   of the stored size and checksum, unless an open failed on the way that could lead elsewhere. For a
   row that was copied, size and checksum are right whatever failed; for one that was kept, exactly when
   the file found has the content of the file that was kept.
   */
  lemma StoredPathFindsTheFile(cfg: Config, site: Site, w: World, s: State, id: int)
    requires Apart(cfg, site, w) && site.root != "" && Reachable(cfg, w, s) && id in s.marked
    ensures id in s.rows && Rewrites(cfg, w, id) && Source(cfg, w, id) in w.files
    ensures
      var row := s.rows[id];
      var found := FirstFound(s.files, Candidates(site, row.path));
      && found.Some? && found.value.key in s.files
      && var data := s.files[found.value.key];
         && (Straight(cfg, w, s, id) ==> data == w.files[Source(cfg, w, id)])
         && (Straight(cfg, w, s, id) || s.marked[id].Copy? ==>
               row.size == |data| && row.checksum == (if id in s.unhashed then "" else cfg.hash(data)))
         && (id !in s.unhashed && PlaceOf(s.marked[id]) in s.files
             && CollisionFree(cfg.hash, {data, s.files[PlaceOf(s.marked[id])]}) ==>
               (row.size == |data| && row.checksum == cfg.hash(data) <==> data == s.files[PlaceOf(s.marked[id])]))
  {
    CodeFitsSetting(cfg, site, w);
    MarkedRowsAreTrue(cfg, w, s, id);
    ReachableAll(cfg, w, s);
    var p := s.marked[id];
    if p.Copy? || p.newPath != LegacyPath(w.rows[id]) {
      PlaceOfNewPath(cfg, site, w, id, p);
      MigratedPathIsFirst(site, s.files, p.newPath);
    } else {
      KeptPathFinds(cfg, site, w, s, id);
    }
  }

  // ---------- Below the storage root ----------

  lemma DestRelHasSteps(site: Site, id: int, row: Row, source: string)
    ensures Steps(DestRel(site, id, row, source)) != []
  {
    var name := PrefixedFilename(id, 0, row.fileName);
    DestRelEnds(site, id, row, source);
    PrefixedFilenameIsNormal(id, 0, row.fileName);
    NamedPathHasSteps(DestRel(site, id, row, source), name);
  }

  lemma NamedPathHasSteps(path: string, name: string)
    requires Normal(name) && EndsIn(path, name)
    ensures Steps(path) != []
  {
    if path == name {
      SplitOne(name);
      PushNormals(false, [], [name]);
    } else {
      var dir := path[..|path| - |name| - 1];
      assert path == dir + "/" + name;
      SplitAppend(dir, name);
      PushAllAppend(false, [], Split(dir), name);
    }
  }

  /**
   The file a copied row names lies below the storage root exactly when the stored path has no leading
   ".."s, or names again the components of the root that they drop.
   */
  lemma CopiedFileIsUnderRootIff(cfg: Config, site: Site, w: World, s: State, id: int)
    requires Apart(cfg, site, w) && site.root != "" && AllNormal(Components(site.root))
    requires Reachable(cfg, w, s) && id in s.marked && s.marked[id].Copy?
    ensures id in s.rows && PlaceOf(s.marked[id]) in s.files
    ensures
      var steps := Steps(s.rows[id].path);
      Inside(site.root, PlaceOf(s.marked[id])) <==>
        ComesBack(Rooted(site.root), Components(site.root), Ups(steps), steps[Ups(steps)..])
    ensures Ups(Steps(s.rows[id].path)) == 0 ==> Inside(site.root, PlaceOf(s.marked[id]))
  {
    CodeFitsSetting(cfg, site, w);
    MarkedRowsAreTrue(cfg, w, s, id);
    var p := s.marked[id];
    var _ := PossibleShape(cfg, site, w, id, p);
    DestRelHasSteps(site, id, w.rows[id], p.src);
    JoinStaysInsideIff(site.root, p.newPath);
  }

  lemma JoinIsClean(root: string, rel: string)
    requires root != ""
    ensures Clean(Join([root, rel])) == Join([root, rel])
  {
    ComponentsOfJoin(root, rel);
    CleanKeepsComponents(root + "/" + rel);
  }

  /** Where a lookup looks is spelled cleanly. */
  lemma CandidatesAreClean(site: Site, path: string)
    requires site.root != ""
    ensures forall p | p in Candidates(site, path) :: Clean(p.key) == p.key && (p.shown == p.key || Clean(p.shown) == p.key)
  {
    JoinIsClean(site.root, TrimSlash(path));
    CleanKeepsComponents(path);
    if site.legacy != "" {
      JoinIsClean(site.legacy, TrimSlash(path));
      JoinIsClean(site.legacy, Base(TrimSlash(path)));
    }
    forall p | p in Candidates(site, path)
      ensures Clean(p.key) == p.key && (p.shown == p.key || Clean(p.shown) == p.key)
    {
      OneOfFour(site, path, p);
    }
  }

  lemma OneOfFour(site: Site, path: string, p: Spot)
    requires p in Candidates(site, path)
    ensures p.shown == p.key || (p.shown == path && p.key == Clean(path))
    ensures p.key in {Join([site.root, TrimSlash(path)]), Clean(path)}
            || (site.legacy != "" && p.key in {Join([site.legacy, TrimSlash(path)]), Join([site.legacy, Base(TrimSlash(path))])})
  {
  }

  lemma KeptShape(site: Site, files: Files, id: int, row: Row)
    requires site.root != "" && PlanOf(site, files, id, row).Keep?
    ensures
      var p := PlanOf(site, files, id, row);
      Clean(p.at) == p.at && (Clean(site.root) <= p.at || p.at == Destination(site.root, p.newPath))
  {
    var places := Candidates(site, LegacyPath(row));
    CandidatesAreClean(site, LegacyPath(row));
    FoundIsPlace(files, places);
    var found := FirstFound(files, places).value;
    assert found in places && found.key == PlanOf(site, files, id, row).at;
    if found.shown == Destination(site.root, DestRel(site, id, row, found.key)) {
      JoinIsClean(site.root, DestRel(site, id, row, found.key));
    }
  }

  /**
   A kept row's file is its destination, or the root's clean name begins its own: the string test of
   the code. It is below the root exactly when its name goes on at a slash.
   */
  lemma KeptFileIsUnderRootIff(cfg: Config, site: Site, w: World, s: State, id: int)
    requires Apart(cfg, site, w) && site.root != "" && AllNormal(Components(site.root))
    requires Reachable(cfg, w, s) && id in s.marked && s.marked[id].Keep?
    ensures
      var at := PlaceOf(s.marked[id]);
      && at in s.files && Clean(at) == at
      && (Clean(site.root) <= at || at == Destination(site.root, s.marked[id].newPath))
      && (Inside(site.root, at) <==> SpelledBelow(site.root, at))
  {
    CodeFitsSetting(cfg, site, w);
    MarkedRowsAreTrue(cfg, w, s, id);
    var blocked := PossibleShape(cfg, site, w, id, s.marked[id]);
    KeptShape(site, w.files - blocked, id, w.rows[id]);
    InsideIffSpelledBelow(site.root, PlaceOf(s.marked[id]));
  }

  /**
   Found in the code: the module of an upload is taken as it comes. With ".." for a module the file
   goes two directories up from the storage root: under /data, to /2024/01.
   */
  lemma DotDotModuleEscapes(norm: string -> string, binID: int, filename: string, root: string)
    requires norm("..") == ".." && Normal(root)
    ensures
      var rel := GenerateShardedPath(norm, "..", "..", "", binID, filename, YearMonth("2024", "01"), 0);
      && rel == "../../2024/01/" + PrefixedFilename(binID, 0, filename)
      && Destination("/" + root, rel) == "/2024/01/" + PrefixedFilename(binID, 0, filename)
      && (root != "2024" ==> !Inside("/" + root, Destination("/" + root, rel)))
  {
    var name := PrefixedFilename(binID, 0, filename);
    PrefixedFilenameIsNormal(binID, 0, filename);
    var parts := ["..", "..", "2024", "01", name];
    var rel := GenerateShardedPath(norm, "..", "..", "", binID, filename, YearMonth("2024", "01"), 0);
    DotDotSteps(name);
    DotDotSpelled(name);
    assert rel == Join(parts);
    DotDotClimbs(root, name, rel);
  }

  /** The steps of such a path, cleaned or not. */
  lemma DotDotSteps(name: string)
    requires Normal(name)
    ensures Canonical(["..", "..", "2024", "01", name]) && AllNormal(["2024", "01", name])
  {
    assert "2024"[0] == '2' && "01"[0] == '0';
    assert '/' !in "2024" && '/' !in "01";
  }

  lemma DotDotSpelled(name: string)
    requires Normal(name)
    ensures
      var parts := ["..", "..", "2024", "01", name];
      && JoinWith(parts) == "../../2024/01/" + name && Join(parts) == JoinWith(parts)
      && !Rooted(JoinWith(parts)) && Components(JoinWith(parts)) == parts
  {
    var parts := ["..", "..", "2024", "01", name];
    DotDotSteps(name);
    JoinWithFive("..", "..", "2024", "01", name);
    ComponentsOfSpelled(false, parts);
    JoinWithNonEmpty(parts);
    assert Spell(false, parts) == JoinWith(parts);
    CleanKeepsComponents(JoinWith(parts));
    assert "../" + "../" + "2024/" + "01/" + name == "../../2024/01/" + name;
  }

  lemma DotDotClimbs(root: string, name: string, rel: string)
    requires Normal(root) && Normal(name) && rel == JoinWith(["..", "..", "2024", "01", name])
    ensures Destination("/" + root, rel) == "/2024/01/" + name
    ensures root != "2024" ==> !Inside("/" + root, Destination("/" + root, rel))
  {
    var names := ["2024", "01", name];
    DotDotSteps(name);
    DotDotPlace(root, names, rel, name);
    SpellThreeNames("2024", "01", name);
    RootedName(root);
    if root != "2024" {
      assert Components(Destination("/" + root, rel))[0] == "2024";
    }
  }

  lemma DotDotPlace(root: string, names: seq<string>, rel: string, name: string)
    requires Normal(root) && Normal(name) && names == ["2024", "01", name] && rel == JoinWith(["..", "..", "2024", "01", name])
    ensures Destination("/" + root, rel) == Spell(true, names) && Components(Destination("/" + root, rel)) == names
  {
    var ups := ["..", ".."];
    DotDotSteps(name);
    DotDotSpelled(name);
    RootedName(root);
    ComponentsOfJoin("/" + root, rel);
    assert Steps(rel) == ups + names;
    PushAllConcat(true, [root], ups, names);
    ClimbIs(true, [root], ups);
    PushNormals(true, [], names);
    assert [] + names == names;
    CleanKeepsComponents("/" + root + "/" + rel);
  }

  lemma SpellThreeNames(a: string, b: string, c: string)
    ensures Spell(true, [a, b, c]) == "/" + a + "/" + b + "/" + c
  {
    assert [a, b, c][1..] == [b, c] && [b, c][1..] == [c];
    assert JoinWith([c]) == c && JoinWith([b, c]) == b + "/" + c;
    assert JoinWith([a, b, c]) == a + "/" + (b + "/" + c);
    assert "/" + (a + "/" + (b + "/" + c)) == "/" + a + "/" + b + "/" + c;
  }
}
