/**
 What one row needs: where its source is found, where it goes, and when it stays. These are the
 decisions of the worker and of MigrateLegacyFile before any byte is copied.
 */
module Planning {
  import opened Content
  import opened Collections
  import opened Paths
  import opened PathTree
  import opened Migration

  /** Storage and legacy roots, the module normalisation, and the (unchanging) mtimes of sources. */
  datatype Site = Site(root: string, legacy: string, norm: string -> string, mtime: string -> YearMonth)

  /** The path the worker asks for. */
  function LegacyPath(row: Row): string {
    if row.path != "" then row.path
    else if row.directory == "" then Join([row.module_, row.fileName])
    else Join([row.directory, row.fileName])
  }

  /** A place Open looks: the path as it names it, and the file that is. */
  datatype Spot = Spot(shown: string, key: string)

  function Candidates(site: Site, path: string): seq<Spot> {
    var rel := TrimSlash(path);
    var root := Join([site.root, rel]);
    [Spot(root, root), Spot(path, Clean(path))] +
    if site.legacy == "" then []
    else
      var whole, base := Join([site.legacy, rel]), Join([site.legacy, Base(rel)]);
      [Spot(whole, whole), Spot(base, base)]
  }

  /** The path asked for is the row's own, or else its file name below its directory, or below its module if it has none. */
  lemma LegacyPathIs(row: Row)
    requires Normal(row.fileName)
    ensures row.path != "" ==> LegacyPath(row) == row.path
    ensures row.path == "" && Normal(row.directory) ==> LegacyPath(row) == row.directory + "/" + row.fileName
    ensures row.path == "" && row.directory == "" && Normal(row.module_) ==> LegacyPath(row) == row.module_ + "/" + row.fileName
  {
    if Normal(row.directory) {
      TwoNames(row.directory, row.fileName);
    }
    if Normal(row.module_) {
      TwoNames(row.module_, row.fileName);
    }
  }

  /** For instance under /r and /l: the places of d/f and of /d/f, in order. */
  lemma {:induction false} CandidatesAre(site: Site, r: string, l: string, d: string, f: string)
    requires Normal(r) && Normal(l) && Normal(d) && Normal(f) && site.root == "/" + r && site.legacy == "/" + l
    ensures
      var path := d + "/" + f;
      var under, whole, base := "/" + r + "/" + path, "/" + l + "/" + path, "/" + l + "/" + f;
      && Candidates(site, path) == [Spot(under, under), Spot(path, path), Spot(whole, whole), Spot(base, base)]
      && Candidates(site, "/" + path) == [Spot(under, under), Spot("/" + path, "/" + path), Spot(whole, whole), Spot(base, base)]
      && Candidates(site.(legacy := ""), path) == [Spot(under, under), Spot(path, path)]
  {
    var path := d + "/" + f;
    TwoRoots(r, l, d, f, path);
    CandidatesFrom(site, path, path, "/" + r + "/" + path, "/" + l + "/" + path, "/" + l + "/" + f);
    CandidatesFrom(site, "/" + path, path, "/" + r + "/" + path, "/" + l + "/" + path, "/" + l + "/" + f);
  }

  lemma TwoRoots(r: string, l: string, d: string, f: string, path: string)
    requires Normal(r) && Normal(l) && Normal(d) && Normal(f) && path == d + "/" + f
    ensures TrimSlash(path) == path == TrimSlash("/" + path) && Base(path) == f && Clean(path) == path && Clean("/" + path) == "/" + path
    ensures Join(["/" + r, path]) == "/" + r + "/" + path && Join(["/" + l, path]) == "/" + l + "/" + path
    ensures Join(["/" + l, f]) == "/" + l + "/" + f
  {
    LookupPlaces(r, l, d, f);
    RegroupThree(l, d, f);
    AbsoluteIsClean(d, f, path);
  }

  lemma AbsoluteIsClean(d: string, f: string, path: string)
    requires Normal(d) && Normal(f) && path == d + "/" + f
    ensures Clean("/" + path) == "/" + path && TrimSlash("/" + path) == path
  {
    CleanOfTwo(d, f);
    assert "/" + path == "/" + d + "/" + f && ("/" + path)[1..] == path;
  }

  lemma CandidatesFrom(site: Site, path: string, rel: string, under: string, whole: string, base: string)
    requires TrimSlash(path) == rel && Clean(path) == path && site.legacy != ""
    requires Join([site.root, rel]) == under && Join([site.legacy, rel]) == whole && Join([site.legacy, Base(rel)]) == base
    ensures Candidates(site, path) == [Spot(under, under), Spot(path, path), Spot(whole, whole), Spot(base, base)]
    ensures Candidates(site.(legacy := ""), path) == [Spot(under, under), Spot(path, path)]
  {
  }

  function FirstFound(files: Files, places: seq<Spot>): Option<Spot> {
    if places == [] then None
    else if places[0].key in files then Some(places[0])
    else FirstFound(files, places[1..])
  }

  function DestRel(site: Site, id: int, row: Row, source: string): string {
    GenerateShardedPath(site.norm, row.module_, row.module_, row.directory, id, row.fileName, site.mtime(source), 0)
  }

  predicate AlreadyMigrated(row: Row) {
    row.flag == "M" && '/' in row.path
  }

  function PlanOf(site: Site, files: Files, id: int, row: Row): Plan {
    if AlreadyMigrated(row) then Skip else PlanFor(site, id, row, FirstFound(files, Candidates(site, LegacyPath(row))))
  }

  /** What MigrateLegacyFile decides, given what Open found. */
  function PlanFor(site: Site, id: int, row: Row, source: Option<Spot>): Plan {
    match source
    case None => NotFound
    case Some(found) =>
      var rel := DestRel(site, id, row, found.key);
      var dest := Destination(site.root, rel);
      if found.shown == dest then Keep(rel, found.key)
      else if Clean(site.root) <= Clean(found.shown) then Keep(LegacyPath(row), found.key)
      else Copy(rel, dest, found.key)
  }

  function PlannerOf(site: Site): Planner {
    (files: Files, id: int, row: Row) => PlanOf(site, files, id, row)
  }

  /**
   The table fits the disk: positive ids, mtimes that format, no place where a row may be looked up is
   a destination, and a destination that exists is the beginning of its source.
   */
  ghost predicate Apart(cfg: Config, site: Site, w: World) {
    && cfg.planner == PlannerOf(site)
    && (forall id | id in w.rows :: id > 0)
    && (forall k :: ValidDate(site.mtime(k)))
    && (forall id, p | id in w.rows && !AlreadyMigrated(w.rows[id]) && p in Candidates(site, LegacyPath(w.rows[id])) ::
          !IsDest(cfg, w, p.key))
    && DestsBegun(cfg, w)
  }

  lemma {:induction false} FoundIsPlace(files: Files, places: seq<Spot>)
    ensures
      var found := FirstFound(files, places);
      found.Some? ==> found.value in places && found.value.key in files
    decreases |places|
  {
    if places != [] && places[0].key !in files {
      FoundIsPlace(files, places[1..]);
    }
  }

  /** Looking up places that are no destinations gives the same answer all through a migration. */
  lemma {:induction false} FoundIsStable(cfg: Config, w: World, files: Files, blocked: set<string>, places: seq<Spot>)
    requires SameSources(cfg, w, files)
    requires forall p | p in places :: !IsDest(cfg, w, p.key)
    ensures FirstFound(files - blocked, places) == FirstFound(w.files - blocked, places)
    decreases |places|
  {
    if places != [] {
      assert places[0] in places;
      FoundIsStable(cfg, w, files, blocked, places[1..]);
    }
  }

  lemma PlanIsStable(cfg: Config, site: Site, w: World, files: Files, blocked: set<string>, id: int)
    requires Apart(cfg, site, w) && id in w.rows && SameSources(cfg, w, files)
    ensures PlanOf(site, files - blocked, id, w.rows[id]) == PlanOf(site, w.files - blocked, id, w.rows[id])
  {
    var row := w.rows[id];
    if !AlreadyMigrated(row) {
      var places := Candidates(site, LegacyPath(row));
      FoundIsStable(cfg, w, files, blocked, places);
      assert PlanOf(site, files - blocked, id, row) == PlanFor(site, id, row, FirstFound(files - blocked, places));
      assert PlanOf(site, w.files - blocked, id, row) == PlanFor(site, id, row, FirstFound(w.files - blocked, places));
    }
  }

  /** What a plan other than Skip and NotFound consists of. */
  lemma PlanShape(site: Site, files: Files, id: int, row: Row)
    ensures
      var plan := PlanOf(site, files, id, row);
      && (plan.Copy? ==> plan.newPath == DestRel(site, id, row, plan.src) && plan.dest == Destination(site.root, plan.newPath)
                         && plan.src in files && !AlreadyMigrated(row))
      && (plan.Keep? ==> plan.at in files && !AlreadyMigrated(row)
                         && (plan.newPath == LegacyPath(row)
                             || (plan.newPath == DestRel(site, id, row, plan.at)
                                 && Clean(Destination(site.root, plan.newPath)) in {plan.at, Clean(plan.at)})))
  {
    if !AlreadyMigrated(row) {
      var places := Candidates(site, LegacyPath(row));
      FoundIsPlace(files, places);
      var found := FirstFound(files, places);
      PlanForShape(site, id, row, found);
      if found.Some? {
        assert found.value in places;
        assert found.value.key == found.value.shown || found.value.key == Clean(found.value.shown);
      }
    }
  }

  lemma PlanForShape(site: Site, id: int, row: Row, source: Option<Spot>)
    ensures
      var plan := PlanFor(site, id, row, source);
      && (plan.Copy? ==> plan.newPath == DestRel(site, id, row, plan.src) && plan.dest == Destination(site.root, plan.newPath))
      && (plan.Keep? ==> plan.newPath == LegacyPath(row)
                         || (source.Some? && plan.newPath == DestRel(site, id, row, plan.at)
                             && source.value.shown == Destination(site.root, plan.newPath)))
      && (Rewriting(plan) <==> source.Some?) && (source.Some? ==> SourceOf(plan) == source.value.key)
      && !plan.Skip? && (plan.NotFound? <==> source.None?)
  {
  }

  /**
   Where a copied row's file is filed: under its module, or uploads; then under its own directory if the
   scanner queued it and it has one, and under its normalised module, or general, otherwise; then
   under the year and month of its source, by its id and name.
   */
  lemma CopiedPathComponents(site: Site, files: Files, id: int, row: Row)
    requires PlanOf(site, files, id, row).Copy? && ValidDate(site.mtime(PlanOf(site, files, id, row).src))
    ensures
      var plan := PlanOf(site, files, id, row);
      var top := if row.module_ in {"", "files"} then "uploads" else row.module_;
      var m := site.norm(if row.module_ != "" then row.module_ else "general");
      var dir := if m != "legacy_scan" || row.directory == "" then m else row.directory;
      var date := site.mtime(plan.src);
      && plan.src in files && plan.dest == Join([site.root, plan.newPath]) && Rooted(plan.newPath) == Rooted(top)
      && Components(plan.newPath) ==
           PushAll(Rooted(top), Components(top), Steps(dir)) + [date.year, date.month, PrefixedFilename(id, 0, row.fileName)]
  {
    PlanShape(site, files, id, row);
    var src := PlanOf(site, files, id, row).src;
    ShardedPathComponents(site.norm, row.module_, row.module_, row.directory, id, row.fileName, site.mtime(src), 0);
  }

  /**
   Spelled out, for modules and directories that do not climb: a scanned file keeps its directory, and
   one of any other module is filed under its module twice, whatever its directory.
   */
  lemma CopiedPathSpelled(site: Site, files: Files, id: int, row: Row)
    requires PlanOf(site, files, id, row).Copy? && ValidDate(site.mtime(PlanOf(site, files, id, row).src))
    requires Normal(row.module_) && Normal(site.norm(row.module_)) && AllNormal(Steps(row.directory))
    ensures
      var plan, m := PlanOf(site, files, id, row), site.norm(row.module_);
      var date := site.mtime(plan.src);
      var filed := "/" + date.year + "/" + date.month + "/" + PrefixedFilename(id, 0, row.fileName);
      var top := if row.module_ == "files" then "uploads" else row.module_;
      && (m == "legacy_scan" && Steps(row.directory) != [] ==> plan.newPath == top + "/" + JoinWith(Steps(row.directory)) + filed)
      && (m != "legacy_scan" ==> plan.newPath == top + "/" + m + filed)
  {
    PlanShape(site, files, id, row);
    var plan, m := PlanOf(site, files, id, row), site.norm(row.module_);
    var date, name := site.mtime(plan.src), PrefixedFilename(id, 0, row.fileName);
    var top := if row.module_ == "files" then "uploads" else row.module_;
    PrefixedFilenameIsNormal(id, 0, row.fileName);
    DigitsAreNormal(date.year);
    DigitsAreNormal(date.month);
    if m == "legacy_scan" && Steps(row.directory) != [] {
      StepsOfNothing();
      FiledPathSpelled(top, row.directory, date.year, date.month, name);
      RegroupFiled(top + "/" + JoinWith(Steps(row.directory)), date.year, date.month, name);
    } else if m != "legacy_scan" {
      StepsOfName(m);
      FiledPathSpelled(top, m, date.year, date.month, name);
      RegroupFiled(top + "/" + m, date.year, date.month, name);
    }
  }

  lemma RegroupFiled(a: string, year: string, month: string, name: string)
    ensures a + "/" + year + "/" + month + "/" + name == a + ("/" + year + "/" + month + "/" + name)
  {
  }

  lemma StepsOfNothing()
    ensures Steps("") == []
  {
    assert Split("") == [""];
    assert PushAll(false, [], [""]) == [];
  }

  lemma StepsOfName(name: string)
    requires Normal(name)
    ensures Steps(name) == [name] && JoinWith([name]) == name
  {
    SplitOne(name);
    PushNormals(false, [], [name]);
    assert [] + [name] == [name];
  }

  /** The file found first among all is found at all. */
  lemma {:induction false} FewerFound(files: Files, blocked: set<string>, places: seq<Spot>)
    ensures FirstFound(files - blocked, places).Some? ==> FirstFound(files, places).Some?
    decreases |places|
  {
    if places != [] {
      FewerFound(files, blocked, places[1..]);
    }
  }

  lemma SourceIsSafe(cfg: Config, site: Site, w: World, id: int, p: Plan)
    requires Apart(cfg, site, w) && Possible(cfg, w, id, p) && Rewriting(p)
    ensures SourceOf(p) in w.files && !IsDest(cfg, w, SourceOf(p)) && Rewrites(cfg, w, id)
  {
    var row := w.rows[id];
    var places := Candidates(site, LegacyPath(row));
    var blocked :| MayFail(cfg, blocked) && p == Asked(cfg, w.files, blocked, id, row);
    assert p == PlanOf(site, w.files - blocked, id, row) && !AlreadyMigrated(row);
    FoundIsPlace(w.files - blocked, places);
    PlanForShape(site, id, row, FirstFound(w.files - blocked, places));
    FewerFound(w.files, blocked, places);
    assert w.files - {} == w.files;
    PlanForShape(site, id, row, FirstFound(w.files, places));
    assert PlanAt(cfg, w, id) == PlanOf(site, w.files, id, row);
  }

  lemma DestRelsDiffer(site: Site, a: int, ra: Row, sa: string, b: int, rb: Row, sb: string)
    requires a > 0 && b > 0 && a != b
    ensures Destination(site.root, DestRel(site, a, ra, sa)) != Destination(site.root, DestRel(site, b, rb, sb))
  {
    DestinationsAreDistinct(site.norm, site.root,
                            ra.module_, ra.module_, ra.directory, a, ra.fileName, site.mtime(sa),
                            rb.module_, rb.module_, rb.directory, b, rb.fileName, site.mtime(sb), 0, 0);
  }

  /** A destination carries the id of its row. */
  lemma DestsDiffer(cfg: Config, site: Site, w: World, a: int, b: int, k: string)
    requires Apart(cfg, site, w) && DestOf(cfg, w, a, k) && DestOf(cfg, w, b, k)
    ensures a == b
  {
    var p :| Possible(cfg, w, a, p) && p.Copy? && p.dest == k;
    var q :| Possible(cfg, w, b, q) && q.Copy? && q.dest == k;
    var _ := PossibleShape(cfg, site, w, a, p);
    var _ := PossibleShape(cfg, site, w, b, q);
    if a != b {
      DestRelsDiffer(site, a, w.rows[a], p.src, b, w.rows[b], q.src);
    }
  }

  lemma PossibleShape(cfg: Config, site: Site, w: World, id: int, p: Plan) returns (blocked: set<string>)
    requires cfg.planner == PlannerOf(site) && Possible(cfg, w, id, p)
    ensures MayFail(cfg, blocked) && p == PlanOf(site, w.files - blocked, id, w.rows[id])
    ensures p.Copy? ==>
      p.newPath == DestRel(site, id, w.rows[id], p.src) && p.dest == Destination(site.root, p.newPath)
      && p.src in w.files && !AlreadyMigrated(w.rows[id])
  {
    blocked :| MayFail(cfg, blocked) && p == Asked(cfg, w.files, blocked, id, w.rows[id]);
    PlanShape(site, w.files - blocked, id, w.rows[id]);
  }

  lemma DestRelHasSlash(site: Site, id: int, row: Row, source: string)
    requires ValidDate(site.mtime(source))
    ensures '/' in DestRel(site, id, row, source)
  {
    ShardedPathHasSlash(site.norm, row.module_, row.module_, row.directory, id, row.fileName, site.mtime(source), 0);
  }

  /** A row kept under its own slash-free path asks for the same file again. */
  lemma KeptRowAsksAgain(row: Row, final: Row)
    requires final.module_ == row.module_ && final.directory == row.directory && final.fileName == row.fileName
    requires final.path == LegacyPath(row)
    ensures LegacyPath(final) == LegacyPath(row)
  {
  }

  lemma KeptPlanAgain(site: Site, files: Files, id: int, row: Row, final: Row)
    requires final.module_ == row.module_ && final.directory == row.directory && final.fileName == row.fileName
    requires LegacyPath(final) == LegacyPath(row) && !AlreadyMigrated(row) && !AlreadyMigrated(final)
    ensures PlanOf(site, files, id, final) == PlanOf(site, files, id, row)
  {
  }

  /** A rewritten row is skipped from then on, or stays where it is and is asked for again. */
  lemma RewrittenIsSettled(cfg: Config, site: Site, w: World, files: Files, blocked: set<string>,
                           id: int, p: Plan, data: Bytes, hashed: bool)
    requires Apart(cfg, site, w) && Possible(cfg, w, id, p) && Rewriting(p) && SameSources(cfg, w, files)
    ensures
      var again := PlanOf(site, files - blocked, id, Rewritten(cfg, w.rows[id], p, data, hashed));
      again.Skip? || (p.Keep? && again == PlanOf(site, w.files - blocked, id, w.rows[id]))
  {
    var row, final := w.rows[id], Rewritten(cfg, w.rows[id], p, data, hashed);
    assert final.path == p.newPath && final.flag == "M";
    if !AlreadyMigrated(final) {
      var b := PossibleShape(cfg, site, w, id, p);
      PlanShape(site, w.files - b, id, row);
      DestRelHasSlash(site, id, row, SourceOf(p));
      KeptRowAsksAgain(row, final);
      KeptPlanAgain(site, files - blocked, id, row, final);
      PlanIsStable(cfg, site, w, files, blocked, id);
    }
  }

  /** The planner of the code fits every such table: all results about runs apply to it. */
  lemma {:induction false} CodeFitsSetting(cfg: Config, site: Site, w: World)
    requires Apart(cfg, site, w)
    ensures Setting(cfg, w)
  {
    forall a, b, k | DestOf(cfg, w, a, k) && DestOf(cfg, w, b, k)
      ensures a == b
    {
      DestsDiffer(cfg, site, w, a, b, k);
    }
    forall id, p | Possible(cfg, w, id, p) && Rewriting(p)
      ensures SourceOf(p) in w.files && !IsDest(cfg, w, SourceOf(p)) && Rewrites(cfg, w, id)
    {
      SourceIsSafe(cfg, site, w, id, p);
    }
    CodePlansAreStable(cfg, site, w);
    forall files, blocked, id, row | Asked(cfg, files, blocked, id, row).Skip?
      ensures Asked(cfg, files, {}, id, row).Skip?
    {
      OnlyMigratedSkips(site, files - blocked, id, row);
      OnlyMigratedSkips(site, files - {}, id, row);
    }
  }

  lemma OnlyMigratedSkips(site: Site, files: Files, id: int, row: Row)
    ensures PlanOf(site, files, id, row).Skip? <==> AlreadyMigrated(row)
  {
  }

  lemma CodePlansAreStable(cfg: Config, site: Site, w: World)
    requires Apart(cfg, site, w)
    ensures PlansAreStable(cfg, w)
  {
    forall files, blocked, id | id in w.rows && SameSources(cfg, w, files)
      ensures Asked(cfg, files, blocked, id, w.rows[id]) == Asked(cfg, w.files, blocked, id, w.rows[id])
    {
      PlanIsStable(cfg, site, w, files, blocked, id);
    }
    forall files, blocked, id, p, data, hashed | Possible(cfg, w, id, p) && Rewriting(p) && SameSources(cfg, w, files)
      ensures
        var again := Asked(cfg, files, blocked, id, Rewritten(cfg, w.rows[id], p, data, hashed));
        again.Skip? || (p.Keep? && again == Asked(cfg, w.files, blocked, id, w.rows[id]))
    {
      RewrittenIsSettled(cfg, site, w, files, blocked, id, p, data, hashed);
    }
  }

  // ---------- Which sources failed opens may lead to ----------

  /** The lookup may arrive at place i: it is occupied, and every occupied one before it may fail to open. */
  ghost predicate Leads(cfg: Config, files: Files, places: seq<Spot>, i: nat) {
    && i < |places| && places[i].key in files
    && forall j | 0 <= j < i && places[j].key in files :: places[j].key != places[i].key && cfg.mayFail(places[j].key)
  }

  /** No failed open has a later occupied place with other content. */
  ghost predicate OneContent(cfg: Config, files: Files, places: seq<Spot>) {
    forall i: nat, j: nat | Leads(cfg, files, places, i) && Leads(cfg, files, places, j) ::
      files[places[i].key] == files[places[j].key]
  }

  lemma {:induction false} FoundAt(files: Files, places: seq<Spot>) returns (i: nat)
    requires FirstFound(files, places).Some?
    ensures i < |places| && FirstFound(files, places) == Some(places[i]) && places[i].key in files
    ensures forall j | 0 <= j < i :: places[j].key !in files
    decreases |places|
  {
    if places[0].key in files {
      i := 0;
    } else {
      i := FoundAt(files, places[1..]);
      i := i + 1;
      assert forall j | 0 < j < i :: places[j] == places[1..][j - 1];
    }
  }

  lemma {:induction false} FoundFirst(files: Files, places: seq<Spot>, i: nat)
    requires i < |places| && places[i].key in files && forall j | 0 <= j < i :: places[j].key !in files
    ensures FirstFound(files, places) == Some(places[i])
    decreases |places|
  {
    if i > 0 {
      FoundFirst(files, places[1..], i - 1);
    }
  }

  /** A failing set of opens makes the lookup arrive at a place it may lead to. */
  lemma BlockedLeads(cfg: Config, files: Files, blocked: set<string>, places: seq<Spot>) returns (i: nat)
    requires MayFail(cfg, blocked) && FirstFound(files - blocked, places).Some?
    ensures Leads(cfg, files, places, i) && FirstFound(files - blocked, places) == Some(places[i])
  {
    i := FoundAt(files - blocked, places);
  }

  /** And every such place is arrived at when those before it fail. */
  lemma LeadsBlocked(cfg: Config, files: Files, places: seq<Spot>, i: nat) returns (blocked: set<string>)
    requires Leads(cfg, files, places, i)
    ensures MayFail(cfg, blocked) && FirstFound(files - blocked, places) == Some(places[i])
  {
    blocked := set j | 0 <= j < i && places[j].key in files :: places[j].key;
    FoundFirst(files - blocked, places, i);
  }

  /** For the planner of the code: the sources of a row agree exactly when its lookup has one content. */
  lemma AgreesIff(cfg: Config, site: Site, w: World, id: int)
    requires cfg.planner == PlannerOf(site) && id in w.rows && !AlreadyMigrated(w.rows[id])
    ensures Agrees(cfg, w, id) <==> OneContent(cfg, w.files, Candidates(site, LegacyPath(w.rows[id])))
  {
    var places := Candidates(site, LegacyPath(w.rows[id]));
    if Agrees(cfg, w, id) {
      forall i: nat, j: nat | Leads(cfg, w.files, places, i) && Leads(cfg, w.files, places, j)
        ensures w.files[places[i].key] == w.files[places[j].key]
      {
        var p := LeadsPlan(cfg, site, w, id, i);
        var q := LeadsPlan(cfg, site, w, id, j);
      }
    }
    if OneContent(cfg, w.files, places) {
      forall p, q | Possible(cfg, w, id, p) && Possible(cfg, w, id, q) && Rewriting(p) && Rewriting(q)
        ensures SourceOf(p) in w.files && SourceOf(q) in w.files && w.files[SourceOf(p)] == w.files[SourceOf(q)]
      {
        var i := PlanLeads(cfg, site, w, id, p);
        var j := PlanLeads(cfg, site, w, id, q);
      }
    }
  }

  lemma LeadsPlan(cfg: Config, site: Site, w: World, id: int, i: nat) returns (p: Plan)
    requires cfg.planner == PlannerOf(site) && id in w.rows && !AlreadyMigrated(w.rows[id])
    requires Leads(cfg, w.files, Candidates(site, LegacyPath(w.rows[id])), i)
    ensures Possible(cfg, w, id, p) && Rewriting(p) && SourceOf(p) == Candidates(site, LegacyPath(w.rows[id]))[i].key
  {
    var places := Candidates(site, LegacyPath(w.rows[id]));
    var blocked := LeadsBlocked(cfg, w.files, places, i);
    p := Asked(cfg, w.files, blocked, id, w.rows[id]);
    PlanForShape(site, id, w.rows[id], FirstFound(w.files - blocked, places));
  }

  lemma PlanLeads(cfg: Config, site: Site, w: World, id: int, p: Plan) returns (i: nat)
    requires cfg.planner == PlannerOf(site) && Possible(cfg, w, id, p) && Rewriting(p) && !AlreadyMigrated(w.rows[id])
    ensures
      var places := Candidates(site, LegacyPath(w.rows[id]));
      Leads(cfg, w.files, places, i) && SourceOf(p) == places[i].key
  {
    var places := Candidates(site, LegacyPath(w.rows[id]));
    var blocked := PossibleShape(cfg, site, w, id, p);
    PlanForShape(site, id, w.rows[id], FirstFound(w.files - blocked, places));
    i := BlockedLeads(cfg, w.files, blocked, places);
  }

  /** A row already migrated is skipped whatever fails. */
  lemma MigratedAgrees(cfg: Config, site: Site, w: World, id: int)
    requires cfg.planner == PlannerOf(site) && id in w.rows && AlreadyMigrated(w.rows[id])
    ensures Agrees(cfg, w, id)
  {
  }

  // ---------- The test for "already under the storage root" ----------

  /**
   The test compares strings. When the lookup finds a file at its place below the legacy root only, and
   that is not the destination, the file is copied exactly when the storage root's name does not begin
   that place's; otherwise the row is marked migrated and the file left where it is.
   */
  lemma LegacyFileIsCopiedIff(site: Site, files: Files, id: int, row: Row)
    requires !AlreadyMigrated(row) && site.legacy != ""
    requires Join([site.root, TrimSlash(LegacyPath(row))]) !in files && Clean(LegacyPath(row)) !in files
    requires
      var whole := Join([site.legacy, TrimSlash(LegacyPath(row))]);
      whole in files && whole != Destination(site.root, DestRel(site, id, row, whole))
    ensures
      var whole := Join([site.legacy, TrimSlash(LegacyPath(row))]);
      && (PlanOf(site, files, id, row).Copy? <==> !(Clean(site.root) <= whole))
      && (Clean(site.root) <= whole ==> PlanOf(site, files, id, row) == Keep(LegacyPath(row), whole))
  {
    FoundAtLegacy(site, files, LegacyPath(row));
    ComponentsOfJoin(site.legacy, TrimSlash(LegacyPath(row)));
    CleanKeepsComponents(site.legacy + "/" + TrimSlash(LegacyPath(row)));
  }

  /** What the lookup finds with nothing at the first two places. */
  lemma FoundAtLegacy(site: Site, files: Files, path: string)
    requires site.legacy != "" && Join([site.root, TrimSlash(path)]) !in files && Clean(path) !in files
    ensures
      var whole, base := Join([site.legacy, TrimSlash(path)]), Join([site.legacy, Base(TrimSlash(path))]);
      && (whole in files ==> FirstFound(files, Candidates(site, path)) == Some(Spot(whole, whole)))
      && (whole !in files && base in files ==> FirstFound(files, Candidates(site, path)) == Some(Spot(base, base)))
  {
    var whole, base := Join([site.legacy, TrimSlash(path)]), Join([site.legacy, Base(TrimSlash(path))]);
    var places := Candidates(site, path);
    assert places[2] == Spot(whole, whole) && places[3] == Spot(base, base);
    if whole in files {
      FoundFirst(files, places, 2);
    } else if base in files {
      FoundFirst(files, places, 3);
    }
  }

  /** A file found below the storage root stays, under the row's path; its name does not matter. */
  lemma FoundUnderRootIsKept(site: Site, files: Files, id: int, row: Row)
    requires !AlreadyMigrated(row) && site.root != "" && AllNormal(Components(site.root)) && Components(site.root) != []
    requires Join([site.root, TrimSlash(LegacyPath(row))]) in files && DoesNotClimb(LegacyPath(row))
    ensures
      var place := Join([site.root, TrimSlash(LegacyPath(row))]);
      && (place != Destination(site.root, DestRel(site, id, row, place)) ==> PlanOf(site, files, id, row) == Keep(LegacyPath(row), place))
      && (place == Destination(site.root, DestRel(site, id, row, place)) ==>
            PlanOf(site, files, id, row) == Keep(DestRel(site, id, row, place), place))
  {
    var rel := TrimSlash(LegacyPath(row));
    FoundFirst(files, Candidates(site, LegacyPath(row)), 0);
    JoinSpellsOut(site.root, rel);
    ComponentsOfJoin(site.root, rel);
    CleanKeepsComponents(site.root + "/" + rel);
  }

  /** A file found at its destination by its absolute path stays, and the row gets the relative one. */
  lemma FoundAtDestinationIsKept(site: Site, files: Files, id: int, row: Row)
    requires !AlreadyMigrated(row) && row.path == Destination(site.root, DestRel(site, id, row, row.path))
    requires row.path in files && Clean(row.path) == row.path && Join([site.root, TrimSlash(row.path)]) !in files && row.path != ""
    ensures PlanOf(site, files, id, row) == Keep(DestRel(site, id, row, row.path), row.path)
  {
    FoundFirst(files, Candidates(site, row.path), 1);
  }

  /** The same for a file found only at its base name below the legacy root. */
  lemma BaseNameIsCopiedIff(site: Site, files: Files, id: int, row: Row)
    requires !AlreadyMigrated(row) && site.legacy != ""
    requires Join([site.root, TrimSlash(LegacyPath(row))]) !in files && Clean(LegacyPath(row)) !in files
    requires Join([site.legacy, TrimSlash(LegacyPath(row))]) !in files
    requires
      var base := Join([site.legacy, Base(TrimSlash(LegacyPath(row)))]);
      base in files && base != Destination(site.root, DestRel(site, id, row, base))
    ensures
      var base := Join([site.legacy, Base(TrimSlash(LegacyPath(row)))]);
      && (PlanOf(site, files, id, row).Copy? <==> !(Clean(site.root) <= base))
      && (Clean(site.root) <= base ==> PlanOf(site, files, id, row) == Keep(LegacyPath(row), base))
  {
    var name := Base(TrimSlash(LegacyPath(row)));
    FoundAtLegacy(site, files, LegacyPath(row));
    ComponentsOfJoin(site.legacy, name);
    CleanKeepsComponents(site.legacy + "/" + name);
  }

  /**
   So when the legacy root's name is at least as long, the roots alone decide for every row whose path
   does not climb: nothing is copied if one name begins with the other, all is copied if not.
   */
  lemma RootsDecide(site: Site, path: string)
    requires site.legacy != "" && AllNormal(Components(site.legacy)) && Components(site.legacy) != []
    requires Steps(TrimSlash(path)) != [] && Ups(Steps(TrimSlash(path))) == 0
    requires |Clean(site.root)| <= |Clean(site.legacy)|
    ensures Clean(site.root) <= Join([site.legacy, TrimSlash(path)]) <==> Clean(site.root) <= Clean(site.legacy)
  {
    JoinSpellsOut(site.legacy, TrimSlash(path));
    var whole, legacy := Join([site.legacy, TrimSlash(path)]), Clean(site.legacy);
    assert whole[..|legacy|] == legacy;
    assert whole[..|Clean(site.root)|] == legacy[..|Clean(site.root)|];
  }

  predicate DoesNotClimb(path: string) {
    Steps(TrimSlash(path)) != [] && Ups(Steps(TrimSlash(path))) == 0
  }

  lemma SiblingRoots(r: string, l: string, path: string)
    requires Normal(r) && Normal(l) && |r| <= |l| && DoesNotClimb(path)
    ensures Clean("/" + r) <= Join(["/" + l, TrimSlash(path)]) <==> r <= l
  {
    RootedName(r);
    RootedName(l);
    RootsDecide(Site("/" + r, "/" + l, (s: string) => s, (s: string) => YearMonth("", "")), path);
    assert ("/" + l)[..1 + |r|] == "/" + l[..|r|];
    assert ("/" + r)[1..] == r && ("/" + l[..|r|])[1..] == l[..|r|];
  }

  lemma DottedSiblingRoots(dir: string, r: string, l: string, path: string)
    requires Normal(dir) && Normal(r) && Normal(l) && |r| <= |l| && DoesNotClimb(path)
    ensures Clean("./" + dir + "/" + r) <= Join(["./" + dir + "/" + l, TrimSlash(path)]) <==> r <= l
  {
    DotName(dir, r);
    DotName(dir, l);
    var root, legacy := "./" + dir + "/" + r, "./" + dir + "/" + l;
    RootsDecide(Site(root, legacy, (s: string) => s, (s: string) => YearMonth("", "")), path);
    var a, b := dir + "/" + r, dir + "/" + l;
    var n := |dir| + 1;
    assert a[n..] == r && b[n..] == l && b[..n + |r|] == dir + "/" + l[..|r|];
    assert (dir + "/" + l[..|r|])[n..] == l[..|r|];
  }

  /** Below another directory beside the storage root, no place of a path that does not climb is below that root. */
  lemma SiblingIsOutside(r: string, l: string, path: string)
    requires Normal(r) && Normal(l) && r != l && DoesNotClimb(path)
    ensures !Inside("/" + r, Join(["/" + l, TrimSlash(path)]))
  {
    var rel := TrimSlash(path);
    var s := Steps(rel);
    RootedName(r);
    RootedName(l);
    ComponentsOfJoin("/" + l, rel);
    StepsAreCanonical(rel);
    UpsSplit(s);
    assert s[0..] == s;
    PushNormals(true, [l], s);
    CleanKeepsComponents("/" + l + "/" + rel);
    assert ([l] + s)[0] == l;
  }

  /** With /data and /data_old no file of the legacy root is copied, although none is below /data. */
  lemma DataOldIsNotCopied(path: string)
    requires DoesNotClimb(path)
    ensures Clean("/data") <= Join(["/data_old", TrimSlash(path)]) && !Inside("/data", Join(["/data_old", TrimSlash(path)]))
  {
    var r, l := "data", "data_old";
    assert l[..4] == r;
    SiblingRoots(r, l, path);
    SiblingIsOutside(r, l, path);
    assert "/" + r == "/data" && "/" + l == "/data_old";
  }

  /** With the default roots every one is. */
  lemma DefaultRootsAreCopied(path: string)
    requires DoesNotClimb(path)
    ensures !(Clean("./data/storage") <= Join(["./data/legacy_uploads", TrimSlash(path)]))
  {
    var d, x, y := "data", "storage", "legacy_uploads";
    assert x[0] == 's' && y[0] == 'l';
    DottedSiblingRoots(d, x, y, path);
    DefaultNames(d, x, y);
  }

  lemma DefaultNames(d: string, x: string, y: string)
    requires d == "data" && x == "storage" && y == "legacy_uploads"
    ensures "./" + d + "/" + x == "./data/storage" && "./" + d + "/" + y == "./data/legacy_uploads"
  {
  }

  lemma RootedName(name: string)
    requires Normal(name)
    ensures Components("/" + name) == [name] && Clean("/" + name) == "/" + name
  {
    CleanOfRooted(name);
  }

  lemma DotName(dir: string, name: string)
    requires Normal(dir) && Normal(name)
    ensures Components("./" + dir + "/" + name) == [dir, name] && Clean("./" + dir + "/" + name) == dir + "/" + name
  {
    var path := "./" + dir + "/" + name;
    SplitDotted(dir, name);
    PushNormals(false, [], [dir, name]);
    assert [".", dir, name][1..] == [dir, name] && [] + [dir, name] == [dir, name];
    assert !Rooted(path) && Components(path) == [dir, name];
    assert [dir, name][1..] == [name] && JoinWith([dir, name]) == dir + "/" + name;
    CleanKeepsComponents(path);
  }

  lemma SplitDotted(dir: string, name: string)
    requires Normal(dir) && Normal(name)
    ensures Split("./" + dir + "/" + name) == [".", dir, name]
  {
    assert "./" + dir + "/" + name == ("." + "/" + dir) + "/" + name;
    SplitAppend("." + "/" + dir, name);
    SplitAppend(".", dir);
    SplitOne(".");
  }

  // ---------- A failed open ----------

  /**
   Two files below the legacy root, at the row's own place and at its base name; nothing before them,
   neither one the destination nor taken for a file under the storage root.
   */
  ghost predicate TwoLegacyFiles(site: Site, files: Files, id: int, row: Row, whole: string, base: string) {
    var path, rel := LegacyPath(row), TrimSlash(LegacyPath(row));
    && site.legacy != "" && whole == Join([site.legacy, rel]) && base == Join([site.legacy, Base(rel)])
    && Join([site.root, rel]) !in files && Clean(path) !in files
    && whole in files && base in files && whole != base && site.mtime(whole) == site.mtime(base)
    && Destination(site.root, DestRel(site, id, row, whole)) !in {whole, base}
    && !(Clean(site.root) <= Clean(whole)) && !(Clean(site.root) <= Clean(base))
  }

  /**
   Found in the code: one failed open of a row's file makes the lookup go on to the file of the same
   base name, and that one is copied to the very same destination, under the very same path.
   */
  lemma FailedOpenCopiesAnother(site: Site, files: Files, id: int, row: Row, whole: string, base: string)
    requires !AlreadyMigrated(row) && TwoLegacyFiles(site, files, id, row, whole, base)
    ensures PlanOf(site, files, id, row).Copy? && PlanOf(site, files, id, row).src == whole
    ensures PlanOf(site, files - {whole}, id, row) == PlanOf(site, files, id, row).(src := base)
  {
    LegacyFound(site, files, id, row, whole, base);
    SamePlanForBoth(site, id, row, whole, base);
  }

  lemma LegacyFound(site: Site, files: Files, id: int, row: Row, whole: string, base: string)
    requires TwoLegacyFiles(site, files, id, row, whole, base)
    ensures
      var places := Candidates(site, LegacyPath(row));
      && FirstFound(files, places) == Some(Spot(whole, whole))
      && FirstFound(files - {whole}, places) == Some(Spot(base, base))
  {
    FoundAtLegacy(site, files, LegacyPath(row));
    FoundAtLegacy(site, files - {whole}, LegacyPath(row));
  }

  lemma SamePlanForBoth(site: Site, id: int, row: Row, whole: string, base: string)
    requires site.mtime(whole) == site.mtime(base)
    requires Destination(site.root, DestRel(site, id, row, whole)) !in {whole, base}
    requires !(Clean(site.root) <= Clean(whole)) && !(Clean(site.root) <= Clean(base))
    ensures
      var plan := PlanFor(site, id, row, Some(Spot(whole, whole)));
      plan.Copy? && plan.src == whole && PlanFor(site, id, row, Some(Spot(base, base))) == plan.(src := base)
  {
    assert DestRel(site, id, row, whole) == DestRel(site, id, row, base);
  }

  /** For instance /legacy/d/a and /legacy/a, under any two roots and for any two names. */
  lemma TwoFilesOneRow(site: Site, files: Files, id: int, row: Row, r: string, l: string, d: string, f: string)
    requires Normal(r) && Normal(l) && Normal(d) && Normal(f) && !(r <= l)
    requires site.root == "/" + r && site.legacy == "/" + l && row.path == d + "/" + f && row.flag != "M"
    requires files.Keys == {"/" + l + "/" + d + "/" + f, "/" + l + "/" + f}
    requires site.mtime("/" + l + "/" + d + "/" + f) == site.mtime("/" + l + "/" + f)
    requires f != PrefixedFilename(id, 0, row.fileName)
    ensures
      var whole, base := "/" + l + "/" + d + "/" + f, "/" + l + "/" + f;
      var plan := PlanOf(site, files, id, row);
      && plan.Copy? && plan.src == whole
      && PlanOf(site, files - {whole}, id, row) == plan.(src := base)
  {
    TwoFilesFit(site, files, id, row, r, l, d, f);
    FailedOpenCopiesAnother(site, files, id, row, "/" + l + "/" + d + "/" + f, "/" + l + "/" + f);
  }

  lemma TwoFilesFit(site: Site, files: Files, id: int, row: Row, r: string, l: string, d: string, f: string)
    requires Normal(r) && Normal(l) && Normal(d) && Normal(f) && !(r <= l)
    requires site.root == "/" + r && site.legacy == "/" + l && row.path == d + "/" + f
    requires files.Keys == {"/" + l + "/" + d + "/" + f, "/" + l + "/" + f}
    requires site.mtime("/" + l + "/" + d + "/" + f) == site.mtime("/" + l + "/" + f)
    requires f != PrefixedFilename(id, 0, row.fileName)
    ensures TwoLegacyFiles(site, files, id, row, "/" + l + "/" + d + "/" + f, "/" + l + "/" + f)
  {
    var whole, base := "/" + l + "/" + d + "/" + f, "/" + l + "/" + f;
    LookupPlaces(r, l, d, f);
    NamesDiffer(r, l, d, f);
    DestIsForeign(site, id, row, whole, l, d, f);
    RegroupThree(l, d, f);
    RootIsForeign(site, r, l, d + "/" + f, whole);
    RootIsForeign(site, r, l, f, base);
  }

  lemma RegroupThree(l: string, d: string, f: string)
    ensures "/" + l + "/" + (d + "/" + f) == "/" + l + "/" + d + "/" + f
  {
  }

  lemma DestIsForeign(site: Site, id: int, row: Row, source: string, l: string, d: string, f: string)
    requires '/' !in f && f != PrefixedFilename(id, 0, row.fileName)
    ensures Destination(site.root, DestRel(site, id, row, source)) !in {"/" + l + "/" + d + "/" + f, "/" + l + "/" + f}
  {
    ForeignName(site, id, row, source, f);
    LastSegmentAppend("/" + l + "/" + d, f);
    LastSegmentAppend("/" + l, f);
  }

  lemma RootIsForeign(site: Site, r: string, l: string, rest: string, place: string)
    requires Normal(r) && '/' !in l && !(r <= l) && site.root == "/" + r
    requires place == "/" + l + "/" + rest && Clean(place) == place
    ensures !(Clean(site.root) <= Clean(place))
  {
    SiblingPrefix(r, l, rest);
    RootedName(r);
  }

  lemma NamesDiffer(r: string, l: string, d: string, f: string)
    requires Normal(r) && Normal(l) && Normal(d) && Normal(f) && r != l
    ensures
      var whole, base := "/" + l + "/" + d + "/" + f, "/" + l + "/" + f;
      && whole != base && "/" + r + "/" + (d + "/" + f) !in {whole, base} && d + "/" + f !in {whole, base}
  {
    var whole, base := "/" + l + "/" + d + "/" + f, "/" + l + "/" + f;
    var root := "/" + r + "/" + (d + "/" + f);
    assert |whole| > |base|;
    assert d[0] in d && (d + "/" + f)[0] == d[0] && whole[0] == '/' && base[0] == '/';
    FirstName(r, d + "/" + f);
    FirstName(l, d + "/" + f);
    FirstName(l, f);
    assert "/" + l + "/" + (d + "/" + f) == whole;
  }

  /** The first component of an absolute path can be read off. */
  lemma FirstName(x: string, rest: string)
    requires '/' !in x
    ensures Before(("/" + x + "/" + rest)[1..], '/') == x
  {
    assert ("/" + x + "/" + rest)[1..] == x + "/" + rest;
    BeforeSlash(x, rest);
  }

  lemma {:induction false} BeforeSlash(x: string, rest: string)
    requires '/' !in x
    ensures Before(x + "/" + rest, '/') == x
  {
    var s := x + "/" + rest;
    if x != [] {
      assert x[0] in x && s[0] == x[0];
      BeforeSlash(x[1..], rest);
      assert s[1..] == x[1..] + "/" + rest;
    }
  }

  lemma SiblingPrefix(r: string, l: string, rest: string)
    requires '/' !in r && '/' !in l && r != l
    ensures "/" + r <= "/" + l + "/" + rest <==> r <= l
  {
    var a, b := "/" + r, "/" + l + "/" + rest;
    assert b[1..1 + |l|] == l && a[1..] == r;
    if |r| > |l| {
      assert r[|l|] in r && r[|l|] != '/';
      assert a[1 + |l|] == r[|l|] && b[1 + |l|] == '/';
    } else {
      assert b[..1 + |r|] == "/" + l[..|r|];
      assert b[..1 + |r|][1..] == l[..|r|];
    }
  }

  lemma LookupPlaces(r: string, l: string, d: string, f: string)
    requires Normal(r) && Normal(l) && Normal(d) && Normal(f)
    ensures
      var path, whole, base := d + "/" + f, "/" + l + "/" + d + "/" + f, "/" + l + "/" + f;
      && TrimSlash(path) == path && Base(path) == f && Clean(path) == path
      && Join(["/" + r, path]) == "/" + r + "/" + path
      && Join(["/" + l, path]) == whole && Join(["/" + l, f]) == base
      && Clean(whole) == whole && Clean(base) == base
  {
    var path := d + "/" + f;
    TwoNames(d, f);
    StepsOfTwo(d, f);
    NamesJoin(r, path, [d, f]);
    NamesJoin(l, path, [d, f]);
    assert "/" + l + "/" + path == "/" + l + "/" + d + "/" + f;
    CleanOfTwo(l, f);
    JoinOfTwo(l, f);
  }

  lemma StepsOfTwo(d: string, f: string)
    requires Normal(d) && Normal(f)
    ensures Steps(d + "/" + f) == [d, f] && JoinWith([d, f]) == d + "/" + f && Ups([d, f]) == 0
  {
    SplitAppend(d, f);
    SplitOne(d);
    assert [d] + [f] == [d, f] && [d, f][1..] == [f];
    PushNormals(false, [], [d, f]);
    assert [] + [d, f] == [d, f];
  }

  lemma NamesJoin(l: string, path: string, names: seq<string>)
    requires Normal(l) && Steps(path) == names && names != [] && Ups(names) == 0 && JoinWith(names) == path
    ensures Join(["/" + l, path]) == "/" + l + "/" + path
    ensures Clean("/" + l + "/" + path) == "/" + l + "/" + path
  {
    RootedName(l);
    JoinSpellsOut("/" + l, path);
    ComponentsOfJoin("/" + l, path);
    CleanKeepsComponents("/" + l + "/" + path);
  }

  /** The destination ends in the numbered name. */
  lemma ForeignName(site: Site, id: int, row: Row, source: string, f: string)
    requires f != PrefixedFilename(id, 0, row.fileName)
    ensures LastSegment(Destination(site.root, DestRel(site, id, row, source))) != f
  {
    var name := PrefixedFilename(id, 0, row.fileName);
    DestRelEnds(site, id, row, source);
    PrefixedFilenameIsNormal(id, 0, row.fileName);
    DestinationKeepsLast(site.root, DestRel(site, id, row, source), name);
  }

  lemma DestRelEnds(site: Site, id: int, row: Row, source: string)
    ensures EndsIn(DestRel(site, id, row, source), PrefixedFilename(id, 0, row.fileName))
  {
    ShardedPathRevealsId(site.norm, row.module_, row.module_, row.directory, id, row.fileName, site.mtime(source), 0);
  }
}
