/**
 Paths as places in a tree: what cleaning and joining do to components, and when a joined path stays
 below the directory it was joined to.
 */
module PathTree {
  import opened Paths

  /** What cleaning keeps. */
  function Components(path: string): seq<string> {
    PushAll(Rooted(path), [], Split(path))
  }

  /** The components of a path joined below another one: a leading slash does not count there. */
  function Steps(rel: string): seq<string> {
    PushAll(false, [], Split(rel))
  }

  /** Some ".."s, then proper names. */
  predicate Canonical(s: seq<string>) {
    forall i | 0 <= i < |s| :: Normal(s[i]) || (s[i] == ".." && forall j | 0 <= j < i :: s[j] == "..")
  }

  predicate AllNormal(s: seq<string>) {
    forall i | 0 <= i < |s| :: Normal(s[i])
  }

  lemma SplitCons(c: char, s: string)
    ensures Split([c] + s) == if c == '/' then [""] + Split(s) else [[c] + Split(s)[0]] + Split(s)[1..]
  {
    assert ([c] + s)[1..] == s;
  }

  lemma {:induction false} SplitConcat(a: string, b: string)
    ensures Split(a + "/" + b) == Split(a) + Split(b)
  {
    if a == [] {
      SplitCons('/', b);
      assert a + "/" + b == ['/'] + b;
    } else {
      var tail := a[1..] + "/" + b;
      SplitConcat(a[1..], b);
      assert a == [a[0]] + a[1..] && a + "/" + b == [a[0]] + tail;
      SplitCons(a[0], a[1..]);
      SplitCons(a[0], tail);
      PrefixFirst(a[0], Split(a[1..]), Split(b));
    }
  }

  lemma PrefixFirst(c: char, a: seq<string>, b: seq<string>)
    requires a != []
    ensures [[c] + (a + b)[0]] + (a + b)[1..] == [[c] + a[0]] + a[1..] + b
    ensures [""] + (a + b) == [""] + a + b
  {
  }

  lemma {:induction false} PushAllConcat(rooted: bool, kept: seq<string>, a: seq<string>, b: seq<string>)
    ensures PushAll(rooted, kept, a + b) == PushAll(rooted, PushAll(rooted, kept, a), b)
    decreases |a|
  {
    if a == [] {
      assert a + b == b;
    } else {
      PushAllConcat(rooted, Push(rooted, kept, a[0]), a[1..], b);
      assert (a + b)[1..] == a[1..] + b;
    }
  }

  lemma PushAllSnoc(rooted: bool, kept: seq<string>, a: seq<string>, part: string)
    ensures PushAll(rooted, kept, a + [part]) == Push(rooted, PushAll(rooted, kept, a), part)
  {
    PushAllConcat(rooted, kept, a, [part]);
    var mid := PushAll(rooted, kept, a);
    assert [part][1..] == [];
    assert PushAll(rooted, mid, [part]) == PushAll(rooted, Push(rooted, mid, part), []);
  }

  lemma PushKeepsCanonical(rooted: bool, kept: seq<string>, part: string)
    requires Canonical(kept) && (rooted ==> AllNormal(kept)) && '/' !in part
    ensures Canonical(Push(rooted, kept, part)) && (rooted ==> AllNormal(Push(rooted, kept, part)))
  {
  }

  lemma {:induction false} PushAllIsCanonical(rooted: bool, kept: seq<string>, parts: seq<string>)
    requires Canonical(kept) && (rooted ==> AllNormal(kept))
    requires forall i | 0 <= i < |parts| :: '/' !in parts[i]
    ensures Canonical(PushAll(rooted, kept, parts)) && (rooted ==> AllNormal(PushAll(rooted, kept, parts)))
    decreases |parts|
  {
    if parts != [] {
      PushKeepsCanonical(rooted, kept, parts[0]);
      PushAllIsCanonical(rooted, Push(rooted, kept, parts[0]), parts[1..]);
    }
  }

  lemma {:induction false} PushNormals(rooted: bool, kept: seq<string>, names: seq<string>)
    requires AllNormal(names)
    ensures PushAll(rooted, kept, names) == kept + names
    decreases |names|
  {
    if names != [] {
      PushNormals(rooted, kept + [names[0]], names[1..]);
      assert kept + [names[0]] + names[1..] == kept + names;
    } else {
      assert kept + names == kept;
    }
  }

  /** Taking a path's steps one by one is taking those that are left when it is cleaned. */
  lemma {:induction false} StepsSuffice(rooted: bool, kept: seq<string>, parts: seq<string>)
    requires forall i | 0 <= i < |parts| :: '/' !in parts[i]
    ensures PushAll(rooted, kept, parts) == PushAll(rooted, kept, PushAll(false, [], parts))
    decreases |parts|
  {
    if parts != [] {
      var front, x := parts[..|parts| - 1], parts[|parts| - 1];
      assert parts == front + [x];
      var f := PushAll(false, [], front);
      StepsSuffice(rooted, kept, front);
      PushAllSnoc(rooted, kept, front, x);
      PushAllSnoc(false, [], front, x);
      PushAllIsCanonical(false, [], front);
      if x == ".." && f != [] && f[|f| - 1] != ".." {
        var g, n := f[..|f| - 1], f[|f| - 1];
        assert f == g + [n] && Normal(n);
        PushAllSnoc(rooted, kept, g, n);
        var q := PushAll(rooted, kept, g);
        assert (q + [n])[..|q|] == q;
      } else if x != "" && x != "." {
        PushAllSnoc(rooted, kept, f, x);
      }
    }
  }

  lemma ComponentsAreCanonical(path: string)
    ensures Canonical(Components(path)) && (Rooted(path) ==> AllNormal(Components(path)))
  {
    PushAllIsCanonical(Rooted(path), [], Split(path));
  }

  lemma StepsAreCanonical(rel: string)
    ensures Canonical(Steps(rel))
  {
    PushAllIsCanonical(false, [], Split(rel));
  }

  /** Joining takes the steps of the second path from the place of the first. */
  lemma ComponentsOfJoin(root: string, rel: string)
    requires root != ""
    ensures Rooted(root + "/" + rel) == Rooted(root)
    ensures Components(root + "/" + rel) == PushAll(Rooted(root), Components(root), Steps(rel))
    ensures Join([root, rel]) == Clean(root + "/" + rel)
  {
    SplitConcat(root, rel);
    PushAllConcat(Rooted(root), [], Split(root), Split(rel));
    StepsSuffice(Rooted(root), Components(root), Split(rel));
    assert [root, rel][1..] == [rel] && JoinWith([rel]) == rel;
  }

  /** A leading slash of the second path makes no difference. */
  lemma TrimmedJoin(root: string, rel: string)
    requires root != ""
    ensures Join([root, TrimSlash(rel)]) == Join([root, rel])
  {
    ComponentsOfJoin(root, rel);
    ComponentsOfJoin(root, TrimSlash(rel));
    if rel != "" && rel[0] == '/' {
      assert Split(rel) == [""] + Split(rel[1..]);
      assert Split(rel)[1..] == Split(rel[1..]);
      assert Steps(rel) == Steps(TrimSlash(rel));
    }
  }

  // ---------- Cleaning twice ----------

  lemma {:induction false} PushCanonical(rooted: bool, s: seq<string>)
    requires Canonical(s) && (rooted ==> AllNormal(s))
    ensures PushAll(rooted, [], s) == s
    decreases |s|
  {
    if s != [] {
      var front, x := s[..|s| - 1], s[|s| - 1];
      assert s == front + [x];
      PushCanonical(rooted, front);
      PushAllSnoc(rooted, [], front, x);
    }
  }

  function Spell(rooted: bool, s: seq<string>): string {
    if rooted then "/" + JoinWith(s) else if JoinWith(s) == "" then "." else JoinWith(s)
  }

  lemma JoinWithNonEmpty(s: seq<string>)
    requires s != [] && Canonical(s)
    ensures JoinWith(s) != "" && JoinWith(s)[0] != '/'
  {
    assert s[0] != "" && s[0][0] in s[0];
  }

  /** A path spelled from clean components has those components. */
  lemma ComponentsOfSpelled(rooted: bool, s: seq<string>)
    requires Canonical(s) && (rooted ==> AllNormal(s))
    ensures Rooted(Spell(rooted, s)) == rooted && Components(Spell(rooted, s)) == s
  {
    if s == [] {
      SplitOne(".");
      SplitAppend("", "");
      assert "" + "/" + "" == "/" && Split("") == [""];
      assert PushAll(false, [], ["."]) == [] && PushAll(true, [], ["", ""]) == [];
    } else {
      JoinWithNonEmpty(s);
      forall n | n in s
        ensures '/' !in n
      {
      }
      SplitJoinWith(s);
      PushCanonical(rooted, s);
      if rooted {
        assert ("/" + JoinWith(s))[1..] == JoinWith(s);
        assert Split("/" + JoinWith(s)) == [""] + s;
        assert ([""] + s)[1..] == s;
      }
    }
  }

  lemma CleanKeepsComponents(path: string)
    ensures Clean(path) == Spell(Rooted(path), Components(path))
    ensures Rooted(Clean(path)) == Rooted(path) && Components(Clean(path)) == Components(path)
    ensures Clean(Clean(path)) == Clean(path)
  {
    ComponentsAreCanonical(path);
    ComponentsOfSpelled(Rooted(path), Components(path));
  }

  // ---------- Staying below a directory ----------

  /** path is a place strictly below root. */
  predicate Inside(root: string, path: string) {
    var k, c := Components(root), Components(path);
    Rooted(path) == Rooted(root) && |k| < |c| && k <= c && ".." !in c[|k|..]
  }

  /** The number of leading ".."s. */
  function Ups(s: seq<string>): (u: nat)
    ensures u <= |s|
  {
    if s == [] || s[0] != ".." then 0 else 1 + Ups(s[1..])
  }

  lemma {:induction false} UpsSplit(s: seq<string>)
    requires Canonical(s)
    ensures forall i | 0 <= i < Ups(s) :: s[i] == ".."
    ensures AllNormal(s[Ups(s)..])
  {
    if s != [] && s[0] == ".." {
      assert Canonical(s[1..]) by {
        assert forall i | 0 <= i < |s[1..]| :: s[1..][i] == s[i + 1];
      }
      UpsSplit(s[1..]);
      assert s[1..][Ups(s[1..])..] == s[Ups(s)..];
    }
  }

  /** Where some ".."s lead: up, no further than the top of an absolute path, above a relative one. */
  function Climbed(rooted: bool, k: seq<string>, u: nat): seq<string> {
    if u <= |k| then k[..|k| - u] else if rooted then [] else seq(u - |k|, i => "..")
  }

  lemma {:induction false} ClimbIs(rooted: bool, k: seq<string>, ups: seq<string>)
    requires AllNormal(k) && forall i | 0 <= i < |ups| :: ups[i] == ".."
    ensures PushAll(rooted, k, ups) == Climbed(rooted, k, |ups|)
    decreases |ups|
  {
    if ups == [] {
      assert k[..|k|] == k;
    } else {
      var front := ups[..|ups| - 1];
      assert ups == front + [".."];
      ClimbIs(rooted, k, front);
      PushAllSnoc(rooted, k, front, "..");
      var at := Climbed(rooted, k, |front|);
      if |front| < |k| {
        assert at[|at| - 1] == k[|at| - 1] && Normal(k[|at| - 1]);
        assert at[..|at| - 1] == k[..|k| - |ups|];
      } else if |front| == |k| {
        assert at == [];
        assert [] + [".."] == seq(1, i => "..");
      } else if !rooted {
        assert at + [".."] == seq(|ups| - |k|, i => "..");
      }
    }
  }

  /** What follows the ".."s names again what they dropped, and something below it. */
  predicate ComesBack(rooted: bool, k: seq<string>, u: nat, names: seq<string>) {
    var b := if u <= |k| then u else |k|;
    b < |names| && names[..b] == k[|k| - b..] && (rooted || u <= |k|)
  }

  lemma ClimbedComesBackIff(rooted: bool, k: seq<string>, u: nat, names: seq<string>)
    requires AllNormal(k) && AllNormal(names)
    ensures
      var c := Climbed(rooted, k, u) + names;
      (|k| < |c| && k <= c && ".." !in c[|k|..]) <==> ComesBack(rooted, k, u, names)
  {
    var at := Climbed(rooted, k, u);
    var c := at + names;
    if u <= |k| {
      assert c == k[..|k| - u] + names;
      if |k| < |c| && k <= c {
        assert names[..u] == c[|k| - u..|k|] == k[|k| - u..];
      }
      if ComesBack(rooted, k, u, names) {
        assert c[..|k|] == k[..|k| - u] + names[..u] == k;
        assert c[|k|..] == names[u..];
      }
    } else if rooted {
      assert c == names && k[|k| - |k|..] == k;
    } else {
      assert c[0] == "..";
      assert k != [] ==> Normal(k[0]);
      assert k == [] ==> c[|k|..] == c;
    }
  }

  /**
   A path joined to a directory (one without ".."s of its own) stays below it exactly when its clean
   form has no leading "..", or goes down again by the very components its ".."s dropped.
   */
  lemma JoinStaysInsideIff(root: string, rel: string)
    requires root != "" && AllNormal(Components(root)) && Steps(rel) != []
    ensures
      var s := Steps(rel);
      Inside(root, Join([root, rel])) <==> ComesBack(Rooted(root), Components(root), Ups(s), s[Ups(s)..])
    ensures Ups(Steps(rel)) == 0 ==> Inside(root, Join([root, rel]))
  {
    var s, k := Steps(rel), Components(root);
    var u := Ups(s);
    StepsAreCanonical(rel);
    UpsSplit(s);
    ComponentsOfJoin(root, rel);
    assert s == s[..u] + s[u..];
    PushAllConcat(Rooted(root), k, s[..u], s[u..]);
    ClimbIs(Rooted(root), k, s[..u]);
    PushNormals(Rooted(root), Climbed(Rooted(root), k, u), s[u..]);
    CleanKeepsComponents(root + "/" + rel);
    ClimbedComesBackIff(Rooted(root), k, u, s[u..]);
  }

  /** Below a directory, a path that does not climb is the directory's own spelling and its steps. */
  lemma JoinSpellsOut(root: string, rel: string)
    requires root != "" && AllNormal(Components(root)) && Components(root) != []
    requires Steps(rel) != [] && Ups(Steps(rel)) == 0
    ensures Join([root, rel]) == Clean(root) + "/" + JoinWith(Steps(rel))
  {
    var k, s := Components(root), Steps(rel);
    StepsAreCanonical(rel);
    UpsSplit(s);
    assert s[0..] == s;
    ComponentsOfJoin(root, rel);
    PushNormals(Rooted(root), k, s);
    CleanKeepsComponents(root);
    CleanKeepsComponents(root + "/" + rel);
    SpellConcat(Rooted(root), k, s);
  }

  lemma SpellConcat(rooted: bool, k: seq<string>, s: seq<string>)
    requires AllNormal(k) && AllNormal(s) && k != [] && s != []
    ensures Spell(rooted, k + s) == Spell(rooted, k) + "/" + JoinWith(s)
  {
    JoinWithConcat(k, s);
    JoinWithNonEmpty(k);
    var a, b := JoinWith(k), JoinWith(s);
    assert JoinWith(k + s) == a + "/" + b && a != "";
    assert "/" + (a + "/" + b) == "/" + a + "/" + b;
  }

  lemma {:induction false} JoinWithConcat(a: seq<string>, b: seq<string>)
    requires a != [] && b != []
    ensures JoinWith(a + b) == JoinWith(a) + "/" + JoinWith(b)
    decreases |a|
  {
    assert (a + b)[1..] == a[1..] + b;
    if |a| > 1 {
      JoinWithConcat(a[1..], b);
    } else {
      assert a[1..] + b == b;
    }
  }

  // ---------- By spelling ----------

  /** The clean spelling of the path goes on from that of the root at a slash. */
  predicate SpelledBelow(root: string, path: string) {
    if Components(root) == [] then Rooted(path) == Rooted(root) && Components(path) != [] && Ups(Components(path)) == 0
    else Clean(root) + "/" <= Clean(path)
  }

  /** Below a directory without ".."s of its own are exactly the paths spelled so. */
  lemma InsideIffSpelledBelow(root: string, path: string)
    requires AllNormal(Components(root))
    ensures Inside(root, path) <==> SpelledBelow(root, path)
  {
    var k, c := Components(root), Components(path);
    ComponentsAreCanonical(path);
    UpsSplit(c);
    CleanKeepsComponents(root);
    CleanKeepsComponents(path);
    if k == [] {
      assert c[0..] == c;
    } else {
      if Inside(root, path) {
        SpelledOut(root, path);
      }
      if Clean(root) + "/" <= Clean(path) {
        ComponentsOfLonger(root, path);
      }
    }
  }

  lemma SpelledOut(root: string, path: string)
    requires AllNormal(Components(root)) && Components(root) != [] && Inside(root, path)
    ensures Clean(root) + "/" <= Clean(path)
  {
    var k, c := Components(root), Components(path);
    ComponentsAreCanonical(path);
    CleanKeepsComponents(root);
    CleanKeepsComponents(path);
    var below := c[|k|..];
    assert c == k + below && forall i | 0 <= i < |below| :: below[i] == c[|k| + i] && below[i] in below;
    SpellConcat(Rooted(root), k, below);
  }

  lemma ComponentsOfLonger(root: string, path: string)
    requires AllNormal(Components(root)) && Components(root) != [] && Clean(root) + "/" <= Clean(path)
    ensures Inside(root, path)
  {
    var k, c := Components(root), Components(path);
    var rest := Clean(path)[|Clean(root)| + 1..];
    ComponentsAreCanonical(path);
    CleanKeepsComponents(root);
    CleanKeepsComponents(path);
    assert Clean(path) == Clean(root) + "/" + rest;
    LongerSpelling(Rooted(root), k, Rooted(path), c, rest);
    assert c[|k|..] == Split(rest);
  }

  lemma SpellHead(rooted: bool, s: seq<string>)
    requires s != [] && Canonical(s)
    ensures Spell(rooted, s) != "" && (Spell(rooted, s)[0] == '/' <==> rooted)
  {
    JoinWithNonEmpty(s);
  }

  lemma LongerSpelling(rooted: bool, k: seq<string>, rooted': bool, c: seq<string>, rest: string)
    requires AllNormal(k) && k != [] && Canonical(c) && Spell(rooted', c) == Spell(rooted, k) + "/" + rest
    ensures rooted' == rooted && c == k + Split(rest)
  {
    SpellHead(rooted, k);
    assert |Spell(rooted', c)| >= 2;
    assert c != [] by {
      assert JoinWith([]) == "";
    }
    SpellHead(rooted', c);
    assert Spell(rooted', c)[0] == Spell(rooted, k)[0];
    SplitOfSpelled(rooted, k);
    SplitOfSpelled(rooted, c);
    LongerSplit(rooted, k, c, Spell(rooted, k), rest);
  }

  function Marked(rooted: bool, s: seq<string>): seq<string> {
    if rooted then [""] + s else s
  }

  lemma MarkedMore(rooted: bool, k: seq<string>, c: seq<string>, below: seq<string>)
    requires Marked(rooted, c) == Marked(rooted, k) + below
    ensures c == k + below
  {
    if rooted {
      var all := [""] + c;
      assert all == [""] + k + below;
      assert |c| == |k + below|;
      forall i | 0 <= i < |c|
        ensures c[i] == (k + below)[i]
      {
        assert all[i + 1] == c[i];
      }
    }
  }

  lemma LongerSplit(rooted: bool, k: seq<string>, c: seq<string>, spelled: string, rest: string)
    requires Split(spelled) == Marked(rooted, k) && Split(spelled + "/" + rest) == Marked(rooted, c)
    ensures c == k + Split(rest)
  {
    SplitConcat(spelled, rest);
    MarkedMore(rooted, k, c, Split(rest));
  }

  lemma SplitOfSpelled(rooted: bool, s: seq<string>)
    requires s != [] && Canonical(s)
    ensures Split(Spell(rooted, s)) == Marked(rooted, s)
  {
    JoinWithNonEmpty(s);
    forall n | n in s
      ensures '/' !in n
    {
    }
    SplitJoinWith(s);
    if rooted {
      assert ("/" + JoinWith(s))[1..] == JoinWith(s);
    }
  }

  // ---------- Where a migrated file is filed ----------

  /**
   The components of a migrated file's path: those of its bucket, then those of its directory if it is a
   scanned file that has one and of its module otherwise, then year, month and name. A bucket without a
   name, or named files, is uploads; a module without a name is general.
   */
  lemma ShardedPathComponents(norm: string -> string, bucket: string, module_: string, directory: string,
                              binID: int, filename: string, date: YearMonth, nano: nat)
    requires ValidDate(date)
    ensures
      var path := GenerateShardedPath(norm, bucket, module_, directory, binID, filename, date, nano);
      var top := if bucket in {"", "files"} then "uploads" else bucket;
      var m := norm(if module_ != "" then module_ else "general");
      var dir := if m != "legacy_scan" || directory == "" then m else directory;
      && Rooted(path) == Rooted(top)
      && Components(path) ==
           PushAll(Rooted(top), Components(top), Steps(dir)) + [date.year, date.month, PrefixedFilename(binID, nano, filename)]
  {
    var top := if bucket in {"", "files"} then "uploads" else bucket;
    var m := norm(if module_ != "" then module_ else "general");
    var dir := if m != "legacy_scan" || directory == "" then m else directory;
    PrefixedFilenameIsNormal(binID, nano, filename);
    DigitsAreNormal(date.year);
    DigitsAreNormal(date.month);
    FiledComponents(top, dir, date.year, date.month, PrefixedFilename(binID, nano, filename));
  }

  lemma FiledComponents(top: string, dir: string, year: string, month: string, name: string)
    requires top != "" && Normal(year) && Normal(month) && Normal(name)
    ensures
      var path := Join([top, dir, year, month, name]);
      Rooted(path) == Rooted(top) && Components(path) == PushAll(Rooted(top), Components(top), Steps(dir)) + [year, month, name]
  {
    var a := top + "/" + dir;
    var b := a + "/" + year;
    var c := b + "/" + month;
    var whole := c + "/" + name;
    ComponentsOfJoin(top, dir);
    OneMore(a, year);
    OneMore(b, month);
    OneMore(c, name);
    JoinWithFive(top, dir, year, month, name);
    CleanKeepsComponents(whole);
  }

  lemma OneMore(path: string, name: string)
    requires path != "" && Normal(name)
    ensures Rooted(path + "/" + name) == Rooted(path) && Components(path + "/" + name) == Components(path) + [name]
  {
    SplitAppend(path, name);
    PushAllAppend(Rooted(path), [], Split(path), name);
  }

  lemma JoinWithFive(a: string, b: string, c: string, d: string, e: string)
    ensures JoinWith([a, b, c, d, e]) == a + "/" + b + "/" + c + "/" + d + "/" + e
  {
    assert [a, b, c, d] + [e] == [a, b, c, d, e] && [a, b, c] + [d] == [a, b, c, d];
    assert [a, b] + [c] == [a, b, c] && [a] + [b] == [a, b];
    JoinWithAppend([a, b, c, d], e);
    JoinWithAppend([a, b, c], d);
    JoinWithAppend([a, b], c);
    JoinWithAppend([a], b);
  }

  /** For a bucket that is one proper name and a directory that does not climb: spelled out. */
  lemma FiledPathSpelled(top: string, dir: string, year: string, month: string, name: string)
    requires Normal(top) && Normal(year) && Normal(month) && Normal(name) && AllNormal(Steps(dir)) && Steps(dir) != []
    ensures Join([top, dir, year, month, name]) == top + "/" + JoinWith(Steps(dir)) + "/" + year + "/" + month + "/" + name
  {
    var s := Steps(dir);
    FiledComponents(top, dir, year, month, name);
    SplitOne(top);
    PushNormals(false, [], [top]);
    PushNormals(false, [top], s);
    assert [] + [top] == [top];
    JoinWithFive(top, dir, year, month, name);
    CleanKeepsComponents(JoinWith([top, dir, year, month, name]));
    SpelledFive(top, s, year, month, name);
  }

  lemma SpelledFive(top: string, s: seq<string>, year: string, month: string, name: string)
    requires s != []
    ensures JoinWith([top] + s + [year, month, name]) == top + "/" + JoinWith(s) + "/" + year + "/" + month + "/" + name
  {
    assert [top] + s + [year, month, name] == [top] + s + [year] + [month] + [name];
    JoinWithConcat([top], s);
    JoinWithAppend([top] + s, year);
    JoinWithAppend([top] + s + [year], month);
    JoinWithAppend([top] + s + [year] + [month], name);
  }
}
