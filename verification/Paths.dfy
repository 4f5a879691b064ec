/**
 Path arithmetic as the storage service does it on a Unix host: splitting, lexical cleaning,
 joining, and the names of migrated files. Paths are plain strings.
 */
module Paths {

  /** The components between slashes; a string without a slash is one component. */
  function Split(s: string): (parts: seq<string>)
    ensures |parts| >= 1
    ensures forall i | 0 <= i < |parts| :: '/' !in parts[i]
  {
    if s == [] then [""]
    else
      var rest := Split(s[1..]);
      if s[0] == '/' then [""] + rest else [[s[0]] + rest[0]] + rest[1..]
  }

  function JoinWith(parts: seq<string>): string {
    if parts == [] then ""
    else if |parts| == 1 then parts[0]
    else parts[0] + "/" + JoinWith(parts[1..])
  }

  /** One component read by the lexical cleaner: "" and "." vanish, ".." drops its parent. */
  function Push(rooted: bool, kept: seq<string>, part: string): seq<string> {
    if part == "" || part == "." then kept
    else if part == ".." then
      if kept != [] && kept[|kept| - 1] != ".." then kept[..|kept| - 1]
      else if rooted then kept
      else kept + [".."]
    else kept + [part]
  }

  function PushAll(rooted: bool, kept: seq<string>, parts: seq<string>): seq<string>
    decreases |parts|
  {
    if parts == [] then kept else PushAll(rooted, Push(rooted, kept, parts[0]), parts[1..])
  }

  predicate Rooted(path: string) {
    path != [] && path[0] == '/'
  }

  /** filepath.Clean. */
  function Clean(path: string): string {
    var rooted := Rooted(path);
    var body := JoinWith(PushAll(rooted, [], Split(path)));
    if rooted then "/" + body else if body == "" then "." else body
  }

  /** filepath.Join: everything from the first non-empty element on, joined and cleaned. */
  function Join(elems: seq<string>): string {
    if elems == [] then ""
    else if elems[0] == "" then Join(elems[1..])
    else Clean(JoinWith(elems))
  }

  /** Empty elements do not count. */
  lemma JoinSkipsEmpty(elems: seq<string>, name: string)
    ensures Join([""] + elems) == Join(elems) && Join([]) == ""
    ensures name != "" ==> Join([name]) == Clean(name)
  {
    assert ([""] + elems)[1..] == elems;
  }

  /** What follows the last slash. */
  function LastSegment(s: string): (r: string)
    ensures '/' !in r
  {
    if '/' !in s then s else LastSegment(s[1..])
  }

  /** filepath.Base. */
  function Base(path: string): string {
    if path == "" then "."
    else
      var trimmed := TrimRightSlashes(path);
      if trimmed == "" then "/" else LastSegment(trimmed)
  }

  function TrimRightSlashes(s: string): string {
    if s != [] && s[|s| - 1] == '/' then TrimRightSlashes(s[..|s| - 1]) else s
  }

  /** strings.TrimPrefix(s, "/"). */
  function TrimSlash(s: string): string {
    if s != [] && s[0] == '/' then s[1..] else s
  }

  // ---------- The last component survives cleaning ----------

  /** A component cleaning keeps: a proper file name. */
  predicate Normal(name: string) {
    name != "" && name != "." && name != ".." && '/' !in name
  }

  lemma {:induction false} SplitOne(name: string)
    requires '/' !in name
    ensures Split(name) == [name]
  {
    if name != [] {
      assert name[0] in name && name[0] != '/';
      SplitOne(name[1..]);
      assert [name[0]] + name[1..] == name;
    }
  }

  lemma {:induction false} SplitAppend(dir: string, name: string)
    requires '/' !in name
    ensures Split(dir + "/" + name) == Split(dir) + [name]
  {
    var s := dir + "/" + name;
    if dir == [] {
      SplitOne(name);
      assert s[1..] == name;
    } else {
      SplitAppend(dir[1..], name);
      assert s[1..] == dir[1..] + "/" + name;
    }
  }

  lemma {:induction false} PushAllAppend(rooted: bool, kept: seq<string>, parts: seq<string>, name: string)
    requires Normal(name)
    ensures PushAll(rooted, kept, parts + [name]) == PushAll(rooted, kept, parts) + [name]
    decreases |parts|
  {
    if parts == [] {
      assert parts + [name] == [name];
    } else {
      PushAllAppend(rooted, Push(rooted, kept, parts[0]), parts[1..], name);
      assert (parts + [name])[1..] == parts[1..] + [name];
    }
  }

  lemma {:induction false} LastSegmentAppend(dir: string, name: string)
    requires '/' !in name
    ensures LastSegment(dir + "/" + name) == name
  {
    var s := dir + "/" + name;
    assert s[|dir|] == '/';
    if dir == [] {
      assert s[1..] == name;
    } else {
      LastSegmentAppend(dir[1..], name);
      assert s[1..] == dir[1..] + "/" + name;
    }
  }

  lemma {:induction false} JoinWithAppend(parts: seq<string>, name: string)
    ensures JoinWith(parts + [name]) == if parts == [] then name else JoinWith(parts) + "/" + name
  {
    if parts == [] {
      assert parts + [name] == [name];
    } else {
      JoinWithAppend(parts[1..], name);
      assert (parts + [name])[1..] == parts[1..] + [name];
      if |parts| == 1 {
        assert parts[1..] == [];
      }
    }
  }

  lemma {:induction false} JoinWithSplit(s: string)
    ensures JoinWith(Split(s)) == s
  {
    if s != [] {
      JoinWithSplit(s[1..]);
      var rest := Split(s[1..]);
      if s[0] == '/' {
        assert ([""] + rest)[1..] == rest;
        assert JoinWith(Split(s)) == "" + "/" + s[1..];
      } else {
        var all := [[s[0]] + rest[0]] + rest[1..];
        assert all[1..] == rest[1..];
        assert JoinWith(all) == [s[0]] + JoinWith(rest);
      }
    }
  }

  lemma {:induction false} SplitJoinWith(names: seq<string>)
    requires names != [] && forall n | n in names :: '/' !in n
    ensures Split(JoinWith(names)) == names
    decreases |names|
  {
    if |names| == 1 {
      SplitOne(names[0]);
      assert names == [names[0]];
    } else {
      var front := names[..|names| - 1];
      var last := names[|names| - 1];
      SplitJoinWith(front);
      JoinWithAppend(front, last);
      assert names == front + [last];
      SplitAppend(JoinWith(front), last);
    }
  }

  /** path is name, or ends in "/" + name. */
  predicate EndsIn(path: string, name: string) {
    path == name || (|path| > |name| && path[|path| - |name|..] == name && path[|path| - |name| - 1] == '/')
  }

  /** Cleaning any path that ends in a proper file name keeps that name last, whatever comes before. */
  lemma CleanKeepsLast(path: string, name: string)
    requires Normal(name) && EndsIn(path, name)
    ensures EndsIn(Clean(path), name) && LastSegment(Clean(path)) == name
  {
    var rooted := Rooted(path);
    var dirs: seq<string>;
    if path == name {
      SplitOne(name);
      dirs := [];
      assert Split(path) == dirs + [name];
    } else {
      var dir := path[..|path| - |name| - 1];
      assert path == dir + "/" + name;
      SplitAppend(dir, name);
      dirs := Split(dir);
    }
    PushAllAppend(rooted, [], dirs, name);
    KeptLast(rooted, PushAll(rooted, [], dirs), name);
  }

  lemma KeptLast(rooted: bool, kept: seq<string>, name: string)
    requires Normal(name)
    ensures
      var body := JoinWith(kept + [name]);
      var path := if rooted then "/" + body else body;
      body != "" && EndsIn(path, name) && LastSegment(path) == name
  {
    JoinWithAppend(kept, name);
    if kept != [] {
      LastSegmentAppend(JoinWith(kept), name);
      if rooted {
        LastSegmentAppend("/" + JoinWith(kept), name);
        assert "/" + (JoinWith(kept) + "/" + name) == ("/" + JoinWith(kept)) + "/" + name;
      }
    } else if rooted {
      LastSegmentAppend("", name);
      assert "" + "/" + name == "/" + name;
    }
  }

  lemma {:induction false} JoinWithEndsIn(parts: seq<string>, name: string)
    ensures EndsIn(JoinWith(parts + [name]), name)
  {
    JoinWithAppend(parts, name);
  }

  lemma {:induction false} JoinKeepsLast(parts: seq<string>, name: string)
    requires Normal(name)
    ensures EndsIn(Join(parts + [name]), name) && LastSegment(Join(parts + [name])) == name
    decreases |parts|
  {
    var all := parts + [name];
    if parts == [] {
      assert all == [name];
      CleanKeepsLast(name, name);
    } else if parts[0] == "" {
      JoinKeepsLast(parts[1..], name);
      assert all[1..] == parts[1..] + [name];
    } else {
      JoinWithEndsIn(parts, name);
      CleanKeepsLast(JoinWith(all), name);
    }
  }

  // ---------- Decimal numbers ----------

  function Digit(d: nat): char
    requires d < 10
  {
    "0123456789"[d]
  }

  /** Decimal notation without leading zeros, as %d prints it. */
  function Decimal(n: nat): (s: string)
    ensures |s| >= 1 && (s[0] == '0' ==> s == "0")
    ensures forall i | 0 <= i < |s| :: s[i] in "0123456789"
  {
    if n < 10 then [Digit(n)] else Decimal(n / 10) + [Digit(n % 10)]
  }

  /** The number a string of digits denotes; any other character counts as a zero. */
  function Value(s: string): int
    ensures Value(s) >= 0
  {
    if s == [] then 0
    else
      var d := s[|s| - 1];
      var low := if '0' <= d <= '9' then d as int - '0' as int else 0;
      10 * Value(s[..|s| - 1]) + low
  }

  lemma ValueSnoc(s: string, d: nat)
    requires d < 10
    ensures Value(s + [Digit(d)]) == 10 * Value(s) + d
  {
    assert (s + [Digit(d)])[..|s|] == s;
  }

  lemma {:induction false} ValueOfDecimal(n: nat)
    ensures Value(Decimal(n)) == n
  {
    if n >= 10 {
      ValueOfDecimal(n / 10);
      ValueSnoc(Decimal(n / 10), n % 10);
    } else {
      assert Decimal(n)[..0] == [];
    }
  }

  // ---------- Names of migrated files ----------

  predicate SafeFilenameChar(c: char) {
    'a' <= c <= 'z' || 'A' <= c <= 'Z' || '0' <= c <= '9' || c == '.' || c == '_' || c == '-'
  }

  /** Every unsafe character becomes an underscore. */
  function SafeFilename(name: string): (s: string)
    ensures |s| == |name|
    ensures forall i | 0 <= i < |s| :: s[i] == if SafeFilenameChar(name[i]) then name[i] else '_'
  {
    if name == [] then []
    else [if SafeFilenameChar(name[0]) then name[0] else '_'] + SafeFilename(name[1..])
  }

  /** Letters, digits, dots, underscores and dashes stay. */
  lemma SafeFilenameIs(name: string, i: nat)
    requires i < |name|
    ensures SafeFilename(name)[i] ==
      if 'a' <= name[i] <= 'z' || 'A' <= name[i] <= 'Z' || '0' <= name[i] <= '9' || name[i] in "._-" then name[i] else '_'
  {
  }

  datatype YearMonth = YearMonth(year: string, month: string)

  /** Dates format to digits only. */
  predicate ValidDate(d: YearMonth) {
    d.year != "" && d.month != ""
    && (forall i | 0 <= i < |d.year| :: d.year[i] in "0123456789")
    && (forall i | 0 <= i < |d.month| :: d.month[i] in "0123456789")
  }

  /** "<binID>_<safe name>"; without a positive id the clock stands in for it. */
  function PrefixedFilename(binID: int, nano: nat, filename: string): string {
    var safe := SafeFilename(filename);
    var cleanName := if safe == "" then "file" else safe;
    Decimal(if binID > 0 then binID else nano) + "_" + cleanName
  }

  /** norm is lower-casing after trimming; the results below hold for any such function. */
  function GenerateShardedPath(norm: string -> string, bucket: string, module_: string, directory: string,
                               binID: int, filename: string, date: YearMonth, nano: nat): string
  {
    var b := if bucket == "" || bucket == "files" then "uploads" else bucket;
    var m := norm(if module_ == "" then "general" else module_);
    var name := PrefixedFilename(binID, nano, filename);
    if m == "legacy_scan" && directory != "" then Join([b, directory, date.year, date.month, name])
    else Join([b, m, date.year, date.month, name])
  }

  lemma PrefixedFilenameIsNormal(binID: int, nano: nat, filename: string)
    ensures Normal(PrefixedFilename(binID, nano, filename))
  {
    var digits := Decimal(if binID > 0 then binID else nano);
    var name := PrefixedFilename(binID, nano, filename);
    assert name[|digits|] == '_';
    assert "."[0] == '.' && ".."[0] == '.';
    assert name[0] == digits[0] && name[0] in "0123456789";
  }

  /** The characters before the first separator. */
  function Before(s: string, separator: char): string {
    if s == [] || s[0] == separator then [] else [s[0]] + Before(s[1..], separator)
  }

  lemma {:induction false} BeforeSeparator(digits: string, rest: string)
    requires forall i | 0 <= i < |digits| :: digits[i] in "0123456789"
    ensures Before(digits + "_" + rest, '_') == digits
  {
    var s := digits + "_" + rest;
    if digits == [] {
      assert s[0] == '_';
    } else {
      assert s[0] == digits[0] && digits[0] in "0123456789";
      BeforeSeparator(digits[1..], rest);
      assert s[1..] == digits[1..] + "_" + rest;
    }
  }

  /**
   The id can be read back from any migrated path, whatever directory it was filed under; without a
   positive id, the clock. What follows it is the file's own name, made safe, or "file".
   */
  lemma ShardedPathRevealsId(norm: string -> string, bucket: string, module_: string, directory: string,
                             binID: int, filename: string, date: YearMonth, nano: nat)
    ensures
      var path := GenerateShardedPath(norm, bucket, module_, directory, binID, filename, date, nano);
      var name := LastSegment(path);
      && EndsIn(path, name) && name == PrefixedFilename(binID, nano, filename)
      && Value(Before(name, '_')) == (if binID > 0 then binID else nano)
      && name == Before(name, '_') + "_" + if filename == "" then "file" else SafeFilename(filename)
  {
    var name := PrefixedFilename(binID, nano, filename);
    PrefixedFilenameIsNormal(binID, nano, filename);
    var b := if bucket == "" || bucket == "files" then "uploads" else bucket;
    var m := norm(if module_ == "" then "general" else module_);
    var dir := if m == "legacy_scan" && directory != "" then directory else m;
    JoinKeepsLast([b, dir, date.year, date.month], name);
    assert [b, dir, date.year, date.month] + [name] == [b, dir, date.year, date.month, name];
    var safe := SafeFilename(filename);
    BeforeSeparator(Decimal(if binID > 0 then binID else nano), if safe == "" then "file" else safe);
    ValueOfDecimal(if binID > 0 then binID else nano);
  }

  /** The absolute destination: the relative one under the storage root. */
  function Destination(root: string, rel: string): string {
    Join([root, rel])
  }

  lemma DestinationKeepsLast(root: string, rel: string, name: string)
    requires Normal(name) && EndsIn(rel, name)
    ensures EndsIn(Destination(root, rel), name) && LastSegment(Destination(root, rel)) == name
  {
    if root == "" {
      assert [root, rel][1..] == [rel];
      assert JoinWith([rel]) == rel && rel != "";
      CleanKeepsLast(rel, name);
      assert Join([rel]) == Clean(rel);
    } else {
      var whole := JoinWith([root, rel]);
      assert [root, rel][1..] == [rel] && JoinWith([rel]) == rel;
      assert whole == root + "/" + rel;
      assert whole[|whole| - |name|..] == name;
      assert whole[|whole| - |name| - 1] == '/';
      CleanKeepsLast(whole, name);
    }
  }

  /**
   Two rows with distinct positive ids never share a destination: not for any bucket, module,
   directory (".." included), file name or date, and not below any storage root.
   */
  lemma DestinationsAreDistinct(norm: string -> string, root: string,
                                bucket1: string, module1: string, directory1: string, id1: int, file1: string, date1: YearMonth,
                                bucket2: string, module2: string, directory2: string, id2: int, file2: string, date2: YearMonth,
                                nano1: nat, nano2: nat)
    requires id1 > 0 && id2 > 0 && id1 != id2
    ensures
      Destination(root, GenerateShardedPath(norm, bucket1, module1, directory1, id1, file1, date1, nano1)) !=
      Destination(root, GenerateShardedPath(norm, bucket2, module2, directory2, id2, file2, date2, nano2))
  {
    ShardedPathRevealsId(norm, bucket1, module1, directory1, id1, file1, date1, nano1);
    ShardedPathRevealsId(norm, bucket2, module2, directory2, id2, file2, date2, nano2);
    PrefixedFilenameIsNormal(id1, nano1, file1);
    PrefixedFilenameIsNormal(id2, nano2, file2);
    DestinationKeepsLast(root, GenerateShardedPath(norm, bucket1, module1, directory1, id1, file1, date1, nano1),
                         PrefixedFilename(id1, nano1, file1));
    DestinationKeepsLast(root, GenerateShardedPath(norm, bucket2, module2, directory2, id2, file2, date2, nano2),
                         PrefixedFilename(id2, nano2, file2));
  }

  lemma {:induction false} JoinWithMany(parts: seq<string>)
    requires |parts| >= 2
    ensures '/' in JoinWith(parts)
  {
    assert parts[1..] != [];
    assert (parts[0] + "/" + JoinWith(parts[1..]))[|parts[0]|] == '/';
  }

  /** A cleaned path that ended in two proper names still contains a slash. */
  lemma CleanKeepsSlash(path: string, parent: string, name: string)
    requires Normal(parent) && Normal(name) && EndsIn(path, parent)
    ensures '/' in Clean(path + "/" + name)
  {
    var whole := path + "/" + name;
    SplitAppend(path, name);
    var dirs: seq<string>;
    if path == parent {
      SplitOne(parent);
      dirs := [];
      assert Split(path) == dirs + [parent];
    } else {
      var dir := path[..|path| - |parent| - 1];
      assert path == dir + "/" + parent;
      SplitAppend(dir, parent);
      dirs := Split(dir);
    }
    var rooted := Rooted(whole);
    PushAllAppend(rooted, [], dirs, parent);
    PushAllAppend(rooted, [], dirs + [parent], name);
    var kept := PushAll(rooted, [], dirs) + [parent] + [name];
    assert PushAll(rooted, [], Split(whole)) == kept;
    JoinWithMany(kept);
  }

  lemma {:induction false} JoinKeepsSlash(parts: seq<string>, parent: string, name: string)
    requires Normal(parent) && Normal(name)
    ensures '/' in Join(parts + [parent, name])
    decreases |parts|
  {
    var all := parts + [parent, name];
    if parts != [] && parts[0] == "" {
      assert all[1..] == parts[1..] + [parent, name];
      JoinKeepsSlash(parts[1..], parent, name);
    } else {
      assert all[0] != "";
      assert all == (parts + [parent]) + [name];
      JoinWithAppend(parts + [parent], name);
      JoinWithEndsIn(parts, parent);
      CleanKeepsSlash(JoinWith(parts + [parent]), parent, name);
    }
  }

  lemma DigitsAreNormal(s: string)
    requires s != "" && forall i | 0 <= i < |s| :: s[i] in "0123456789"
    ensures Normal(s)
  {
    assert s[0] in "0123456789";
    assert "."[0] == '.' && ".."[0] == '.';
  }

  /** A migrated path is recognised as migrated: it has a directory part. */
  lemma ShardedPathHasSlash(norm: string -> string, bucket: string, module_: string, directory: string,
                            binID: int, filename: string, date: YearMonth, nano: nat)
    requires ValidDate(date)
    ensures '/' in GenerateShardedPath(norm, bucket, module_, directory, binID, filename, date, nano)
  {
    var name := PrefixedFilename(binID, nano, filename);
    PrefixedFilenameIsNormal(binID, nano, filename);
    DigitsAreNormal(date.month);
    var b := if bucket == "" || bucket == "files" then "uploads" else bucket;
    var m := norm(if module_ == "" then "general" else module_);
    var dir := if m == "legacy_scan" && directory != "" then directory else m;
    JoinKeepsSlash([b, dir, date.year], date.month, name);
    assert [b, dir, date.year] + [date.month, name] == [b, dir, date.year, date.month, name];
  }

  lemma CleanOfRooted(dir: string)
    requires Normal(dir)
    ensures Split("/" + dir) == ["", dir] && PushAll(true, [], ["", dir]) == [dir]
    ensures Clean("/" + dir) == "/" + dir
  {
    assert "" + "/" + dir == "/" + dir;
    SplitAppend("", dir);
    assert [""] + [dir] == ["", dir];
    PushAllAppend(true, [], [""], dir);
    assert PushAll(true, [], [""]) == [];
  }

  /** An absolute path of two proper names is clean already. */
  lemma CleanOfTwo(dir: string, name: string)
    requires Normal(dir) && Normal(name)
    ensures Clean("/" + dir + "/" + name) == "/" + dir + "/" + name
  {
    var one := "/" + dir;
    var whole := one + "/" + name;
    CleanOfRooted(dir);
    SplitAppend(one, name);
    PushAllAppend(true, [], ["", dir], name);
    JoinWithAppend([dir], name);
    assert PushAll(true, [], Split(whole)) == [dir] + [name];
    assert JoinWith([dir]) == dir;
    assert "/" + (dir + "/" + name) == whole;
  }

  lemma JoinOfTwo(dir: string, name: string)
    requires Normal(dir) && Normal(name)
    ensures Join(["/" + dir, name]) == "/" + dir + "/" + name
  {
    CleanOfTwo(dir, name);
    assert ["/" + dir, name][1..] == [name] && JoinWith([name]) == name;
    assert JoinWith(["/" + dir, name]) == "/" + dir + "/" + name;
  }

  /** A path of two proper names is its own clean form, and its base is the second. */
  lemma TwoNames(dir: string, name: string)
    requires Normal(dir) && Normal(name)
    ensures Join([dir, name]) == dir + "/" + name && Clean(dir + "/" + name) == dir + "/" + name
    ensures TrimSlash(dir + "/" + name) == dir + "/" + name && Base(dir + "/" + name) == name
  {
    assert JoinWith([dir, name]) == dir + "/" + name by {
      assert [dir, name][1..] == [name];
    }
    SplitAppend(dir, name);
    SplitOne(dir);
    PushAllAppend(false, [], [dir], name);
    assert PushAll(false, [], [dir]) == [dir];
    JoinWithAppend([dir], name);
    var path := dir + "/" + name;
    assert dir[0] in dir && path[0] == dir[0];
    assert path[|path| - 1] == name[|name| - 1] && name[|name| - 1] in name;
    LastSegmentAppend(dir, name);
  }

  /** Slashes at the end do not count for the base of a path. */
  lemma BaseIgnoresSlash(path: string)
    ensures Base(path + "/") == if path == "" then "/" else Base(path)
  {
    var longer := path + "/";
    assert longer[..|longer| - 1] == path && longer[|longer| - 1] == '/';
    assert TrimRightSlashes(longer) == TrimRightSlashes(path);
  }
}
