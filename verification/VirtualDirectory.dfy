/**
 The virtual directory tree: an SQL group-by over flat paths, listed one level at a time.

 The query is modelled with the string functions it uses (ltrim, split_part, substring, LIKE with
 its wildcards). Rows are kept by id, because two rows may have the same path.
 */
module VirtualDirectory {
  import opened Collections
  import opened Paths

  /** created is create_date, which may be missing. */
  datatype Entry = Entry(path: string, size: nat, created: Option<int>)
  type Table = map<int, Entry>

  // ---------- SQL string functions ----------

  /** ltrim(s, '/'). */
  function LTrim(s: string): string {
    if s != [] && s[0] == '/' then LTrim(s[1..]) else s
  }

  /** split_part(s, '/', 1). */
  function SplitPart(s: string): (r: string)
    ensures '/' !in r && |r| <= |s|
  {
    if s == [] || s[0] == '/' then [] else [s[0]] + SplitPart(s[1..])
  }

  /** s LIKE pattern, with the default escape. A pattern that ends in the escape matches nothing here. */
  predicate Like(s: string, pattern: string)
    decreases |pattern|, |s|
  {
    if pattern == [] then s == []
    else if pattern[0] == '%' then Like(s, pattern[1..]) || (s != [] && Like(s[1..], pattern))
    else if s == [] then false
    else if pattern[0] == '_' then Like(s[1..], pattern[1..])
    else if pattern[0] == '\\' then |pattern| >= 2 && s[0] == pattern[1] && Like(s[1..], pattern[2..])
    else s[0] == pattern[0] && Like(s[1..], pattern[1..])
  }

  predicate WildcardFree(p: string) {
    '%' !in p && '_' !in p && '\\' !in p
  }

  lemma {:induction false} LikeAny(s: string)
    ensures Like(s, "%")
  {
    if s != [] {
      LikeAny(s[1..]);
    }
  }

  /** LIKE prefix || '%' is "starts with" for every prefix without wildcards. */
  lemma {:induction false} LikeIsPrefix(s: string, p: string)
    requires WildcardFree(p)
    ensures Like(s, p + "%") <==> p <= s
  {
    if p == [] {
      LikeAny(s);
      assert p + "%" == "%";
    } else {
      assert p[0] in p;
      assert (p + "%")[1..] == p[1..] + "%";
      if s != [] {
        LikeIsPrefix(s[1..], p[1..]);
        if p[0] == s[0] && p[1..] <= s[1..] {
          assert s == [s[0]] + s[1..] && p == [p[0]] + p[1..];
        }
      }
    }
  }

  // ---------- The query ----------

  /** The prefix a request is turned into: no leading slash, one trailing slash unless empty. */
  function CleanPrefix(request: string): string {
    var p := TrimSlash(request);
    if p != "" && p[|p| - 1] != '/' then p + "/" else p
  }

  /** With or without slashes before and after, a request for a directory is its name and a slash; for the root, nothing. */
  lemma CleanPrefixIs(dir: string)
    requires dir != "" && dir[0] != '/' && dir[|dir| - 1] != '/'
    ensures CleanPrefix(dir) == CleanPrefix("/" + dir) == CleanPrefix(dir + "/") == CleanPrefix("/" + dir + "/") == dir + "/"
    ensures CleanPrefix("") == CleanPrefix("/") == ""
  {
    assert ("/" + dir)[1..] == dir && ("/" + dir + "/")[1..] == dir + "/";
  }

  /** Slashes in front of a path do not count at the root. */
  lemma {:induction false} LTrimIs(slashes: string, s: string)
    requires (forall i | 0 <= i < |slashes| :: slashes[i] == '/') && (s == "" || s[0] != '/')
    ensures LTrim(slashes + s) == s && Rest("", slashes + s) == s
  {
    if slashes == "" {
      assert slashes + s == s;
    } else {
      assert (slashes + s)[1..] == slashes[1..] + s;
      LTrimIs(slashes[1..], s);
    }
  }

  /** A percent sign stands for any string, an underscore for any character, and after a backslash a character for itself. */
  lemma {:induction false} LikeIs(s: string, p: string)
    ensures Like(s, "%" + p) <==> exists k :: 0 <= k <= |s| && Like(s[k..], p)
    ensures Like(s, "_" + p) <==> s != "" && Like(s[1..], p)
    ensures forall c :: Like(s, ['\\', c] + p) <==> s != "" && s[0] == c && Like(s[1..], p)
  {
    assert ("%" + p)[1..] == p && ("_" + p)[1..] == p && forall c :: (['\\', c] + p)[2..] == p;
    assert s[0..] == s;
    if s != "" {
      LikeIs(s[1..], p);
      if k :| 0 <= k <= |s[1..]| && Like(s[1..][k..], p) {
        assert s[1..][k..] == s[k + 1..];
      }
      if k :| 0 <= k <= |s| && Like(s[k..], p) {
        assert k > 0 ==> s[k..] == s[1..][k - 1..];
      }
    }
  }

  predicate Selected(prefix: string, path: string) {
    if prefix == "" then |path| > 0 else Like(path, prefix + "%") && |path| > |prefix|
  }

  /** At the root every path but the empty one is listed; below a prefix without wildcards, those that go on from it. */
  lemma SelectedIs(p: string, path: string)
    ensures Selected("", path) <==> path != ""
    ensures WildcardFree(p) && p != "" ==> (Selected(p, path) <==> p <= path && p != path)
    ensures p != "" && p <= path ==> p + Rest(p, path) == path
  {
    if WildcardFree(p) {
      LikeIsPrefix(path, p);
    }
  }

  /** What is left of a path below the prefix. */
  function Rest(prefix: string, path: string): string {
    if prefix == "" then LTrim(path) else if |path| >= |prefix| then path[|prefix|..] else []
  }

  ghost function Rows(t: Table, prefix: string): set<int> {
    set i | i in t && Selected(prefix, t[i].path)
  }

  ghost function NameOf(t: Table, prefix: string): int -> string {
    i => if i in t then SplitPart(Rest(prefix, t[i].path)) else ""
  }

  ghost function SizeOf(t: Table): int -> int {
    i => if i in t then t[i].size else 0
  }

  ghost function GroupRows(t: Table, prefix: string, name: string): set<int> {
    Group(Rows(t, prefix), NameOf(t, prefix), name)
  }

  /** All node names of the query, the empty one included. */
  ghost function GroupNames(t: Table, prefix: string): set<string> {
    Keys(Rows(t, prefix), NameOf(t, prefix))
  }

  /** The names that are listed. */
  ghost function Children(t: Table, prefix: string): set<string> {
    GroupNames(t, prefix) - {""}
  }

  /** SUM(size) of a node. */
  ghost function NodeSize(t: Table, prefix: string): string -> int {
    name => Sum(SizeOf(t), GroupRows(t, prefix, name))
  }

  ghost function Dates(t: Table, prefix: string, name: string): set<int> {
    set i | i in GroupRows(t, prefix, name) && t[i].created.Some? :: t[i].created.value
  }

  /** MAX(create_date) of a node; None if no row has a date. */
  ghost predicate IsLatest(dates: set<int>, latest: Option<int>) {
    match latest
    case None => dates == {}
    case Some(d) => d in dates && forall e | e in dates :: e <= d
  }

  /** BOOL_OR(position('/' in rest) > 0). */
  ghost predicate IsDirectory(t: Table, prefix: string, name: string) {
    exists i :: i in GroupRows(t, prefix, name) && '/' in Rest(prefix, t[i].path)
  }

  ghost function ListedTotal(t: Table, prefix: string): int {
    Sum(NodeSize(t, prefix), Children(t, prefix))
  }

  // ---------- The tree the paths describe ----------

  /** A path without empty components. */
  predicate NormalPath(s: string) {
    s != "" && s[0] != '/' && s[|s| - 1] != '/'
    && forall i | 0 <= i < |s| - 1 :: !(s[i] == '/' && s[i + 1] == '/')
  }

  ghost predicate NormalTable(t: Table) {
    forall i | i in t :: NormalPath(t[i].path)
  }

  /** A directory prefix: empty, or some components and a slash. */
  predicate DirPrefix(p: string) {
    p == "" || p[|p| - 1] == '/'
  }

  /** Rows at or below the node. */
  ghost function Below(t: Table, node: string): set<int> {
    set i | i in t && (t[i].path == node || node + "/" <= t[i].path)
  }

  ghost function At(t: Table, node: string): set<int> {
    set i | i in t && t[i].path == node
  }

  /** Rows that match the prefix only through a wildcard, and show up under some name. */
  ghost function Strays(t: Table, prefix: string): set<int> {
    set i | i in Rows(t, prefix) && !(prefix <= t[i].path) && NameOf(t, prefix)(i) != ""
  }

  /** Rows inside the prefix that LIKE does not match: a backslash in the prefix is its escape, not itself. */
  ghost function Missing(t: Table, prefix: string): set<int> {
    set i | i in Inside(t, prefix) && !Selected(prefix, t[i].path)
  }

  ghost function Inside(t: Table, prefix: string): set<int> {
    set i | i in t && prefix <= t[i].path && |prefix| < |t[i].path|
  }

  // ---------- Names and paths ----------

  lemma {:induction false} SplitPartIs(s: string, name: string)
    requires '/' !in name
    ensures SplitPart(s) == name <==> s == name || name + "/" <= s
  {
    if s == [] {
    } else if s[0] == '/' {
      if name != [] {
        assert name[0] in name;
      }
    } else {
      if name == [] {
        assert SplitPart(s)[0] == s[0];
      } else {
        forall c | c in name[1..]
          ensures c in name
        {
        }
        SplitPartIs(s[1..], name[1..]);
        assert s == [s[0]] + s[1..] && name == [name[0]] + name[1..];
        assert (name + "/")[1..] == name[1..] + "/";
      }
    }
  }

  lemma {:induction false} SplitPartWhole(s: string)
    ensures SplitPart(s) == s <==> '/' !in s
  {
    if s != [] && s[0] != '/' {
      SplitPartWhole(s[1..]);
      assert s == [s[0]] + s[1..];
    }
  }

  /** Below a directory prefix of a normal path something with a name is left. */
  lemma RestOfNormal(p: string, path: string)
    requires NormalPath(path) && DirPrefix(p) && p <= path && |p| < |path|
    ensures path == p + Rest(p, path) && Rest(p, path) != "" && Rest(p, path)[0] != '/'
    ensures SplitPart(Rest(p, path)) != ""
  {
    if p == "" {
      assert LTrim(path) == path;
    } else {
      assert path[|p| - 1] == '/' && path[|p|] != '/';
    }
  }

  // ---------- Sizes ----------

  /** Wildcards only widen a prefix match; an escape could narrow it. */
  lemma {:induction false} PrefixIsLike(s: string, p: string)
    requires '\\' !in p && p <= s
    ensures Like(s, p + "%")
  {
    if p == [] {
      LikeAny(s);
      assert p + "%" == "%";
    } else {
      assert p[0] in p;
      assert (p + "%")[1..] == p[1..] + "%";
      PrefixIsLike(s[1..], p[1..]);
      if p[0] == '%' {
        LikeSkips(s, p[1..] + "%");
      }
    }
  }

  lemma LikeSkips(s: string, pattern: string)
    requires s != [] && Like(s[1..], pattern)
    ensures Like(s, "%" + pattern)
  {
    var whole := "%" + pattern;
    assert whole[1..] == pattern;
    assert Like(s[1..], whole);
  }

  /** Without a backslash in the prefix no row is missing. */
  lemma NoneMissing(t: Table, p: string)
    requires '\\' !in p
    ensures Missing(t, p) == {}
  {
    forall i | i in Inside(t, p)
      ensures Selected(p, t[i].path)
    {
      PrefixIsLike(t[i].path, p);
    }
  }

  ghost function StraysNamed(t: Table, prefix: string, name: string): set<int> {
    set i | i in Strays(t, prefix) && NameOf(t, prefix)(i) == name
  }

  ghost function MissingNamed(t: Table, prefix: string, name: string): set<int> {
    set i | i in Missing(t, prefix) && i in Below(t, prefix + name)
  }

  predicate Name(name: string) {
    name != "" && '/' !in name
  }

  /** A node groups the rows at or below its path, except those missing, and strays. */
  lemma NodeGroups(t: Table, p: string, name: string)
    requires NormalTable(t) && DirPrefix(p) && Name(name)
    ensures GroupRows(t, p, name) == (Below(t, p + name) - MissingNamed(t, p, name)) + StraysNamed(t, p, name)
    ensures Below(t, p + name) !! StraysNamed(t, p, name) && MissingNamed(t, p, name) <= Below(t, p + name)
  {
    forall i | i in t
      ensures i in GroupRows(t, p, name) <==>
        (i in Below(t, p + name) && i !in MissingNamed(t, p, name)) || i in StraysNamed(t, p, name)
      ensures i in Below(t, p + name) ==> p <= t[i].path
    {
      var path := t[i].path;
      if p <= path && |p| < |path| {
        RestOfNormal(p, path);
        SplitPartIs(Rest(p, path), name);
        RelativeTo(p, path, Rest(p, path), name);
        assert i in Inside(t, p);
      } else {
        ShorterIsNotBelow(p, path, name);
      }
    }
    forall i | i in Below(t, p + name)
      ensures i !in StraysNamed(t, p, name)
    {
      assert p <= t[i].path;
    }
  }

  lemma RelativeTo(p: string, path: string, rest: string, name: string)
    requires path == p + rest
    ensures path == p + name <==> rest == name
    ensures p + name + "/" <= path <==> name + "/" <= rest
  {
    assert path[|p|..] == rest && (p + name)[|p|..] == name;
    assert (p + name + "/")[|p|..] == name + "/";
    if p + name + "/" <= path {
      assert path[..|p + name + "/"|][|p|..] == name + "/";
    }
    if name + "/" <= rest {
      assert path == p + name + "/" + rest[|name| + 1..];
    }
  }

  lemma ShorterIsNotBelow(p: string, path: string, name: string)
    requires Name(name) && !(p <= path && |p| < |path|)
    ensures path != p + name && !(p + name + "/" <= path)
  {
    assert p <= p + name && p <= p + name + "/";
  }

  lemma SumLess(f: int -> int, s: set<int>, part: set<int>)
    requires part <= s
    ensures Sum(f, s - part) == Sum(f, s) - Sum(f, part)
  {
    SumDisjoint(f, s - part, part);
    assert (s - part) + part == s;
  }

  /** A node shows the total of everything at or below it, plus strays of that name, less what is missing. */
  lemma NodeSizeIsSubtree(t: Table, p: string, name: string)
    requires NormalTable(t) && DirPrefix(p) && Name(name)
    ensures NodeSize(t, p)(name) ==
      Sum(SizeOf(t), Below(t, p + name)) + Sum(SizeOf(t), StraysNamed(t, p, name)) - Sum(SizeOf(t), MissingNamed(t, p, name))
  {
    NodeGroups(t, p, name);
    SumDisjoint(SizeOf(t), Below(t, p + name) - MissingNamed(t, p, name), StraysNamed(t, p, name));
    SumLess(SizeOf(t), Below(t, p + name), MissingNamed(t, p, name));
  }

  ghost function Named(t: Table, prefix: string): set<int> {
    set i | i in Rows(t, prefix) && NameOf(t, prefix)(i) != ""
  }

  lemma NamedRows(t: Table, p: string)
    requires NormalTable(t) && DirPrefix(p)
    ensures Named(t, p) == (Inside(t, p) - Missing(t, p)) + Strays(t, p) && Inside(t, p) !! Strays(t, p)
  {
    forall i | i in t
      ensures i in Named(t, p) <==> (i in Inside(t, p) && i !in Missing(t, p)) || i in Strays(t, p)
    {
      var path := t[i].path;
      if p <= path && |p| < |path| {
        RestOfNormal(p, path);
        assert i in Inside(t, p);
      }
    }
  }

  /** A listing adds up to the rows inside the prefix, plus its strays, less what is missing. */
  lemma ListingTotal(t: Table, p: string)
    requires NormalTable(t) && DirPrefix(p)
    ensures ListedTotal(t, p) == Sum(SizeOf(t), Inside(t, p)) + Sum(SizeOf(t), Strays(t, p)) - Sum(SizeOf(t), Missing(t, p))
  {
    forall n | n in Children(t, p)
      ensures NodeSize(t, p)(n) == Sum(SizeOf(t), Group(Named(t, p), NameOf(t, p), n))
    {
      assert Group(Named(t, p), NameOf(t, p), n) == GroupRows(t, p, n);
    }
    forall i | i in Named(t, p)
      ensures NameOf(t, p)(i) in Children(t, p)
    {
      assert i in Rows(t, p);
    }
    SumByGroups(SizeOf(t), Named(t, p), NameOf(t, p), Children(t, p), NodeSize(t, p));
    NamedRows(t, p);
    SumDisjoint(SizeOf(t), Inside(t, p) - Missing(t, p), Strays(t, p));
    SumLess(SizeOf(t), Inside(t, p), Missing(t, p));
  }

  lemma BelowSplits(t: Table, q: string)
    requires NormalTable(t)
    ensures Below(t, q) == At(t, q) + Inside(t, q + "/") && At(t, q) !! Inside(t, q + "/")
  {
    forall i | i in t && q + "/" <= t[i].path
      ensures |q + "/"| < |t[i].path|
    {
      assert (q + "/")[|q|] == '/' && t[i].path[|q|] == '/';
      assert t[i].path[|t[i].path| - 1] != '/';
    }
  }

  /**
   The size shown for a directory is what its listing adds up to plus the rows that are the directory
   itself, exactly when the two levels are off by the same: strays less missing rows. No table is
   excluded but those with empty path components.
   */
  lemma ListingAddsUpIff(t: Table, p: string, name: string)
    requires NormalTable(t) && DirPrefix(p) && Name(name)
    ensures
      NodeSize(t, p)(name) == ListedTotal(t, p + name + "/") + Sum(SizeOf(t), At(t, p + name)) <==>
      Sum(SizeOf(t), StraysNamed(t, p, name)) - Sum(SizeOf(t), MissingNamed(t, p, name)) ==
      Sum(SizeOf(t), Strays(t, p + name + "/")) - Sum(SizeOf(t), Missing(t, p + name + "/"))
  {
    var q := p + name;
    assert (q + "/")[|q|] == '/';
    NodeSizeIsSubtree(t, p, name);
    ListingTotal(t, q + "/");
    BelowSplits(t, q);
    SumDisjoint(SizeOf(t), At(t, q), Inside(t, q + "/"));
  }

  /** Without wildcards in a prefix there are no strays, and nothing is missing. */
  lemma NoStrays(t: Table, p: string)
    requires WildcardFree(p)
    ensures Strays(t, p) == {} && Missing(t, p) == {}
  {
    NoneMissing(t, p);
    forall i | i in Strays(t, p)
      ensures false
    {
      LikeIsPrefix(t[i].path, p);
    }
  }

  /** So for wildcard-free names a directory always shows the sum of its parts: its whole subtree. */
  lemma DirectoryShowsSubtree(t: Table, p: string, name: string)
    requires NormalTable(t) && DirPrefix(p) && Name(name) && WildcardFree(p + name)
    ensures NodeSize(t, p)(name) == Sum(SizeOf(t), Below(t, p + name))
    ensures NodeSize(t, p)(name) == ListedTotal(t, p + name + "/") + Sum(SizeOf(t), At(t, p + name))
  {
    forall c | c in p || c in p + name + "/"
      ensures c in p + name || c == '/'
    {
      if c in p {
        var i :| 0 <= i < |p| && p[i] == c;
        assert (p + name)[i] == c;
      }
    }
    NoStrays(t, p);
    NoStrays(t, p + name + "/");
    assert StraysNamed(t, p, name) == {} && MissingNamed(t, p, name) == {};
    NodeSizeIsSubtree(t, p, name);
    ListingAddsUpIff(t, p, name);
  }

  /** And its kind and date are those of its subtree: a directory if something lies strictly below it. */
  lemma DirectoryIsSubtree(t: Table, p: string, name: string)
    requires NormalTable(t) && DirPrefix(p) && Name(name) && WildcardFree(p)
    ensures IsDirectory(t, p, name) <==> exists i :: i in t && p + name + "/" <= t[i].path
    ensures Dates(t, p, name) == set i | i in Below(t, p + name) && t[i].created.Some? :: t[i].created.value
  {
    NoStrays(t, p);
    NodeGroups(t, p, name);
    assert StraysNamed(t, p, name) == {} && MissingNamed(t, p, name) == {};
    assert GroupRows(t, p, name) == Below(t, p + name);
    forall i | i in Below(t, p + name)
      ensures '/' in Rest(p, t[i].path) <==> p + name + "/" <= t[i].path
    {
      BelowHasSlash(t, p, name, i);
    }
  }

  lemma BelowHasSlash(t: Table, p: string, name: string, i: int)
    requires NormalTable(t) && DirPrefix(p) && Name(name) && i in Below(t, p + name)
    ensures '/' in Rest(p, t[i].path) <==> p + name + "/" <= t[i].path
  {
    var path := t[i].path;
    assert p <= path && |p| < |path|;
    RestOfNormal(p, path);
    RelativeTo(p, path, Rest(p, path), name);
    if name + "/" <= Rest(p, path) {
      assert Rest(p, path)[|name|] == '/';
    }
  }

  /** The root has no strays: it always shows all bytes. */
  lemma RootShowsEverything(t: Table)
    requires NormalTable(t)
    ensures ListedTotal(t, "") == Sum(SizeOf(t), t.Keys)
  {
    ListingTotal(t, "");
    forall i | i in t
      ensures i in Inside(t, "")
    {
      assert "" <= t[i].path && |t[i].path| > 0;
    }
    assert Inside(t, "") == t.Keys;
    NoneMissing(t, "");
    assert Strays(t, "") == {};
  }

  /**
   The equality is false of tables as common as two folders that differ in one letter: an underscore
   in a folder name is a wildcard, and the listing of a_b counts the file of acb.
   */
  lemma UnderscoreLeaks()
    ensures
      NormalTable(Leaky) && NodeSize(Leaky, "")("a_b") != ListedTotal(Leaky, "a_b/") + Sum(SizeOf(Leaky), At(Leaky, "a_b"))
  {
    LeakyIsNormal();
    LeakyMissesNothing();
    LeakyStrays();
    var root, p, name := "", "a_b/", "a_b";
    assert root + name + "/" == p && root + name == name;
    assert Name(name) && DirPrefix(root);
    ListingAddsUpIff(Leaky, root, name);
    FiveBytes();
  }

  lemma LeakyIsNormal()
    ensures NormalTable(Leaky) && StraysNamed(Leaky, "", "a_b") == {}
  {
    assert NormalPath("a_b/x") && NormalPath("acb/y");
    assert Strays(Leaky, "") == {};
  }

  lemma FiveBytes()
    ensures Sum(SizeOf(Leaky), {1}) == 5 && Sum(SizeOf(Leaky), {}) == 0
  {
    SumRemove(SizeOf(Leaky), {1}, 1);
    assert {1} - {1} == {};
  }

  const Leaky: Table := map[0 := Entry("a_b/x", 1, None), 1 := Entry("acb/y", 5, None)]

  lemma LeakyMissesNothing()
    ensures MissingNamed(Leaky, "", "a_b") == {} && Missing(Leaky, "a_b/") == {}
  {
    NoneMissing(Leaky, "");
    NoneMissing(Leaky, "a_b/");
  }

  lemma LeakyMatch()
    ensures Like("acb/y", "a_b/" + "%")
  {
    LikeAny("y");
    assert "a_b/" + "%" == "a_b/%";
    assert "/y"[1..] == "y" && "/%"[1..] == "%";
    assert Like("/y", "/%");
    assert "b/y"[1..] == "/y" && "b/%"[1..] == "/%";
    assert Like("b/y", "b/%");
    assert "cb/y"[1..] == "b/y" && "_b/%"[1..] == "b/%";
    assert Like("cb/y", "_b/%");
    assert "acb/y"[1..] == "cb/y" && "a_b/%"[1..] == "_b/%";
  }

  lemma LeakyStrays()
    ensures Strays(Leaky, "a_b/") == {1}
  {
    var p := "a_b/";
    LeakyMatch();
    assert Leaky.Keys == {0, 1};
    assert 1 in Rows(Leaky, p);
    assert Rest(p, "acb/y") == "y" && SplitPart("y") == "y";
    assert NameOf(Leaky, p)(1) == "y";
    assert p <= "a_b/x";
    assert p[1] != "acb/y"[1];
  }

  const Escaped: Table := map[0 := Entry("a\\b/x", 1, None)]

  lemma EscapedMatchesNothing()
    ensures Rows(Escaped, "a\\b/") == {}
  {
    assert "a\\b/" + "%" == "a\\b/%" && "a\\b/%"[1..] == "\\b/%" && "a\\b/x"[1..] == "\\b/x";
    assert !Like("\\b/x", "\\b/%");
  }

  lemma EscapedIsBelow()
    ensures NormalTable(Escaped) && Below(Escaped, "" + "a\\b") == {0}
    ensures Strays(Escaped, "") == {} && Missing(Escaped, "") == {}
  {
    assert NormalPath("a\\b/x");
    assert "" + "a\\b" + "/" <= "a\\b/x";
  }

  /** A backslash in a folder name is an escape: the folder a\b shows its file's size and lists nothing. */
  lemma BackslashHides()
    ensures NormalTable(Escaped) && Children(Escaped, "a\\b/") == {} && NodeSize(Escaped, "")("a\\b") == 1
  {
    EscapedMatchesNothing();
    EscapedIsBelow();
    NodeSizeIsSubtree(Escaped, "", "a\\b");
    assert StraysNamed(Escaped, "", "a\\b") == {} && MissingNamed(Escaped, "", "a\\b") == {};
    SumRemove(SizeOf(Escaped), {0}, 0);
    assert {0} - {0} == {};
  }

  // ---------- Descending the tree ----------

  /** names leads down from prefix: each name is listed, and each but the last as a directory. */
  ghost predicate Chain(t: Table, prefix: string, names: seq<string>)
    decreases |names|
  {
    names != [] && names[0] in Children(t, prefix)
    && (|names| > 1 ==> IsDirectory(t, prefix, names[0]) && Chain(t, prefix + names[0] + "/", names[1..]))
  }

  /** No path matches the directory prefix of another only through a wildcard. */
  ghost predicate NoLeaks(t: Table) {
    forall i, j, k | i in t && j in t && 0 <= k <= |t[i].path| && DirPrefix(t[i].path[..k]) ::
      Selected(t[i].path[..k], t[j].path) ==> t[i].path[..k] <= t[j].path
  }

  /** Every path matches its own directory prefixes. */
  ghost predicate NoMisses(t: Table) {
    forall i, k | i in t && 0 <= k < |t[i].path| && DirPrefix(t[i].path[..k]) :: Selected(t[i].path[..k], t[i].path)
  }

  /** The prefix is a directory of some row. */
  ghost predicate DirOf(t: Table, p: string) {
    DirPrefix(p) && exists i :: i in t && p <= t[i].path
  }

  /** A listed name continues the prefix to a component boundary of some row. */
  lemma ListedIsComponent(t: Table, p: string, name: string) returns (i: int)
    requires NormalTable(t) && NoLeaks(t) && DirOf(t, p) && name in Children(t, p)
    ensures i in t && (t[i].path == p + name || p + name + "/" <= t[i].path)
    ensures Name(name)
    ensures IsDirectory(t, p, name) ==> exists j :: j in t && p + name + "/" <= t[j].path
  {
    i := KeyWitness(Rows(t, p), NameOf(t, p), name);
    GroupedRowIsBelow(t, p, name, i);
    if IsDirectory(t, p, name) {
      var j :| j in GroupRows(t, p, name) && '/' in Rest(p, t[j].path);
      GroupedRowIsBelow(t, p, name, j);
    }
  }

  lemma GroupedRowIsBelow(t: Table, p: string, name: string, i: int)
    requires NormalTable(t) && NoLeaks(t) && DirOf(t, p) && i in GroupRows(t, p, name) && name != ""
    ensures t[i].path == p + name || p + name + "/" <= t[i].path
    ensures '/' in Rest(p, t[i].path) ==> p + name + "/" <= t[i].path
  {
    var path := t[i].path;
    var j :| j in t && p <= t[j].path;
    assert t[j].path[..|p|] == p;
    assert Selected(p, path) && p <= path;
    RestOfNormal(p, path);
    SplitPartIs(Rest(p, path), name);
    RelativeTo(p, path, Rest(p, path), name);
    SplitPartWhole(Rest(p, path));
  }

  lemma StepDown(p: string, names: seq<string>)
    requires |names| > 1
    ensures p + names[0] + "/" + JoinWith(names[1..]) == p + JoinWith(names)
  {
    Regroup(p, names[0], "/", JoinWith(names[1..]));
  }

  lemma Regroup(a: string, b: string, c: string, d: string)
    ensures a + b + c + d == a + (b + c + d)
  {
  }

  /** Every node reached by descending is a path prefix, at a component boundary, of some row. */
  lemma {:induction false} ChainIsSound(t: Table, p: string, names: seq<string>) returns (i: int)
    requires NormalTable(t) && NoLeaks(t) && DirOf(t, p) && Chain(t, p, names)
    ensures i in t && (t[i].path == p + JoinWith(names) || p + JoinWith(names) + "/" <= t[i].path)
    ensures forall k | 0 <= k < |names| :: Name(names[k])
    decreases |names|
  {
    i := ListedIsComponent(t, p, names[0]);
    if |names| > 1 {
      var q := p + names[0] + "/";
      assert q[|q| - 1] == '/';
      assert DirOf(t, q);
      StepDown(p, names);
      i := ChainIsSound(t, q, names[1..]);
      forall k | 0 <= k < |names|
        ensures Name(names[k])
      {
        assert k > 0 ==> names[k] == names[1..][k - 1];
      }
    }
  }

  /** A row is listed under the next component of its path. */
  lemma RowIsListed(t: Table, p: string, rest: string, i: int)
    requires NormalTable(t) && NoMisses(t) && i in t && DirPrefix(p) && t[i].path == p + rest && rest != ""
    ensures SplitPart(rest) in Children(t, p)
    ensures '/' in rest ==> IsDirectory(t, p, SplitPart(rest))
  {
    var path := t[i].path;
    assert p <= path && |p| < |path|;
    RestOfNormal(p, path);
    assert path[|p|..] == rest;
    assert path[..|p|] == p;
    assert i in Rows(t, p);
    assert NameOf(t, p)(i) == SplitPart(rest) && i in GroupRows(t, p, SplitPart(rest));
  }

  /** What is left of a path below one of its directories. */
  lemma NextLevel(p: string, name: string, rest: string)
    requires |name| < |rest| && '/' !in name && rest == name + "/" + rest[|name| + 1..] && NormalPath(p + rest)
    ensures
      var tail := rest[|name| + 1..];
      && tail != "" && DirPrefix(p + name + "/") && p + rest == p + name + "/" + tail
      && Split(rest) == [name] + Split(tail)
  {
    var tail := rest[|name| + 1..];
    TailOfNormal(p, name, tail);
    SplitHead(name, tail);
    var q := p + name + "/";
    assert q[|q| - 1] == '/';
  }

  /** A row below the prefix is reached by its own components. */
  lemma {:induction false} ChainIsComplete(t: Table, p: string, rest: string, i: int)
    requires NormalTable(t) && NoMisses(t) && i in t && DirPrefix(p) && t[i].path == p + rest && rest != ""
    ensures Chain(t, p, Split(rest))
    decreases |rest|
  {
    RowIsListed(t, p, rest, i);
    var name := SplitPart(rest);
    SplitPartIs(rest, name);
    if rest == name {
      SplitOne(rest);
    } else {
      var tail := rest[|name| + 1..];
      assert rest == name + "/" + tail && rest[|name|] == '/';
      NextLevel(p, name, rest);
      ChainIsComplete(t, p + name + "/", tail, i);
      assert Split(rest)[0] == name && Split(rest)[1..] == Split(tail);
    }
  }

  lemma TailOfNormal(p: string, name: string, tail: string)
    requires NormalPath(p + (name + "/" + tail))
    ensures tail != ""
  {
    var path := p + (name + "/" + tail);
    assert path[|p| + |name|] == '/';
  }

  lemma {:induction false} SplitHead(name: string, tail: string)
    requires '/' !in name
    ensures Split(name + "/" + tail) == [name] + Split(tail)
  {
    var s := name + "/" + tail;
    if name == [] {
      assert s[1..] == tail;
    } else {
      assert name[0] in name;
      SplitHead(name[1..], tail);
      assert s[1..] == name[1..] + "/" + tail;
      assert [name[0]] + name[1..] == name;
    }
  }

  /**
   Descending from the root reaches every row's path, by exactly one chain of listed names, its
   components; and whatever is reached is a directory or file of some row. Each level shortens what is
   left of a path, so the descent ends.
   */
  lemma DescentIsExact(t: Table, i: int, names: seq<string>)
    requires NormalTable(t) && NoMisses(t) && NoLeaks(t) && i in t
    ensures Chain(t, "", Split(t[i].path))
    ensures Chain(t, "", names) && JoinWith(names) == t[i].path <==> names == Split(t[i].path)
    ensures Chain(t, "", names) ==>
      exists j :: j in t && |names| <= |t[j].path|
                  && (JoinWith(names) == t[j].path || JoinWith(names) + "/" <= t[j].path)
  {
    var path := t[i].path;
    assert path == "" + path && "" <= path;
    ChainIsComplete(t, "", path, i);
    JoinWithSplit(path);
    if Chain(t, "", names) {
      var j := ChainIsSound(t, "", names);
      assert "" + JoinWith(names) == JoinWith(names);
      SplitJoinWith(names);
      JoinIsLonger(names);
      assert JoinWith(names) == t[j].path || JoinWith(names) + "/" <= t[j].path;
    }
  }

  lemma {:induction false} JoinIsLonger(names: seq<string>)
    requires names != [] && forall k | 0 <= k < |names| :: names[k] != ""
    ensures |names| <= |JoinWith(names)|
    decreases |names|
  {
    if |names| > 1 {
      JoinIsLonger(names[1..]);
    }
  }

  /** Tables without wildcard characters leak nothing and miss nothing. */
  lemma WildcardFreeTable(t: Table)
    requires forall i | i in t :: WildcardFree(t[i].path)
    ensures NoLeaks(t) && NoMisses(t)
  {
    forall i, j, k | i in t && j in t && 0 <= k <= |t[i].path| && Selected(t[i].path[..k], t[j].path)
      ensures t[i].path[..k] <= t[j].path
    {
      var p := t[i].path[..k];
      forall c | c in p
        ensures c in t[i].path
      {
      }
      LikeIsPrefix(t[j].path, p);
    }
    forall i, k | i in t && 0 <= k < |t[i].path|
      ensures Selected(t[i].path[..k], t[i].path)
    {
      var p := t[i].path[..k];
      forall c | c in p
        ensures c in t[i].path
      {
      }
      LikeIsPrefix(t[i].path, p);
    }
  }

  // ---------- The explorer ----------

  /** The path the explorer hands out for a node. */
  function OutPath(prefix: string, name: string): string {
    var path := prefix + name;
    if path != "" && path[0] == '/' then path else "/" + path
  }

  /** Fed back as the next request, it lists exactly that node's children. */
  lemma {:induction false} OutPathListsChildren(prefix: string, name: string)
    requires DirPrefix(prefix) && Name(name) && (prefix == "" || prefix[0] != '/')
    ensures CleanPrefix(OutPath(prefix, name)) == prefix + name + "/"
  {
    assert name[|name| - 1] in name && name[0] in name;
    var s := prefix + name;
    assert s[0] == if prefix == "" then name[0] else prefix[0];
    assert OutPath(prefix, name)[1..] == s;
    assert s[|s| - 1] == name[|name| - 1];
  }

  // ---------- The handlers ----------

  const MAX_NODES: nat := 5000

  datatype GroupRow = GroupRow(name: string, isDirectory: bool, size: int, lastModified: Option<int>)
  datatype Node = Node(name: string, path: string, isDirectory: bool, size: int, modified: int)

  /** Directories first, then by name in the collation of the database. */
  predicate Ordered(before: (string, string) -> bool, name1: string, dir1: bool, name2: string, dir2: bool) {
    if dir1 != dir2 then dir1 else before(name1, name2)
  }

  /** What the database may answer: each group once, in order, 5000 at most. */
  ghost predicate QueryAnswer(t: Table, prefix: string, before: (string, string) -> bool, rows: seq<GroupRow>) {
    && (forall i | 0 <= i < |rows| ::
          rows[i].name in GroupNames(t, prefix)
          && rows[i].isDirectory == IsDirectory(t, prefix, rows[i].name)
          && rows[i].size == NodeSize(t, prefix)(rows[i].name)
          && IsLatest(Dates(t, prefix, rows[i].name), rows[i].lastModified))
    && RowsInOrder(before, rows)
    && |rows| == if |GroupNames(t, prefix)| <= MAX_NODES then |GroupNames(t, prefix)| else MAX_NODES
  }

  function RowNames(rows: seq<GroupRow>): set<string> {
    set i | 0 <= i < |rows| :: rows[i].name
  }

  function NodeNames(nodes: seq<Node>): set<string> {
    set i | 0 <= i < |nodes| :: nodes[i].name
  }

  lemma {:induction false} RowNamesSize(rows: seq<GroupRow>)
    requires forall i, j | 0 <= i < j < |rows| :: rows[i].name != rows[j].name
    ensures |RowNames(rows)| == |rows|
  {
    if rows != [] {
      var front := rows[..|rows| - 1];
      RowNamesSize(front);
      var last := rows[|rows| - 1].name;
      assert RowNames(rows) == RowNames(front) + {last};
      assert last !in RowNames(front);
    }
  }

  lemma SubsetOfSameSize<T>(a: set<T>, b: set<T>)
    requires a <= b && |a| == |b|
    ensures a == b
  {
    SubsetSize(a, b);
    assert b == a + (b - a);
    assert |b| == |a| + |b - a|;
  }

  /** A small enough answer leaves no group out. */
  lemma AnswerIsComplete(t: Table, prefix: string, before: (string, string) -> bool, rows: seq<GroupRow>)
    requires QueryAnswer(t, prefix, before, rows) && |GroupNames(t, prefix)| <= MAX_NODES
    ensures RowNames(rows) == GroupNames(t, prefix)
  {
    RowNamesSize(rows);
    SubsetOfSameSize(RowNames(rows), GroupNames(t, prefix));
  }

  /**
   Turns the answer into nodes, skipping the nameless group. Up to 5000 groups the result has every
   child exactly once, with its whole size and latest date; a node without dates shows the present.
   */
  method GetVirtualDirectory(ghost t: Table, before: (string, string) -> bool, prefix: string, rows: seq<GroupRow>, now: int)
      returns (result: seq<Node>)
    requires QueryAnswer(t, CleanPrefix(prefix), before, rows)
    ensures |GroupNames(t, CleanPrefix(prefix))| <= MAX_NODES ==> NodeNames(result) == Children(t, CleanPrefix(prefix))
    ensures NodeNames(result) <= Children(t, CleanPrefix(prefix)) && NodeNames(result) == RowNames(rows) - {""}
    ensures forall i | 0 <= i < |result| :: IsNodeOf(t, CleanPrefix(prefix), result[i], now)
    ensures InOrder(before, result) && |result| <= 5000
  {
    result := [];
    for k := 0 to |rows|
      invariant result == NodesOf(CleanPrefix(prefix), rows[..k], now) && |result| <= k
    {
      assert rows[..k + 1][..k] == rows[..k];
      if rows[k].name == "" {
        continue;
      }
      result := result + [NodeOf(CleanPrefix(prefix), rows[k], now)];
    }
    assert rows[..|rows|] == rows;
    NodesAreShown(CleanPrefix(prefix), rows, now);
    NodesAnswer(t, before, CleanPrefix(prefix), rows, now);
    NodesAreOrdered(before, CleanPrefix(prefix), rows, now);
    if |GroupNames(t, CleanPrefix(prefix))| <= MAX_NODES {
      AnswerIsComplete(t, CleanPrefix(prefix), before, rows);
    }
  }

  function NodeOf(p: string, row: GroupRow, now: int): Node {
    Node(row.name, p + row.name, row.isDirectory, row.size, if row.lastModified.Some? then row.lastModified.value else now)
  }

  function NodesOf(p: string, rows: seq<GroupRow>, now: int): seq<Node> {
    if rows == [] then []
    else
      var before, last := NodesOf(p, rows[..|rows| - 1], now), rows[|rows| - 1];
      if last.name == "" then before else before + [NodeOf(p, last, now)]
  }

  /** Nodes come from rows with names, and every such row has one. */
  lemma {:induction false} NodesAreShown(p: string, rows: seq<GroupRow>, now: int)
    ensures
      var nodes := NodesOf(p, rows, now);
      && NodeNames(nodes) == RowNames(rows) - {""}
      && forall i | 0 <= i < |nodes| :: Shows(rows, p, nodes[i], now)
    decreases |rows|
  {
    if rows != [] {
      var n := |rows| - 1;
      var front, last := rows[..n], rows[n];
      NodesAreShown(p, front, now);
      RowNamesGrow(rows, n);
      assert rows[..n + 1] == rows;
      ShowsOn(rows, n, p, NodesOf(p, front, now), now);
      if last.name != "" {
        NodeNamesGrow(NodesOf(p, front, now), NodeOf(p, last, now));
        assert rows[n] == last && last == rows[n];
        assert rows[n].name != "" && NodeOf(p, rows[n], now) == NodeOf(p, last, now);
      }
    }
  }

  lemma NodesAnswer(t: Table, before: (string, string) -> bool, p: string, rows: seq<GroupRow>, now: int)
    requires QueryAnswer(t, p, before, rows)
    ensures forall i | 0 <= i < |NodesOf(p, rows, now)| :: IsNodeOf(t, p, NodesOf(p, rows, now)[i], now)
    ensures NodeNames(NodesOf(p, rows, now)) <= Children(t, p)
  {
    var nodes := NodesOf(p, rows, now);
    NodesAreShown(p, rows, now);
    forall i | 0 <= i < |nodes|
      ensures IsNodeOf(t, p, nodes[i], now)
    {
      var k :| 0 <= k < |rows| && rows[k].name != "" && nodes[i] == NodeOf(p, rows[k], now);
      assert IsLatest(Dates(t, p, rows[k].name), rows[k].lastModified);
    }
    assert forall k | 0 <= k < |rows| :: rows[k].name in GroupNames(t, p);
  }

  /** Path, kind, size and date of a node are those of its group. */
  ghost predicate IsNodeOf(t: Table, p: string, n: Node, now: int) {
    n.path == p + n.name && Describes(t, p, n, now)
  }

  /** Kind, size and latest date of the group of its name; the present if the group has no date. */
  ghost predicate Describes(t: Table, p: string, n: Node, now: int) {
    && n.isDirectory == IsDirectory(t, p, n.name) && n.size == NodeSize(t, p)(n.name)
    && (IsLatest(Dates(t, p, n.name), Some(n.modified)) || (Dates(t, p, n.name) == {} && n.modified == now))
  }

  predicate InOrder(before: (string, string) -> bool, nodes: seq<Node>) {
    forall i, j | 0 <= i < j < |nodes| ::
      nodes[i].name != nodes[j].name
      && Ordered(before, nodes[i].name, nodes[i].isDirectory, nodes[j].name, nodes[j].isDirectory)
  }

  predicate RowsInOrder(before: (string, string) -> bool, rows: seq<GroupRow>) {
    forall i, j | 0 <= i < j < |rows| ::
      rows[i].name != rows[j].name
      && Ordered(before, rows[i].name, rows[i].isDirectory, rows[j].name, rows[j].isDirectory)
  }

  lemma {:induction false} NodesAreOrdered(before: (string, string) -> bool, p: string, rows: seq<GroupRow>, now: int)
    requires RowsInOrder(before, rows)
    ensures InOrder(before, NodesOf(p, rows, now))
    decreases |rows|
  {
    if rows != [] {
      var n := |rows| - 1;
      var front, nodes := rows[..n], NodesOf(p, rows[..n], now);
      NodesAreOrdered(before, p, front, now);
      NodesAreShown(p, front, now);
      forall i | 0 <= i < |nodes|
        ensures nodes[i].name != rows[n].name
                && Ordered(before, nodes[i].name, nodes[i].isDirectory, rows[n].name, rows[n].isDirectory)
      {
        var k :| 0 <= k < n && front[k].name != "" && nodes[i] == NodeOf(p, front[k], now);
        assert front[k] == rows[k];
      }
    }
  }

  /** The node is that of one of the rows. */
  predicate Shows(rows: seq<GroupRow>, p: string, n: Node, now: int) {
    exists i :: 0 <= i < |rows| && rows[i].name != "" && n == NodeOf(p, rows[i], now)
  }

  lemma ShowsOn(rows: seq<GroupRow>, k: nat, p: string, nodes: seq<Node>, now: int)
    requires k < |rows| && forall i | 0 <= i < |nodes| :: Shows(rows[..k], p, nodes[i], now)
    ensures forall i | 0 <= i < |nodes| :: Shows(rows, p, nodes[i], now)
  {
    forall i | 0 <= i < |nodes|
      ensures Shows(rows, p, nodes[i], now)
    {
      var j :| 0 <= j < k && rows[..k][j].name != "" && nodes[i] == NodeOf(p, rows[..k][j], now);
      assert rows[j] == rows[..k][j];
    }
  }

  lemma RowNamesGrow(rows: seq<GroupRow>, k: nat)
    requires k < |rows|
    ensures RowNames(rows[..k + 1]) == RowNames(rows[..k]) + {rows[k].name}
  {
    assert rows[..k + 1] == rows[..k] + [rows[k]];
  }

  lemma NodeNamesGrow(nodes: seq<Node>, n: Node)
    ensures NodeNames(nodes + [n]) == NodeNames(nodes) + {n.name}
  {
    var all := nodes + [n];
    assert all[|nodes|] == n;
    assert forall i | 0 <= i < |nodes| :: all[i] == nodes[i];
  }

  predicate DistinctNames(nodes: seq<Node>) {
    forall i, j | 0 <= i < j < |nodes| :: nodes[i].name != nodes[j].name
  }

  function RawObjects(now: int): Node {
    Node("objects", "/objects", true, 0, now)
  }

  lemma RawObjectsDuplicates(listed: seq<Node>, now: int)
    requires DistinctNames(listed)
    ensures NodeNames(listed + [RawObjects(now)]) == NodeNames(listed) + {"objects"}
    ensures DistinctNames(listed + [RawObjects(now)]) <==> "objects" !in NodeNames(listed)
  {
    var nodes := listed + [RawObjects(now)];
    NodeNamesGrow(listed, RawObjects(now));
    assert nodes[|listed|] == RawObjects(now);
    forall i | 0 <= i < |listed|
      ensures nodes[i] == listed[i] && listed[i].name in NodeNames(listed)
    {
    }
    if "objects" in NodeNames(listed) {
      var i :| 0 <= i < |listed| && listed[i].name == "objects";
      assert nodes[i].name == nodes[|listed|].name;
    }
  }

  method WithSlashes(found: seq<Node>) returns (nodes: seq<Node>)
    ensures |nodes| == |found|
    ensures forall i | 0 <= i < |nodes| ::
      nodes[i] == found[i].(path := if found[i].path != "" && found[i].path[0] == '/' then found[i].path else "/" + found[i].path)
  {
    nodes := [];
    var k := 0;
    while k < |found|
      invariant 0 <= k <= |found| && |nodes| == k
      invariant forall i | 0 <= i < k ::
        nodes[i] == found[i].(path := if found[i].path != "" && found[i].path[0] == '/' then found[i].path else "/" + found[i].path)
    {
      var n := found[k];
      nodes := nodes + [n.(path := if n.path != "" && n.path[0] == '/' then n.path else "/" + n.path)];
      k := k + 1;
    }
  }

  lemma SameNodeNames(a: seq<Node>, b: seq<Node>)
    requires |a| == |b| && forall i | 0 <= i < |a| :: a[i].name == b[i].name
    ensures NodeNames(a) == NodeNames(b)
  {
    forall i | 0 <= i < |a|
      ensures a[i].name in NodeNames(b) && b[i].name in NodeNames(a)
    {
      assert b[i].name in NodeNames(b) && a[i].name in NodeNames(a);
    }
  }

  /** Nodes as the explorer answers them: slashes in front, and a raw node at the root. */
  method ExplorerNodes(found: seq<Node>, ghost prefix: string, atRoot: bool, now: int) returns (nodes: seq<Node>)
    requires DistinctNames(found) && (atRoot ==> prefix == "")
    requires forall i | 0 <= i < |found| :: found[i].path == prefix + found[i].name
    ensures NodeNames(nodes) == NodeNames(found) + if atRoot then {"objects"} else {}
    ensures DistinctNames(nodes) <==> !(atRoot && "objects" in NodeNames(found))
    ensures forall i | 0 <= i < |nodes| :: nodes[i].path == OutPath(prefix, nodes[i].name)
    ensures |nodes| == |found| + if atRoot then 1 else 0
    ensures forall i | 0 <= i < |found| :: nodes[i] == found[i].(path := OutPath(prefix, found[i].name))
    ensures atRoot ==> nodes[|found|] == Node("objects", "/objects", true, 0, now)
  {
    var listed := WithSlashes(found);
    SameNodeNames(listed, found);
    if atRoot {
      RawObjectsDuplicates(listed, now);
      RawObjectsPath(now);
      nodes := listed + [RawObjects(now)];
    } else {
      nodes := listed;
    }
  }

  /**
   The explorer's listing: what the query answered, each path ready to be requested next; up to 5000
   groups these are the children of the requested directory, directories first and by name, each with the
   kind, the size and the latest date of its group. At the root a node for the raw objects directory
   comes last, so the names are distinct except at a root that lists a path under objects.
   */
  method ListDirectory(ghost t: Table, before: (string, string) -> bool, request: string, rows: seq<GroupRow>, now: int)
      returns (nodes: seq<Node>)
    requires QueryAnswer(t, CleanPrefix(request), before, rows)
    ensures
      var p, n := CleanPrefix(request), |nodes| - if request == "/" then 1 else 0;
      && n >= 0 && InOrder(before, nodes[..n]) && NodeNames(nodes[..n]) == RowNames(rows) - {""}
      && (forall i | 0 <= i < n :: Describes(t, p, nodes[i], now))
      && (request == "/" ==> nodes[n] == Node("objects", "/objects", true, 0, now))
    ensures NodeNames(nodes) == RowNames(rows) - {""} + if request == "/" then {"objects"} else {}
    ensures |GroupNames(t, CleanPrefix(request))| <= 5000 ==>
      NodeNames(nodes) == Children(t, CleanPrefix(request)) + if request == "/" then {"objects"} else {}
    ensures DistinctNames(nodes) <==> !(request == "/" && "objects" in RowNames(rows))
    ensures forall i | 0 <= i < |nodes| :: nodes[i].path == OutPath(CleanPrefix(request), nodes[i].name)
  {
    var found := GetVirtualDirectory(t, before, request, rows, now);
    RootPrefix(request);
    ghost var p := CleanPrefix(request);
    NamesAreDistinct(before, found);
    nodes := ExplorerNodes(found, p, request == "/", now);
    Answered(t, before, p, found, nodes, now);
    assert |found| == |nodes| - if request == "/" then 1 else 0;
  }

  lemma RootPrefix(request: string)
    ensures request == "/" ==> CleanPrefix(request) == ""
  {
  }

  lemma NamesAreDistinct(before: (string, string) -> bool, nodes: seq<Node>)
    requires InOrder(before, nodes)
    ensures DistinctNames(nodes)
  {
  }

  /** A slash in front changes nothing else about the nodes found. */
  lemma Answered(t: Table, before: (string, string) -> bool, p: string, found: seq<Node>, nodes: seq<Node>, now: int)
    requires |found| <= |nodes| && InOrder(before, found)
    requires forall i | 0 <= i < |found| :: IsNodeOf(t, p, found[i], now)
    requires forall i | 0 <= i < |found| :: nodes[i] == found[i].(path := OutPath(p, found[i].name))
    ensures InOrder(before, nodes[..|found|]) && NodeNames(nodes[..|found|]) == NodeNames(found)
    ensures forall i | 0 <= i < |found| :: Describes(t, p, nodes[i], now)
  {
    SameNodeNames(nodes[..|found|], found);
  }

  lemma RawObjectsPath(now: int)
    ensures OutPath("", RawObjects(now).name) == RawObjects(now).path
  {
    assert "" + "objects" == "objects";
  }
}
