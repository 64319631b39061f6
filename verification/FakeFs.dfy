/** The shared node table of the fake file system (src/infra/fake_fs_datastore.py) and the
    commands that sessions run against it (src/infra/fake_fs/commands.py). */
module FakeFs {
  import opened Text
  import opened Paths

  // ---------------------------------------------------------- dirname and basename

  /** `rfind("/") + 1`. */
  function AfterLastSlash(p: string): (n: nat)
    ensures n <= |p|
    ensures n > 0 ==> p[n - 1] == '/'
    ensures forall i :: n <= i < |p| ==> p[i] != '/'
  {
    if p == "" then 0 else if p[|p| - 1] == '/' then |p| else AfterLastSlash(p[..|p| - 1])
  }

  function Dirname(p: string): string {
    var head := p[..AfterLastSlash(p)];
    if StripRight(head) == "" then head else StripRight(head)
  }

  function NameOf(p: string): string {
    p[AfterLastSlash(p)..]
  }

  function ParentOf(p: string): string {
    var dir := Dirname(StripRight(p));
    if dir == "" then "/" else dir
  }

  lemma {:induction false} SlashBeforeName(head: string, name: string)
    requires head != "" && head[|head| - 1] == '/' && forall i :: 0 <= i < |name| ==> name[i] != '/'
    ensures AfterLastSlash(head + name) == |head|
  {
    if name == "" {
      assert head + name == head;
    } else {
      assert (head + name)[..|head + name| - 1] == head + name[..|name| - 1];
      SlashBeforeName(head, name[..|name| - 1]);
    }
  }

  /** The last name of a rendered path and the path without it. */
  lemma RenderedParent(parts: seq<string>, name: string)
    requires forall i :: 0 <= i < |parts| ==> IsName(parts[i])
    requires IsName(name)
    ensures var p := Render(parts + [name]);
      ParentOf(p) == Render(parts) && NameOf(p) == name &&
        p == (if parts == [] then "/" else Render(parts) + "/") + name
  {
    var p := Render(parts + [name]);
    assert (parts + [name])[..|parts|] == parts;
    RenderStart(parts + [name]);
    RenderStart(parts);
    var head := if parts == [] then "/" else Render(parts) + "/";
    assert p == head + name;
    assert StripRight(p) == p;
    SlashBeforeName(head, name);
    assert p[..|head|] == head && p[|head|..] == name;
    if parts == [] {
      assert StripRight("/") == "" by { assert "/"[..0] == ""; }
    } else {
      assert head[..|head| - 1] == Render(parts);
      assert StripRight(head) == Render(parts);
    }
  }

  lemma CanonicalParent(p: string)
    requires Canonical(p) && p != "/"
    ensures var ps := Parts(p);
      && ps != [] && Canonical(ParentOf(p)) && Parts(ParentOf(p)) == ps[..|ps| - 1]
      && NameOf(p) == ps[|ps| - 1]
      && p == (if ParentOf(p) == "/" then "/" else ParentOf(p) + "/") + NameOf(p)
  {
    var ps := Parts(p);
    var front := ps[..|ps| - 1];
    assert ps == front + [ps[|ps| - 1]];
    RenderedParent(front, ps[|ps| - 1]);
    RenderIsCanonical(front);
    RenderStart(front);
  }

  // ------------------------------------------------------------------------ table

  datatype Node = Node(parent: Option<string>, name: string, isDir: bool, content: Option<string>)

  type Table = map<string, Node>

  predicate IsDirectory(nodes: Table, p: string) {
    p in nodes && nodes[p].isDir
  }

  /** What `resolve_path(path, "/")` finds. */
  function Resolve(nodes: Table, path: string): Option<Node> {
    var key := LookupKey(path, "/");
    if key in nodes then Some(nodes[key]) else None
  }

  function WithDir(nodes: Table, p: string): Table {
    nodes[p := Node(Some(ParentOf(p)), NameOf(p), true, None)]
  }

  function WithFile(nodes: Table, p: string, content: string): Table {
    nodes[p := Node(Some(ParentOf(p)), NameOf(p), false, Some(content))]
  }

  function Upserted(nodes: Table, p: string, isDir: bool, content: Option<string>): Table {
    nodes[p := if p == "/" then Node(None, "/", isDir, content) else Node(Some(ParentOf(p)), NameOf(p), isDir, content)]
  }

  class FakeFSDataStore {
    var nodes: Table

    constructor (nodes: Table)
      ensures this.nodes == nodes
    {
      this.nodes := nodes;
    }

    method GetNode(p: string) returns (node: Option<Node>)
      ensures node == if p in nodes then Some(nodes[p]) else None
    {
      node := if p in nodes then Some(nodes[p]) else None;
    }

    /** INSERT: the path must be new, or the statement raises. */
    method Mkdir(p: string)
      requires p !in nodes
      modifies this
      ensures nodes == WithDir(old(nodes), p)
    {
      nodes := nodes[p := Node(Some(ParentOf(p)), NameOf(p), true, None)];
    }

    /** INSERT OR REPLACE, as seeding does. */
    method UpsertNode(p: string, isDir: bool, content: Option<string>)
      modifies this
      ensures nodes == Upserted(old(nodes), p, isDir, content)
    {
      var parent := ParentOf(p);
      var name := if p != "/" then NameOf(p) else "/";
      nodes := nodes[p := Node(if p == "/" then None else Some(parent), name, isDir, content)];
    }

    /** INSERT OR REPLACE. */
    method WriteFile(p: string, content: string)
      modifies this
      ensures nodes == WithFile(old(nodes), p, content)
    {
      nodes := nodes[p := Node(Some(ParentOf(p)), NameOf(p), false, Some(content))];
    }
  }

  // --------------------------------------------------------------------- commands

  /** `path.split("||")`. */
  function SplitBars(s: string): (r: seq<string>)
    ensures |r| >= 1
  {
    if s == "" then [""]
    else if "||" <= s then [""] + SplitBars(s[2..])
    else var rest := SplitBars(s[1..]); [[s[0]] + rest[0]] + rest[1..]
  }

  predicate NoBars(s: string) {
    forall i :: 0 <= i < |s| - 1 ==> !(s[i] == '|' && s[i + 1] == '|')
  }

  /** A text without double bars is one piece. */
  lemma {:induction false} NoBarsIsOnePiece(s: string)
    requires NoBars(s)
    ensures SplitBars(s) == [s]
  {
    if s != "" {
      assert !("||" <= s) by { assert |s| > 1 ==> !(s[0] == '|' && s[1] == '|'); }
      NoBarsIsOnePiece(s[1..]);
      assert [s[0]] + s[1..] == s && [s[1..]][1..] == [];
    }
  }

  /** The first double bar ends the first piece. */
  lemma {:induction false} BarsSplit(a: string, b: string)
    requires NoBars(a + "|")
    ensures SplitBars(a + "||" + b) == [a] + SplitBars(b)
  {
    var s := a + "||" + b;
    if a == "" {
      assert s[2..] == b;
    } else {
      assert s[1..] == a[1..] + "||" + b && (a + "|")[1..] == a[1..] + "|";
      assert !("||" <= s) by { assert s[0] == (a + "|")[0] && s[1] == (a + "|")[1]; }
      forall i | 0 <= i < |a[1..] + "|"| - 1
        ensures !((a[1..] + "|")[i] == '|' && (a[1..] + "|")[i + 1] == '|')
      {
        assert (a[1..] + "|")[i] == (a + "|")[i + 1] && (a[1..] + "|")[i + 1] == (a + "|")[i + 2];
      }
      BarsSplit(a[1..], b);
      assert [s[0]] + a[1..] == a;
    }
  }

  /** The first candidate that names a directory. */
  function FirstDirectory(nodes: Table, cwd: string, candidates: seq<string>): Option<string> {
    if candidates == [] then None
    else
      var p := NormalizePath(Strip(candidates[0]), cwd);
      if Resolve(nodes, p).Some? && Resolve(nodes, p).value.isDir then Some(p)
      else FirstDirectory(nodes, cwd, candidates[1..])
  }

  function AfterCd(nodes: Table, cwd: string, path: string): string {
    var found := FirstDirectory(nodes, cwd, SplitBars(path));
    if found.Some? then found.value else cwd
  }

  function AfterMkdir(nodes: Table, cwd: string, path: string): Table {
    var full := NormalizePath(path, cwd);
    var above := Resolve(nodes, Dirname(full));
    if Resolve(nodes, full).Some? || above.None? || !above.value.isDir then nodes else WithDir(nodes, full)
  }

  function Refusal(path: string, taken: bool): string {
    "mkdir: cannot create directory '" + path + "': " + if taken then "File exists" else "No such file or directory"
  }

  function DownloadTarget(cwd: string, url: string): string {
    var pieces := Split(Strip(url));
    NormalizePath(pieces[|pieces| - 1], cwd)
  }

  function AfterDownload(nodes: Table, cwd: string, url: string): Table {
    WithFile(nodes, DownloadTarget(cwd, url), "# downloaded from " + url)
  }

  class Session {
    const fs: FakeFSDataStore
    var cwd: string

    constructor (fs: FakeFSDataStore)
      ensures this.fs == fs && cwd == "/"
    {
      this.fs := fs;
      cwd := "/";
    }

    method HandleCd(path: string) returns (output: string)
      modifies this
      ensures cwd == AfterCd(fs.nodes, old(cwd), path)
      ensures output == if FirstDirectory(fs.nodes, old(cwd), SplitBars(path)).Some? then cwd
        else "cd: no such file or directory: " + path
    {
      hide NormalizePath, LookupKey, Strip, SplitBars;
      var candidates := SplitBars(path);
      ghost var found := FirstDirectory(fs.nodes, cwd, candidates);
      for i := 0 to |candidates|
        invariant cwd == old(cwd) && found == FirstDirectory(fs.nodes, cwd, candidates[i..])
      {
        var newPath := NormalizePath(Strip(candidates[i]), cwd);
        var node := fs.GetNode(LookupKey(newPath, "/"));
        assert candidates[i..][1..] == candidates[i + 1..];
        if node.Some? && node.value.isDir {
          cwd := newPath;
          return newPath;
        }
      }
      output := "cd: no such file or directory: " + path;
    }

    /** Rooted and canonical, so that the row looked up is the row written. */
    method HandleMkdir(path: string) returns (output: string)
      requires Canonical(cwd)
      modifies fs
      ensures fs.nodes == AfterMkdir(old(fs.nodes), cwd, path)
      ensures output ==
        if fs.nodes != old(fs.nodes) then ""
        else
          "mkdir: cannot create directory '" + path + "': "
          + if NormalizePath(path, cwd) in old(fs.nodes) then "File exists" else "No such file or directory"
    {
      hide NormalizePath, LookupKey, Canonical, ParentOf, NameOf, Dirname, Parts;
      var full := NormalizePath(path, cwd);
      NormalizeIsCanonical(path, cwd);
      CanonicalLookup(full);
      var node := fs.GetNode(LookupKey(full, "/"));
      if node.Some? {
        return Refusal(path, true);
      }
      var above := fs.GetNode(LookupKey(Dirname(full), "/"));
      if above.None? || !above.value.isDir {
        return Refusal(path, false);
      }
      fs.Mkdir(full);
      output := "";
    }

    /** The virtual half of a download. */
    method HandleDownload(url: string)
      modifies fs
      ensures fs.nodes == AfterDownload(old(fs.nodes), cwd, url)
    {
      hide NormalizePath, Strip, Split, ParentOf, NameOf;
      var pieces := Split(Strip(url));
      fs.WriteFile(NormalizePath(pieces[|pieces| - 1], cwd), "# downloaded from " + url);
    }
  }

  /** A canonical path is looked up under itself. */
  lemma CanonicalLookup(p: string)
    requires Canonical(p)
    ensures LookupKey(p, "/") == p
  {
    RenderIsCanonical([]);
    RenderStart(Parts(p));
    RenderStart([]);
    LookupAgreesIff(p, "/");
    CanonicalIsFixed(p, "/");
  }

  // ------------------------------------------------------ the commands, spelt out

  /** `cd` with a single path goes there if it is a directory, and nowhere otherwise. */
  lemma CdGoesThere(nodes: Table, cwd: string, path: string)
    requires NoBars(path) && Canonical(cwd)
    ensures var p := NormalizePath(Strip(path), cwd);
      AfterCd(nodes, cwd, path) == if p in nodes && nodes[p].isDir then p else cwd
  {
    hide NormalizePath, LookupKey, Strip, SplitBars, Canonical;
    var p := NormalizePath(Strip(path), cwd);
    NoBarsIsOnePiece(path);
    NormalizeIsCanonical(Strip(path), cwd);
    CanonicalLookup(p);
    assert [path][1..] == [];
    assert FirstDirectory(nodes, cwd, []) == None;
  }

  /** Of several paths between double bars, it goes to the first that is a directory. */
  lemma CdTriesInOrder(nodes: Table, cwd: string, a: string, b: string)
    requires NoBars(a + "|") && Canonical(cwd)
    ensures var p := NormalizePath(Strip(a), cwd);
      AfterCd(nodes, cwd, a + "||" + b) == if p in nodes && nodes[p].isDir then p else AfterCd(nodes, cwd, b)
  {
    hide NormalizePath, LookupKey, Strip, SplitBars, Canonical;
    BarsSplit(a, b);
    NormalizeIsCanonical(Strip(a), cwd);
    CanonicalLookup(NormalizePath(Strip(a), cwd));
    assert ([a] + SplitBars(b))[1..] == SplitBars(b);
  }

  /** `mkdir` of a free path in a directory adds that one row, an empty directory to which
      `cd` goes; any other `mkdir` adds nothing. */
  lemma MkdirMakes(nodes: Table, cwd: string, path: string)
    requires Canonical(cwd)
    ensures var p, next := NormalizePath(path, cwd), AfterMkdir(nodes, cwd, path);
      if p !in nodes && ParentOf(p) in nodes && nodes[ParentOf(p)].isDir then
        && next.Keys == nodes.Keys + {p} && (forall q :: q in nodes ==> next[q] == nodes[q])
        && next[p] == Node(Some(ParentOf(p)), NameOf(p), true, None)
      else next == nodes
  {
    hide NormalizePath, LookupKey, Canonical, ParentOf, NameOf, Dirname, Parts;
    var p := NormalizePath(path, cwd);
    NormalizeIsCanonical(path, cwd);
    CanonicalLookup(p);
    RootsParent();
    if p != "/" {
      CanonicalParent(p);
      DirnameIsParent(p);
      CanonicalLookup(ParentOf(p));
    }
  }

  lemma RootsParent()
    ensures ParentOf("/") == "/" && Dirname("/") == "/"
  {
    assert "/"[..0] == "" && "/"[..1] == "/" && StripRight("") == "" && StripRight("/") == "";
    assert AfterLastSlash("/") == 1 && AfterLastSlash("") == 0;
  }

  /** A download of `.../name` writes the file `name` in the current directory, and nothing
      else. */
  lemma DownloadMakes(nodes: Table, cwd: string, url: string, front: string, name: string)
    requires Canonical(cwd) && Ordinary(name) && Strip(url) == front + "/" + name
    ensures var p, next := (if cwd == "/" then "/" else cwd + "/") + name, AfterDownload(nodes, cwd, url);
      && next.Keys == nodes.Keys + {p} && (forall q :: q in nodes && q != p ==> next[q] == nodes[q])
      && next[p] == Node(Some(cwd), name, false, Some("# downloaded from " + url))
  {
    hide NormalizePath, Canonical, ParentOf, NameOf, Parts, Strip, Render;
    SplitJoined(front, name);
    SplitName(name);
    var ps := Parts(cwd);
    OneName(name, cwd);
    CanonicalNames(cwd);
    RenderedParent(ps, name);
    RootParts(cwd);
    assert NormalizePath(name, cwd) == Render(ps + [name]) by { CanonicalNames(NormalizePath(name, cwd)); }
  }

  /** Seeding a path writes its row, under the directory and the name that make it up; the
      root is its own name and lies nowhere. */
  lemma UpsertMakes(nodes: Table, dir: string, name: string, isDir: bool, content: Option<string>)
    requires Canonical(dir) && Ordinary(name)
    ensures Upserted(nodes, (if dir == "/" then "/" else dir + "/") + name, isDir, content)
      == nodes[(if dir == "/" then "/" else dir + "/") + name := Node(Some(dir), name, isDir, content)]
    ensures Upserted(nodes, "/", isDir, content) == nodes["/" := Node(None, "/", isDir, content)]
  {
    hide Canonical, ParentOf, NameOf, Parts, Render;
    CanonicalNames(dir);
    RootParts(dir);
    RenderedParent(Parts(dir), name);
    RenderBelow(Parts(dir), name);
    assert name[0] != '/';
  }

  // ---------------------------------------------------------------- the invariant

  /** Unique canonical paths, each under an existing directory that its row names, but for
      the files in `orphans`, which may lack that directory. */
  ghost predicate IsTree(nodes: Table, orphans: set<string>) {
    && IsDirectory(nodes, "/") && nodes["/"].parent.None?
    && forall p :: p in nodes && p != "/" ==>
      && Canonical(p) && nodes[p].parent == Some(ParentOf(p)) && nodes[p].name == NameOf(p)
      && (IsDirectory(nodes, ParentOf(p)) || (p in orphans && !nodes[p].isDir))
  }

  predicate Orphan(nodes: Table, p: string) {
    p in nodes && p != "/" && !IsDirectory(nodes, ParentOf(p))
  }

  /** The table and the current directory of every session. */
  datatype World = World(nodes: Table, cwds: map<string, string>)

  function CwdOf(w: World, session: string): string {
    if session in w.cwds then w.cwds[session] else "/"
  }

  ghost predicate Inv(w: World, orphans: set<string>) {
    IsTree(w.nodes, orphans) && forall s :: s in w.cwds ==> Canonical(w.cwds[s]) && IsDirectory(w.nodes, w.cwds[s])
  }

  datatype Command = Cd(path: string) | Ls | MakeDir(path: string) | Download(url: string)

  function Exec(w: World, session: string, command: Command): World {
    var cwd := CwdOf(w, session);
    match command
    case Cd(path) => w.(cwds := w.cwds[session := AfterCd(w.nodes, cwd, path)])
    case Ls => w
    case MakeDir(path) => w.(nodes := AfterMkdir(w.nodes, cwd, path))
    case Download(url) => w.(nodes := AfterDownload(w.nodes, cwd, url))
  }

  /** A command changes the table or the directory of its own session, never both, and no
      other session's. */
  lemma SessionsAreApart(w: World, session: string, command: Command)
    ensures var next := Exec(w, session, command);
      && (command.Cd? || command.Ls? ==> next.nodes == w.nodes)
      && (!command.Cd? ==> next.cwds == w.cwds)
      && forall t :: t != session ==> CwdOf(next, t) == CwdOf(w, t)
  {
    hide AfterCd, AfterMkdir, AfterDownload;
  }

  lemma CwdIsGood(w: World, orphans: set<string>, session: string)
    requires Inv(w, orphans)
    ensures Canonical(CwdOf(w, session)) && IsDirectory(w.nodes, CwdOf(w, session))
  {
    RenderIsCanonical([]);
    RenderStart([]);
  }

  lemma {:induction false} FirstDirectoryIsGood(nodes: Table, cwd: string, candidates: seq<string>)
    requires Canonical(cwd)
    ensures var found := FirstDirectory(nodes, cwd, candidates);
      found.Some? ==> Canonical(found.value) && IsDirectory(nodes, found.value)
  {
    hide LookupKey, NormalizePath, Canonical, Strip;
    if candidates != [] {
      NormalizeIsCanonical(Strip(candidates[0]), cwd);
      CanonicalLookup(NormalizePath(Strip(candidates[0]), cwd));
      FirstDirectoryIsGood(nodes, cwd, candidates[1..]);
    }
  }

  lemma CdIsGood(nodes: Table, cwd: string, path: string)
    requires Canonical(cwd) && IsDirectory(nodes, cwd)
    ensures Canonical(AfterCd(nodes, cwd, path)) && IsDirectory(nodes, AfterCd(nodes, cwd, path))
  {
    hide Canonical, FirstDirectory, SplitBars;
    FirstDirectoryIsGood(nodes, cwd, SplitBars(path));
  }

  lemma MkdirKeepsTree(nodes: Table, orphans: set<string>, cwd: string, path: string)
    requires IsTree(nodes, orphans) && Canonical(cwd)
    ensures IsTree(AfterMkdir(nodes, cwd, path), orphans)
    ensures forall p :: IsDirectory(nodes, p) ==> IsDirectory(AfterMkdir(nodes, cwd, path), p)
  {
    hide NormalizePath, LookupKey, Canonical, ParentOf, NameOf, Dirname, Parts;
    var full := NormalizePath(path, cwd);
    NormalizeIsCanonical(path, cwd);
    CanonicalLookup(full);
    if full != "/" {
      CanonicalParent(full);
      DirnameIsParent(full);
      CanonicalLookup(ParentOf(full));
    }
  }

  lemma DirnameIsParent(p: string)
    requires Canonical(p) && p != "/"
    ensures Dirname(p) == ParentOf(p)
  {
    RenderStart(Parts(p));
    assert StripRight(p) == p;
    CanonicalParent(p);
  }

  lemma DirKeepsTree(nodes: Table, orphans: set<string>, p: string)
    requires IsTree(nodes, orphans) && Canonical(p) && p !in nodes && IsDirectory(nodes, ParentOf(p))
    ensures IsTree(WithDir(nodes, p), orphans)
  {
    hide Canonical, ParentOf, NameOf;
    assert forall q :: IsDirectory(nodes, q) ==> IsDirectory(WithDir(nodes, p), q);
  }

  lemma EmptyIsTree()
    ensures IsTree(map["/" := Node(None, "/", true, None)], {})
  {
  }

  lemma ChildOfRoot(name: string)
    requires Ordinary(name)
    ensures Canonical("/" + name) && ParentOf("/" + name) == "/" && "/" + name != "/"
  {
    hide Parts;
    RenderedParent([], name);
    RenderIsCanonical([name]);
    assert [] + [name] == [name];
  }

  datatype Seed = Seed(path: string, isDir: bool, content: Option<string>)

  /** A seeded directory has one to stand in, and a seeded file replaces none. */
  ghost predicate GoodSeed(nodes: Table, seed: Seed) {
    && Canonical(seed.path)
    && if seed.path == "/" then seed.isDir
       else if seed.isDir then IsDirectory(nodes, ParentOf(seed.path))
       else !IsDirectory(nodes, seed.path)
  }

  /** The path of a seeded file that has no directory. */
  function Orphaned(nodes: Table, seed: Seed): set<string> {
    if seed.path != "/" && !seed.isDir && !IsDirectory(nodes, ParentOf(seed.path)) then {seed.path} else {}
  }

  /** Seeding a row keeps the tree, and adds a file to the orphans if it has no directory. */
  lemma SeedKeepsTree(nodes: Table, orphans: set<string>, seed: Seed)
    requires IsTree(nodes, orphans) && GoodSeed(nodes, seed)
    ensures IsTree(Upserted(nodes, seed.path, seed.isDir, seed.content), orphans + Orphaned(nodes, seed))
  {
    hide Canonical, ParentOf, NameOf;
    var next := Upserted(nodes, seed.path, seed.isDir, seed.content);
    assert forall q :: IsDirectory(nodes, q) ==> IsDirectory(next, q);
  }

  /** The profile's nodes, upserted in order. */
  function Seeded(nodes: Table, seeds: seq<Seed>): Table {
    if seeds == [] then nodes
    else
      var last := seeds[|seeds| - 1];
      Upserted(Seeded(nodes, seeds[..|seeds| - 1]), last.path, last.isDir, last.content)
  }

  /** So the seeded start is a tree whose orphans are seeded files. */
  lemma {:induction false} SeededIsTree(nodes: Table, orphans: set<string>, seeds: seq<Seed>)
    requires IsTree(nodes, orphans)
    requires forall i :: 0 <= i < |seeds| ==> GoodSeed(Seeded(nodes, seeds[..i]), seeds[i])
    ensures IsTree(Seeded(nodes, seeds), orphans + set seed | seed in seeds && !seed.isDir :: seed.path)
  {
    hide IsTree, GoodSeed, Upserted;
    if seeds == [] {
      assert orphans + (set seed | seed in seeds && !seed.isDir :: seed.path) == orphans;
    } else {
      var front, last := seeds[..|seeds| - 1], seeds[|seeds| - 1];
      forall i | 0 <= i < |front| ensures front[..i] == seeds[..i] {}
      SeededIsTree(nodes, orphans, front);
      var before := orphans + set seed | seed in front && !seed.isDir :: seed.path;
      SeedKeepsTree(Seeded(nodes, front), before, last);
      assert last in seeds && forall seed :: seed in front ==> seed in seeds;
      MoreOrphans(Seeded(nodes, seeds), before + Orphaned(Seeded(nodes, front), last),
                  orphans + set seed | seed in seeds && !seed.isDir :: seed.path);
    }
  }

  lemma MoreOrphans(nodes: Table, orphans: set<string>, more: set<string>)
    requires IsTree(nodes, orphans) && orphans <= more
    ensures IsTree(nodes, more)
  {
    hide Canonical, ParentOf, NameOf;
  }

  /** A download leaves the world sound exactly when its target is not the root, nor a
      directory in which a session stands or that has an entry other than an allowed orphan. */
  ghost predicate Safe(w: World, orphans: set<string>, target: string) {
    && target != "/"
    && (IsDirectory(w.nodes, target) ==>
      && (forall p :: p in w.nodes && p != "/" && ParentOf(p) == target ==> p in orphans && !w.nodes[p].isDir)
      && (forall s :: s in w.cwds ==> w.cwds[s] != target))
  }

  lemma DownloadIsSoundIff(w: World, orphans: set<string>, session: string, url: string)
    requires Inv(w, orphans)
    ensures Inv(Exec(w, session, Download(url)), orphans) <==> Safe(w, orphans, DownloadTarget(CwdOf(w, session), url))
  {
    hide DownloadTarget, NormalizePath, LookupKey, Canonical, ParentOf, NameOf, Dirname, Parts, Split, Strip, Ordinary;
    var cwd := CwdOf(w, session);
    var target := DownloadTarget(cwd, url);
    var nodes := AfterDownload(w.nodes, cwd, url);
    CwdIsGood(w, orphans, session);
    TargetIsGood(w.nodes, orphans, cwd, url);
    if Safe(w, orphans, target) {
      forall p | p in nodes && p != "/"
        ensures Canonical(p) && (IsDirectory(nodes, ParentOf(p)) || (p in orphans && !nodes[p].isDir))
      {
        if p == target { CanonicalParent(p); }
      }
    } else if target != "/" && IsDirectory(w.nodes, target) {
      UnsafeBreaks(w, orphans, target, "# downloaded from " + url);
    }
  }

  lemma UnsafeBreaks(w: World, orphans: set<string>, target: string, content: string)
    requires Inv(w, orphans) && !Safe(w, orphans, target) && target != "/"
    ensures !Inv(w.(nodes := WithFile(w.nodes, target, content)), orphans)
  {
    hide Canonical, ParentOf, NameOf;
    var nodes := WithFile(w.nodes, target, content);
    if p :| p in w.nodes && p != "/" && ParentOf(p) == target && !(p in orphans && !w.nodes[p].isDir) {
      if p == target { CanonicalParent(p); }
      assert p in nodes && !IsDirectory(nodes, ParentOf(p));
    }
  }

  /** The target of a download lies in the current directory, or is it or its parent. */
  lemma TargetIsGood(nodes: Table, orphans: set<string>, cwd: string, url: string)
    requires IsTree(nodes, orphans) && Canonical(cwd) && IsDirectory(nodes, cwd)
    ensures var target, pieces := DownloadTarget(cwd, url), Split(Strip(url));
      var name := pieces[|pieces| - 1];
      && Canonical(target)
      && (target != "/" ==> IsDirectory(nodes, ParentOf(target)))
      && (Ordinary(name) ==> target != "/" && ParentOf(target) == cwd && NameOf(target) == name)
      && (name == "" || name == "." ==> target == cwd)
      && (name == ".." ==> target == if cwd == "/" then "/" else ParentOf(cwd))
      && (Ordinary(name) || name in {"", ".", ".."})
  {
    hide NormalizePath, Canonical, ParentOf, NameOf, Parts, Split, Strip;
    var pieces := Split(Strip(url));
    var name, ps := pieces[|pieces| - 1], Parts(cwd);
    var target := NormalizePath(name, cwd);
    PartsAreNames(Strip(url));
    OneName(name, cwd);
    RootParts(cwd);
    RootParts(target);
    if cwd != "/" { CanonicalParent(cwd); }
    if target != "/" { CanonicalParent(target); }
    SameParts(target, cwd);
    if name == ".." && cwd != "/" { SameParts(target, ParentOf(cwd)); }
    if Ordinary(name) { SameParts(ParentOf(target), cwd); }
  }

  lemma SameParts(a: string, b: string)
    requires Canonical(a) && Canonical(b)
    ensures Parts(a) == Parts(b) <==> a == b
  {
  }

  /** An ordinary file name that names no directory is safe; the names of navigation never
      are. */
  lemma OrdinaryNamesAreSafe(w: World, orphans: set<string>, session: string, url: string)
    requires Inv(w, orphans)
    ensures var target, pieces := DownloadTarget(CwdOf(w, session), url), Split(Strip(url));
      var name := pieces[|pieces| - 1];
      && (Ordinary(name) && !IsDirectory(w.nodes, target) ==> Safe(w, orphans, target))
      && (name in {"", ".", ".."} ==> !Safe(w, orphans, target))
  {
    hide DownloadTarget, NormalizePath, LookupKey, Canonical, ParentOf, NameOf, Dirname, Parts, Split, Strip, Ordinary;
    var cwd := CwdOf(w, session);
    CwdIsGood(w, orphans, session);
    TargetIsGood(w.nodes, orphans, cwd, url);
    assert session in w.cwds ==> w.cwds[session] == cwd;
    assert cwd in w.nodes;
  }

  lemma ExecKeepsInv(w: World, orphans: set<string>, session: string, command: Command)
    requires Inv(w, orphans)
    ensures Inv(Exec(w, session, command), orphans) <==>
      command.Download? ==> Safe(w, orphans, DownloadTarget(CwdOf(w, session), command.url))
  {
    hide AfterCd, AfterMkdir, Canonical, DownloadTarget, Safe;
    var cwd := CwdOf(w, session);
    CwdIsGood(w, orphans, session);
    match command
    case Cd(path) => CdIsGood(w.nodes, cwd, path);
    case Ls =>
    case MakeDir(path) => MkdirKeepsTree(w.nodes, orphans, cwd, path);
    case Download(url) => DownloadIsSoundIff(w, orphans, session, url);
  }

  type Steps = seq<(string, Command)>

  function Run(w: World, steps: Steps): World {
    if steps == [] then w
    else
      var (session, command) := steps[|steps| - 1];
      Exec(Run(w, steps[..|steps| - 1]), session, command)
  }

  ghost predicate SafeRun(w: World, orphans: set<string>, steps: Steps) {
    forall i :: 0 <= i < |steps| && steps[i].1.Download? ==>
      var before := Run(w, steps[..i]);
      Safe(before, orphans, DownloadTarget(CwdOf(before, steps[i].0), steps[i].1.url))
  }

  ghost predicate AlwaysSound(w: World, orphans: set<string>, steps: Steps) {
    forall n :: 0 <= n <= |steps| ==> Inv(Run(w, steps[..n]), orphans)
  }

  /** However sessions interleave, the shared table stays a tree without new orphans and
      every current directory stays canonical and an existing directory, all along the run,
      exactly when every download is safe. */
  lemma {:induction false} RunsStayTreesIff(w: World, orphans: set<string>, steps: Steps)
    requires Inv(w, orphans)
    ensures AlwaysSound(w, orphans, steps) <==> SafeRun(w, orphans, steps)
  {
    hide Inv, Safe, Exec, DownloadTarget;
    if steps == [] {
      assert steps[..0] == [] && Run(w, []) == w;
    } else {
      var front, last := steps[..|steps| - 1], steps[|steps| - 1];
      RunsStayTreesIff(w, orphans, front);
      forall i | 0 <= i <= |front| ensures front[..i] == steps[..i] {}
      assert steps[..|steps|] == steps && front[..|front|] == front;
      if AlwaysSound(w, orphans, front) {
        assert Inv(Run(w, front[..|front|]), orphans);
        ExecKeepsInv(Run(w, front), orphans, last.0, last.1);
      }
      SoundStep(w, orphans, steps);
      SafeStep(w, orphans, steps);
    }
  }

  lemma SoundStep(w: World, orphans: set<string>, steps: Steps)
    requires steps != []
    ensures AlwaysSound(w, orphans, steps) <==>
      AlwaysSound(w, orphans, steps[..|steps| - 1]) && Inv(Run(w, steps), orphans)
  {
    hide Inv, Run;
    var front := steps[..|steps| - 1];
    forall i | 0 <= i <= |front| ensures front[..i] == steps[..i] {}
    assert steps[..|steps|] == steps;
    if AlwaysSound(w, orphans, steps) {
      forall n | 0 <= n <= |front| ensures Inv(Run(w, front[..n]), orphans) { assert Inv(Run(w, steps[..n]), orphans); }
      assert Inv(Run(w, steps[..|steps|]), orphans);
    }
    if AlwaysSound(w, orphans, front) && Inv(Run(w, steps), orphans) {
      forall n | 0 <= n <= |steps| ensures Inv(Run(w, steps[..n]), orphans) {
        if n < |steps| { assert Inv(Run(w, front[..n]), orphans); }
      }
    }
  }

  lemma SafeStep(w: World, orphans: set<string>, steps: Steps)
    requires steps != []
    ensures var front, last := steps[..|steps| - 1], steps[|steps| - 1];
      SafeRun(w, orphans, steps) <==> (
        && SafeRun(w, orphans, front)
        && (last.1.Download? ==>
          Safe(Run(w, front), orphans, DownloadTarget(CwdOf(Run(w, front), last.0), last.1.url))))
  {
    hide Safe, Run, DownloadTarget, CwdOf;
    var front := steps[..|steps| - 1];
    forall i | 0 <= i < |front| ensures front[..i] == steps[..i] && front[i] == steps[i] {}
    assert steps[..|front|] == front;
  }
}
