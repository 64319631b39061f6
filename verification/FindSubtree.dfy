/** `list_subtree` with its LIKE pattern (src/infra/fake_fs_datastore.py) against the walk
    by `list_dir`, and the listing that `find` prints (src/infra/fake_fs_data_handler.py). */
module FindSubtree {
  import opened Text
  import opened Paths
  import opened FakeFs
  import opened Ordering

  // ------------------------------------------------------------------------- LIKE

  /** LIKE ignores the case of ASCII letters only. */
  function Fold(c: char): char {
    if 'A' <= c <= 'Z' then (c as int + 32) as char else c
  }

  /** Two characters are alike when they are equal or one letter of ASCII in its two cases. */
  lemma FoldsAlikeIff(c: char, d: char)
    ensures Fold(c) == Fold(d) <==>
      || c == d
      || ('A' <= c <= 'Z' && d as int == c as int + 32)
      || ('A' <= d <= 'Z' && c as int == d as int + 32)
  {
  }

  /** `s LIKE pattern`, without an escape character. */
  predicate Like(pattern: string, s: string)
    decreases |pattern| + |s|
  {
    if pattern == "" then s == ""
    else if pattern[0] == '%' then Like(pattern[1..], s) || (s != "" && Like(pattern, s[1..]))
    else s != "" && (pattern[0] == '_' || Fold(pattern[0]) == Fold(s[0])) && Like(pattern[1..], s[1..])
  }

  predicate FoldEqual(a: string, b: string) {
    |a| == |b| && forall i :: 0 <= i < |a| ==> Fold(a[i]) == Fold(b[i])
  }

  predicate Wildcards(s: string) {
    exists i :: 0 <= i < |s| && (s[i] == '%' || s[i] == '_')
  }

  function ListSubtree(nodes: Table, root: string): set<string> {
    if root == "/" then nodes.Keys
    else set p | p in nodes && (p == root || Like(StripRight(root) + "/%", p))
  }

  lemma {:induction false} LikeAnything(s: string)
    ensures Like("%", s)
    decreases |s|
  {
    if s == "" { assert "%"[1..] == ""; } else { LikeAnything(s[1..]); }
  }

  /** A text matches itself, wildcards included, before whatever matches the rest. */
  lemma {:induction false} LikeItself(x: string, pattern: string, s: string)
    requires Like(pattern, s)
    ensures Like(x + pattern, x + s)
  {
    if x == "" {
      assert x + pattern == pattern && x + s == s;
    } else {
      var p, t := x + pattern, x + s;
      assert p[1..] == x[1..] + pattern && t[1..] == x[1..] + s;
      LikeItself(x[1..], pattern, s);
      assert p[0] == '%' ==> Like(p, t[1..]) by { if p[0] == '%' { LikeWildcard(p, t[1..]); } }
    }
  }

  lemma LikeWildcard(pattern: string, s: string)
    requires pattern != "" && pattern[0] == '%' && Like(pattern[1..], s)
    ensures Like(pattern, s)
  {
  }

  lemma {:induction false} LikeAppend(x: string, a: string, y: string, b: string)
    requires Like(x, a) && Like(y, b)
    ensures Like(x + y, a + b)
    decreases |x| + |a|
  {
    if x == "" {
      assert x + y == y && a + b == b;
    } else {
      assert (x + y)[1..] == x[1..] + y && (a != "" ==> (a + b)[1..] == a[1..] + b);
      if x[0] == '%' && Like(x[1..], a) {
        LikeAppend(x[1..], a, y, b);
        LikeWildcard(x + y, a + b);
      } else if x[0] == '%' {
        LikeAppend(x, a[1..], y, b);
      } else {
        LikeAppend(x[1..], a[1..], y, b);
      }
    }
  }

  /** What matches `x/%` has a slash behind something that matches `x`. */
  lemma {:induction false} LikeCut(x: string, s: string) returns (k: nat)
    requires Like(x + "/%", s)
    ensures k < |s| && s[k] == '/' && Like(x, s[..k])
    decreases |x| + |s|
  {
    var p := x + "/%";
    if x == "" {
      assert p == "/%";
      assert Fold('/') == Fold(s[0]) <==> s[0] == '/';
      k := 0;
    } else {
      assert p[1..] == x[1..] + "/%";
      if x[0] == '%' && Like(p[1..], s) {
        k := LikeCut(x[1..], s);
        LikeWildcard(x, s[..k]);
      } else {
        k := LikeCut(if x[0] == '%' then x else x[1..], s[1..]);
        k := k + 1;
        assert s[..k][1..] == s[1..][..k - 1];
      }
    }
  }

  /** Without wildcards a pattern asks for its case variants. */
  lemma {:induction false} LikeLiteral(x: string, s: string)
    requires !Wildcards(x)
    ensures Like(x, s) <==> FoldEqual(x, s)
  {
    if x != "" && s != "" {
      assert x[0] != '%' && x[0] != '_';
      assert !Wildcards(x[1..]) by {
        forall i | 0 <= i < |x[1..]| ensures x[1..][i] != '%' && x[1..][i] != '_' { assert x[1..][i] == x[i + 1]; }
      }
      LikeLiteral(x[1..], s[1..]);
      FoldEqualCons(x, s);
    }
  }

  lemma FoldEqualCons(a: string, b: string)
    requires a != "" && b != ""
    ensures FoldEqual(a, b) <==> Fold(a[0]) == Fold(b[0]) && FoldEqual(a[1..], b[1..])
  {
    if Fold(a[0]) == Fold(b[0]) && FoldEqual(a[1..], b[1..]) {
      forall i | 0 <= i < |a| ensures Fold(a[i]) == Fold(b[i]) {
        if i > 0 { assert a[i] == a[1..][i - 1] && b[i] == b[1..][i - 1]; }
      }
    }
  }

  // --------------------------------------------------------------------- the walk

  function ListDir(nodes: Table, dir: string): set<string> {
    set p | p in nodes && nodes[p].parent == Some(dir)
  }

  /** What `n` rounds of listing directories reach from `root`. */
  function Reached(nodes: Table, root: string, n: nat): set<string> {
    if n == 0 then {root}
    else
      var before := Reached(nodes, root, n - 1);
      before + set dir, p | dir in before && IsDirectory(nodes, dir) && p in ListDir(nodes, dir) :: p
  }

  ghost predicate Reachable(nodes: Table, root: string, p: string) {
    exists n: nat :: p in Reached(nodes, root, n)
  }

  /** What every path strictly below `root` begins with. */
  function Below(root: string): string {
    if root == "/" then "/" else root + "/"
  }

  /** What a tree says of one node. */
  lemma NodeFacts(nodes: Table, orphans: set<string>, p: string)
    requires IsTree(nodes, orphans)
    ensures IsDirectory(nodes, "/") && nodes["/"].parent.None?
    ensures p in nodes && p != "/" ==>
      var dir := ParentOf(p);
      && nodes[p].parent == Some(dir)
      && p == Below(dir) + NameOf(p) && |dir| < |p| && "/" <= dir
      && forall i :: 0 <= i < |NameOf(p)| ==> NameOf(p)[i] != '/'
    ensures p in nodes && p != "/" ==> |p| > 1 && p[0] == '/' && p[1] != '/' && p[|p| - 1] != '/'
  {
    if p in nodes && p != "/" {
      CanonicalParent(p);
      var ps := Parts(p);
      RenderStart(ps);
      assert Ordinary(ps[|ps| - 1]);
    }
  }

  lemma {:induction false} ReachedIsBelow(nodes: Table, orphans: set<string>, root: string, n: nat, p: string)
    requires IsTree(nodes, orphans) && root in nodes && p in Reached(nodes, root, n)
    ensures p in nodes && (p == root || (Below(root) <= p && !Orphan(nodes, p)))
  {
    hide IsTree, ParentOf, NameOf;
    if n > 0 && p !in Reached(nodes, root, n - 1) {
      var dir :| dir in Reached(nodes, root, n - 1) && IsDirectory(nodes, dir) && p in ListDir(nodes, dir);
      ReachedIsBelow(nodes, orphans, root, n - 1, dir);
      NodeFacts(nodes, orphans, p);
    } else if n > 0 {
      ReachedIsBelow(nodes, orphans, root, n - 1, p);
    }
  }

  /** Cutting a path below `root` at its last slash gives `root` or a path below it. */
  lemma CutAtLastSlash(root: string, dir: string, name: string)
    requires forall i :: 0 <= i < |name| ==> name[i] != '/'
    requires Below(root) <= Below(dir) + name
    requires root != "" && dir != ""
    ensures dir == root || Below(root) <= dir
  {
    var p, b := Below(dir) + name, Below(root);
    assert b[|b| - 1] == '/' && p[..|b|] == b && p[|b| - 1] == '/';
    assert forall i :: |Below(dir)| <= i < |p| ==> p[i] == name[i - |Below(dir)|];
    assert |b| <= |Below(dir)|;
    if |b| == |Below(dir)| {
      assert b == Below(dir);
      assert b[..|root|] == root && b[..|dir|] == dir;
    } else {
      assert b <= dir;
    }
  }

  lemma {:induction false} BelowIsReached(nodes: Table, orphans: set<string>, root: string, p: string) returns (n: nat)
    requires IsTree(nodes, orphans) && root in nodes
    requires p in nodes && (p == root || (Below(root) <= p && !Orphan(nodes, p)))
    ensures p in Reached(nodes, root, n)
    decreases |p|
  {
    hide ParentOf, NameOf, Canonical;
    if p == root {
      n := 0;
    } else {
      NodeFacts(nodes, orphans, p);
      NodeFacts(nodes, orphans, root);
      var dir := ParentOf(p);
      CutAtLastSlash(root, dir, NameOf(p));
      var m := BelowIsReached(nodes, orphans, root, dir);
      assert p in ListDir(nodes, dir);
      n := m + 1;
    }
  }

  /** In a tree, listing directories reaches exactly `root` and the paths below it that are
      not orphans. */
  lemma ReachableIff(nodes: Table, orphans: set<string>, root: string, p: string)
    requires IsTree(nodes, orphans) && root in nodes
    ensures Reachable(nodes, root, p) <==> p in nodes && (p == root || (Below(root) <= p && !Orphan(nodes, p)))
  {
    hide IsTree, Orphan;
    if Reachable(nodes, root, p) {
      var n: nat :| p in Reached(nodes, root, n);
      ReachedIsBelow(nodes, orphans, root, n, p);
    }
    if p in nodes && (p == root || (Below(root) <= p && !Orphan(nodes, p))) {
      var n := BelowIsReached(nodes, orphans, root, p);
    }
  }

  // ------------------------------------------------------------ list_subtree and walk

  lemma RootPattern(nodes: Table, orphans: set<string>, root: string)
    requires IsTree(nodes, orphans) && root in nodes && root != "/"
    ensures StripRight(root) == root && Below(root) == root + "/"
  {
    RenderStart(Parts(root));
  }

  /** `root`, and whatever row lies below it. */
  predicate Under(nodes: Table, root: string, p: string) {
    p in nodes && (p == root || Below(root) <= p)
  }

  /** What lies under `root` is what the walk reaches, and the orphans below it. */
  lemma UnderIsWalkAndOrphans(nodes: Table, orphans: set<string>, root: string, p: string)
    requires IsTree(nodes, orphans) && root in nodes
    ensures Under(nodes, root, p) <==> Reachable(nodes, root, p) || (Orphan(nodes, p) && Below(root) <= p)
  {
    hide IsTree, Reachable;
    ReachableIff(nodes, orphans, root, p);
  }

  /** `list_subtree` never misses what lies under the root, whatever the names. */
  lemma SubtreeCoversWalk(nodes: Table, orphans: set<string>, root: string, p: string)
    requires IsTree(nodes, orphans) && root in nodes && Under(nodes, root, p)
    ensures p in ListSubtree(nodes, root)
  {
    hide IsTree, Like, StripRight;
    if root != "/" && p != root {
      RootPattern(nodes, orphans, root);
      var x, tail := root + "/", p[|root| + 1..];
      assert p == x + tail;
      LikeAnything(tail);
      LikeItself(x, "%", tail);
      assert x + "%" == root + "/%";
    }
  }

  /** `root`, read as a pattern, matches the path `dir`, and below that lies a row that does
      not lie under `root`. */
  ghost predicate Stray(nodes: Table, root: string, dir: string) {
    Like(root, dir) && exists p :: p in nodes && dir + "/" <= p && !Under(nodes, root, p)
  }

  /** `list_subtree` returns exactly the walk and the orphans below the root if and only if
      there is no such path. */
  lemma SubtreeIsWalkIff(nodes: Table, orphans: set<string>, root: string)
    requires IsTree(nodes, orphans) && root in nodes
    ensures (forall p :: p in ListSubtree(nodes, root) <==>
      Reachable(nodes, root, p) || (Orphan(nodes, p) && Below(root) <= p))
      <==> !exists dir :: Stray(nodes, root, dir)
  {
    hide IsTree, Reachable, Like, Under, Orphan;
    if dir :| Stray(nodes, root, dir) {
      var p :| p in nodes && dir + "/" <= p && !Under(nodes, root, p);
      StrayEntry(nodes, orphans, root, dir, p);
      UnderIsWalkAndOrphans(nodes, orphans, root, p);
    } else {
      forall p
        ensures p in ListSubtree(nodes, root) <==> Reachable(nodes, root, p) || (Orphan(nodes, p) && Below(root) <= p)
      {
        UnderIsWalkAndOrphans(nodes, orphans, root, p);
        if Under(nodes, root, p) { SubtreeCoversWalk(nodes, orphans, root, p); }
        else if p in ListSubtree(nodes, root) { var dir := StrayPath(nodes, orphans, root, p); }
      }
    }
  }

  lemma EntryMatches(root: string, dir: string, name: string)
    requires Like(root, dir)
    ensures Like(root + "/%", dir + "/" + name)
  {
    hide Like;
    LikeAnything(name);
    LikeItself("/", "%", name);
    assert "/" + "%" == "/%";
    LikeAppend(root, dir, "/%", "/" + name);
    assert dir + ("/" + name) == dir + "/" + name;
  }

  lemma StrayEntry(nodes: Table, orphans: set<string>, root: string, dir: string, p: string)
    requires IsTree(nodes, orphans) && root in nodes
    requires Like(root, dir) && p in nodes && dir + "/" <= p && !Under(nodes, root, p)
    ensures p in ListSubtree(nodes, root)
  {
    hide IsTree, Like, StripRight;
    if root != "/" {
      RootPattern(nodes, orphans, root);
      EntryMatches(root, dir, p[|dir| + 1..]);
      assert p == dir + "/" + p[|dir| + 1..];
    }
  }

  lemma StrayPath(nodes: Table, orphans: set<string>, root: string, p: string) returns (dir: string)
    requires IsTree(nodes, orphans) && root in nodes
    requires p in ListSubtree(nodes, root) && !Under(nodes, root, p)
    ensures Stray(nodes, root, dir)
  {
    hide IsTree, Like, StripRight;
    if root == "/" {
      NodeFacts(nodes, orphans, p);
      assert false;
    } else {
      RootPattern(nodes, orphans, root);
      var k := LikeCut(root, p);
      dir := p[..k];
      assert dir + "/" <= p;
    }
  }

  /** For a root without `%` and `_`, these are the other paths that differ from it in case
      only and that some row lies below. */
  lemma PlainStrayIff(nodes: Table, orphans: set<string>, root: string, dir: string)
    requires IsTree(nodes, orphans) && root in nodes && root != "/" && !Wildcards(root)
    ensures Stray(nodes, root, dir) <==> dir != root && FoldEqual(root, dir) && exists p :: p in nodes && dir + "/" <= p
  {
    hide IsTree, Like, StripRight;
    LikeLiteral(root, dir);
    RootPattern(nodes, orphans, root);
    if dir != root && FoldEqual(root, dir) && exists p :: p in nodes && dir + "/" <= p {
      var p :| p in nodes && dir + "/" <= p;
      assert (dir + "/")[..|root|] == dir;
      assert p[..|root|] == dir && Below(root)[..|root|] == root;
    }
  }

  /** Every leading piece of a path that ends before a slash is a directory, one of whose
      entries leads to the path. */
  lemma {:induction false} AncestorHasEntry(nodes: Table, p: string, k: nat) returns (entry: string)
    requires IsTree(nodes, {}) && p in nodes && 0 < k < |p| && p[k] == '/'
    ensures IsDirectory(nodes, p[..k]) && entry in ListDir(nodes, p[..k]) && (entry == p || Below(entry) <= p)
    decreases |p|
  {
    hide ParentOf, NameOf, Canonical;
    NodeFacts(nodes, {}, p);
    var dir := ParentOf(p);
    assert IsDirectory(nodes, dir);
    assert forall i :: |Below(dir)| <= i < |p| ==> p[i] == NameOf(p)[i - |Below(dir)|];
    if k == |dir| {
      assert p[..k] == dir;
      entry := p;
    } else {
      assert k < |dir| && p[..k] == dir[..k] && dir[k] == p[k];
      entry := AncestorHasEntry(nodes, dir, k);
    }
  }

  lemma SlashIsLiteral(root: string)
    requires root != "" && root[0] == '/'
    ensures !Like(root, "")
  {
  }

  /** Without orphans, such a path is a directory that holds an entry. */
  lemma StrayIsDirectory(nodes: Table, root: string, dir: string)
    requires IsTree(nodes, {}) && root in nodes && Stray(nodes, root, dir)
    ensures IsDirectory(nodes, dir) && ListDir(nodes, dir) != {}
  {
    hide IsTree, Like, Under, ListDir, IsDirectory;
    NodeFacts(nodes, {}, root);
    SlashIsLiteral(root);
    var p :| p in nodes && dir + "/" <= p && !Under(nodes, root, p);
    RowBelowDirectory(nodes, dir, p);
  }

  lemma RowBelowDirectory(nodes: Table, dir: string, p: string)
    requires IsTree(nodes, {}) && p in nodes && dir != "" && dir + "/" <= p
    ensures IsDirectory(nodes, dir) && ListDir(nodes, dir) != {}
  {
    hide IsTree;
    NodeFacts(nodes, {}, p);
    assert (dir + "/")[..|dir|] == dir && (dir + "/")[|dir|] == '/';
    assert p[..|dir|] == dir && p[|dir|] == '/';
    var entry := AncestorHasEntry(nodes, p, |dir|);
  }

  /** An empty file system with two directories, the second of which then gets a file. */
  function Twins(a: string, b: string, file: string): Table {
    WithFile(WithDir(WithDir(map["/" := Node(None, "/", true, None)], "/" + a), "/" + b), "/" + b + "/" + file, "")
  }

  lemma GrandchildOfRoot(dir: string, name: string)
    requires Ordinary(dir) && Ordinary(name)
    ensures Canonical("/" + dir + "/" + name) && ParentOf("/" + dir + "/" + name) == "/" + dir
  {
    hide Parts;
    RenderedParent([], dir);
    RenderedParent([dir], name);
    RenderIsCanonical([dir, name]);
    assert [] + [dir] == [dir] && [dir] + [name] == [dir, name];
  }

  lemma TwinsAreTree(a: string, b: string, file: string)
    requires Ordinary(a) && Ordinary(b) && Ordinary(file) && a != b
    ensures IsTree(Twins(a, b, file), {})
  {
    hide Canonical, ParentOf, NameOf, Ordinary, IsTree, Parts, WithDir;
    ChildOfRoot(a);
    ChildOfRoot(b);
    GrandchildOfRoot(b, file);
    assert ("/" + a)[1..] == a && ("/" + b)[1..] == b;
    var p, q, r := "/" + a, "/" + b, "/" + b + "/" + file;
    TwoDirectories(p, q);
    var two := WithDir(WithDir(map["/" := Node(None, "/", true, None)], p), q);
    FileIsNoDirectory(two, a, b, file);
    var seed := Seed(r, false, Some(""));
    assert GoodSeed(two, seed) && Orphaned(two, seed) == {};
    SeedKeepsTree(two, {}, seed);
    assert {} + Orphaned(two, seed) == {} && Upserted(two, r, false, Some("")) == Twins(a, b, file);
  }

  lemma TwoDirectories(p: string, q: string)
    requires Canonical(p) && Canonical(q) && ParentOf(p) == ParentOf(q) == "/" && p != q && p != "/" && q != "/"
    ensures var two := WithDir(WithDir(map["/" := Node(None, "/", true, None)], p), q);
      IsTree(two, {}) && two.Keys == {"/", p, q} && IsDirectory(two, q)
  {
    hide Canonical, ParentOf, NameOf, IsTree;
    var empty: Table := map["/" := Node(None, "/", true, None)];
    EmptyIsTree();
    DirKeepsTree(empty, {}, p);
    DirKeepsTree(WithDir(empty, p), {}, q);
  }

  lemma FileIsNoDirectory(nodes: Table, a: string, b: string, file: string)
    requires Ordinary(a) && nodes.Keys == {"/", "/" + a, "/" + b}
    ensures "/" + b + "/" + file !in nodes && "/" + b + "/" + file != "/"
  {
    var p := "/" + b + "/" + file;
    assert p[|b| + 1] == '/' && |p| > |"/" + b| && |p| > 1;
    assert |a| > |b| ==> ("/" + a)[|b| + 1] == a[|b|] != '/';
  }

  lemma TwinPaths(a: string, b: string, file: string)
    requires |a| == |b| && a != b && a != ""
    ensures var root, dir, p := "/" + a, "/" + b, "/" + b + "/" + file;
      && p[..|root|] == dir && dir + "/" <= p && |p| > |root| && !(Below(root) <= p) && root != dir
  {
    var root, dir, p := "/" + a, "/" + b, "/" + b + "/" + file;
    assert p[..|root|] == dir && dir[1..] == b && root[1..] == a;
    assert Below(root)[..|root|] == root;
  }

  lemma TwinsStray(a: string, b: string, file: string)
    requires Ordinary(a) && Ordinary(b) && Ordinary(file) && |a| == |b| && a != b && Like("/" + a, "/" + b)
    ensures var nodes, p := Twins(a, b, file), "/" + b + "/" + file;
      IsTree(nodes, {}) && "/" + a in nodes && p in ListSubtree(nodes, "/" + a) && !Under(nodes, "/" + a, p)
  {
    var nodes, root, dir, p := Twins(a, b, file), "/" + a, "/" + b, "/" + b + "/" + file;
    TwinsAreTree(a, b, file);
    ChildOfRoot(a);
    hide Canonical, ParentOf, NameOf, IsTree, Like, Ordinary;
    TwinPaths(a, b, file);
    assert p in nodes && root in nodes;
    hide Twins, ListSubtree;
    StrayEntry(nodes, {}, root, dir, p);
  }

  /** `_` in the root matches another directory, whose entries `list_subtree` then returns. */
  lemma UnderscoreStrays()
    ensures var nodes, p := Twins("a_b", "axb", "f"), "/" + "axb" + "/" + "f";
      IsTree(nodes, {}) && p in ListSubtree(nodes, "/" + "a_b") && !Under(nodes, "/" + "a_b", p)
  {
    UnderscoreMatches();
    assert "/" + "a_b" == "/a_b" && "/" + "axb" == "/axb" && "a_b"[1] != "axb"[1];
    hide Twins, ListSubtree, Under, Like, IsTree;
    TwinsStray("a_b", "axb", "f");
  }

  lemma UnderscoreMatches()
    ensures Like("/a_b", "/axb")
  {
    assert "/a_b"[1..] == "a_b" && "/axb"[1..] == "axb" && "a_b"[1..] == "_b" && "axb"[1..] == "xb";
    assert "_b"[1..] == "b" && "xb"[1..] == "b" && "b"[1..] == "";
  }

  // -------------------------------------------------------------------------- find

  /** The `-type` and `-name` filters. */
  predicate Wanted(kind: Option<string>, named: string -> bool, node: Node) {
    !(kind == Some("f") && node.isDir) && !(kind == Some("d") && !node.isDir) && named(node.name)
  }

  /** `find start`: nothing when there is no such path, else the sorted matching paths. */
  method Find(nodes: Table, start: string, cwd: string, kind: Option<string>, named: string -> bool)
    returns (found: Option<seq<string>>)
    ensures found.None? <==> Resolve(nodes, NormalizePath(start, cwd)).None?
    ensures found.Some? ==> Ascending(found.value)
    ensures found.Some? ==> forall p :: p in found.value <==>
      p in ListSubtree(nodes, NormalizePath(start, cwd)) && p in nodes && Wanted(kind, named, nodes[p])
    ensures found.Some? ==> forall p :: p in found.value <==>
      && p in ListSubtree(nodes, NormalizePath(start, cwd)) && p in nodes && named(nodes[p].name)
      && (kind == Some("d") ==> nodes[p].isDir) && (kind == Some("f") ==> !nodes[p].isDir)
  {
    hide NormalizePath, Like, LookupKey, Less;
    var root := NormalizePath(start, cwd);
    if LookupKey(root, "/") !in nodes { return None; }
    var paths: seq<string> := [];
    var todo := ListSubtree(nodes, root);
    while todo != {}
      invariant Ascending(paths) && todo <= ListSubtree(nodes, root)
      invariant forall p :: p in paths <==>
        p in ListSubtree(nodes, root) - todo && p in nodes && Wanted(kind, named, nodes[p])
    {
      var p :| p in todo;
      if Wanted(kind, named, nodes[p]) { paths := InsertAscending(paths, p); }
      todo := todo - {p};
    }
    found := Some(paths);
  }

  /** In a tree, what `find` prints is the sorted filtered walk with the orphans below the
      root, unless the root matches a stray path. */
  lemma FindPrintsTheWalk(nodes: Table, orphans: set<string>, root: string, kind: Option<string>, named: string -> bool,
                          paths: seq<string>, walk: seq<string>)
    requires IsTree(nodes, orphans) && root in nodes && !exists dir :: Stray(nodes, root, dir)
    requires Ascending(paths) && Ascending(walk)
    requires forall p :: p in paths <==> p in ListSubtree(nodes, root) && p in nodes && Wanted(kind, named, nodes[p])
    requires forall p :: p in walk <==>
      (Reachable(nodes, root, p) || (Orphan(nodes, p) && Below(root) <= p)) && p in nodes &&
        Wanted(kind, named, nodes[p])
    ensures paths == walk
  {
    hide Wanted, IsTree, Reachable, Orphan, Less, Stray;
    SubtreeIsWalkIff(nodes, orphans, root);
    forall p
      ensures p in paths <==> p in walk
    {
    }
    ListingIsUnique(paths, walk);
  }
}
