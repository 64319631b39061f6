/** Flattening a nested tree into path rows (src/infra/json_to_sqlite.py and
    scripts/fakefs/fs_json_to_jsonl_gz.py), and rebuilding the tree from the rows. */
module Flatten {
  import opened Text
  import opened Paths
  import opened FakeFs

  /** Permissions, owner and size, defaults filled in. */
  datatype Meta = Meta(permissions: string, owner: string, size: int)

  datatype Entry = Entry(name: string, node: Tree)

  datatype Tree = File(meta: Meta, content: string) | Dir(meta: Meta, kids: seq<Entry>)

  datatype Row = Row(path: string, parent: Option<string>, name: string, isDir: bool, meta: Meta,
                     content: Option<string>)

  /** `json.dumps` of a directory's entries. */
  type Dump = seq<Entry> -> string

  /** Entries have ordinary names, no two alike in one directory. */
  ghost predicate WellNamed(t: Tree) {
    t.Dir? ==> WellNamedKids(t.kids)
  }

  ghost predicate WellNamedKids(kids: seq<Entry>) {
    kids != [] ==>
      && Ordinary(kids[0].name) && WellNamed(kids[0].node)
      && (forall j :: 0 < j < |kids| ==> kids[j].name != kids[0].name)
      && WellNamedKids(kids[1..])
  }

  // -------------------------------------------------------------------- flattening

  /** The row of a node whose names from the root are `ps`. */
  function RowOf(t: Tree, ps: seq<string>, dump: Dump): Row {
    Row(Render(ps),
        if ps == [] then None else Some(Render(ps[..|ps| - 1])),
        if ps == [] then "/" else ps[|ps| - 1],
        t.Dir?, t.meta, Some(if t.Dir? then dump(t.kids) else t.content))
  }

  /** Rows of a tree, each node before its entries. */
  function Rows(t: Tree, ps: seq<string>, dump: Dump): (rows: seq<Row>)
    ensures rows != [] && rows[0] == RowOf(t, ps, dump)
  {
    [RowOf(t, ps, dump)] + if t.Dir? then KidRows(t.kids, ps, dump) else []
  }

  function KidRows(kids: seq<Entry>, ps: seq<string>, dump: Dump): seq<Row> {
    if kids == [] then []
    else Rows(kids[0].node, ps + [kids[0].name], dump) + KidRows(kids[1..], ps, dump)
  }

  class Records {
    var rows: seq<Row>

    constructor ()
      ensures rows == []
    {
      rows := [];
    }
  }

  function ChildPath(path: string, name: string): string {
    if path != "/" then path + "/" + name else "/" + name
  }

  lemma ChildOf(path: string, name: string)
    requires Canonical(path) && Ordinary(name)
    ensures Canonical(ChildPath(path, name)) && Parts(ChildPath(path, name)) == Parts(path) + [name]
  {
    RenderedParent(Parts(path), name);
    RenderIsCanonical(Parts(path) + [name]);
    RenderStart(Parts(path));
  }

  lemma RenderParts(path: string)
    requires Canonical(path)
    ensures Render(Parts(path)) == path
  {
  }

  lemma RowFromPath(t: Tree, path: string, dump: Dump)
    requires Canonical(path)
    ensures RowOf(t, Parts(path), dump)
      == Row(path, if path == "/" then None else Some(ParentOf(path)), if path == "/" then "/" else NameOf(path),
             t.Dir?, t.meta, Some(if t.Dir? then dump(t.kids) else t.content))
  {
    hide Parts, ParentOf, NameOf, Canonical, Render;
    RootParts(path);
    RenderParts(path);
    if path != "/" {
      CanonicalParent(path);
      RenderParts(ParentOf(path));
    }
  }

  lemma NextKid(kids: seq<Entry>, i: nat, ps: seq<string>, dump: Dump)
    requires i < |kids| && WellNamedKids(kids[i..])
    ensures Ordinary(kids[i].name) && WellNamed(kids[i].node) && WellNamedKids(kids[i + 1..])
    ensures KidRows(kids[i..], ps, dump)
      == Rows(kids[i].node, ps + [kids[i].name], dump) + KidRows(kids[i + 1..], ps, dump)
  {
    assert kids[i..][0] == kids[i] && kids[i..][1..] == kids[i + 1..];
  }

  /** The recursion that appends to one shared list writes exactly the rows of the tree. */
  method FlattenFs(t: Tree, path: string, dump: Dump, records: Records)
    requires Canonical(path) && WellNamed(t)
    modifies records
    ensures records.rows == old(records.rows) + Rows(t, Parts(path), dump)
    decreases t
  {
    hide Canonical, Parts, ParentOf, NameOf, RowOf, KidRows, WellNamedKids;
    RowFromPath(t, path, dump);
    records.rows := records.rows + [
      Row(path, if path != "/" then Some(ParentOf(path)) else None, if path != "/" then NameOf(path) else "/",
          t.Dir?, t.meta, Some(if t.Dir? then dump(t.kids) else t.content))];
    if t.Dir? { FlattenKids(t.kids, path, dump, records); }
  }

  /** The loop over the entries of a directory. */
  method FlattenKids(kids: seq<Entry>, path: string, dump: Dump, records: Records)
    requires Canonical(path) && WellNamedKids(kids)
    modifies records
    ensures records.rows == old(records.rows) + KidRows(kids, Parts(path), dump)
    decreases kids
  {
    hide Canonical, Parts, Ordinary, WellNamed, WellNamedKids, KidRows, Rows, ChildPath;
    ghost var ps := Parts(path);
    NoKidRows(ps, dump);
    for i := 0 to |kids|
      invariant WellNamedKids(kids[i..])
      invariant records.rows + KidRows(kids[i..], ps, dump) == old(records.rows) + KidRows(kids, ps, dump)
    {
      NextKid(kids, i, ps, dump);
      ChildOf(path, kids[i].name);
      ghost var more := Rows(kids[i].node, ps + [kids[i].name], dump);
      assert records.rows + (more + KidRows(kids[i + 1..], ps, dump))
        == records.rows + more + KidRows(kids[i + 1..], ps, dump);
      FlattenFs(kids[i].node, ChildPath(path, kids[i].name), dump, records);
    }
    assert kids[|kids|..] == [];
  }

  lemma NoKidRows(ps: seq<string>, dump: Dump)
    ensures KidRows([], ps, dump) == []
  {
  }

  /** `flatten_tree` writes no content at all. */
  function Blank(rows: seq<Row>): (r: seq<Row>)
    ensures |r| == |rows|
  {
    seq(|rows|, i requires 0 <= i < |rows| => rows[i].(content := None))
  }

  lemma BlankAppends(a: seq<Row>, b: seq<Row>)
    ensures Blank(a + b) == Blank(a) + Blank(b)
  {
  }

  method FlattenTree(kids: seq<Entry>, parentPath: string, ghost dump: Dump) returns (nodes: seq<Row>)
    requires Canonical(parentPath) && WellNamedKids(kids)
    ensures nodes == Blank(KidRows(kids, Parts(parentPath), dump))
    decreases kids
  {
    hide Canonical, Parts, Ordinary, WellNamedKids, KidRows, Rows, Blank;
    ghost var ps := Parts(parentPath);
    nodes := [];
    NoKidRows(ps, dump);
    for i := 0 to |kids|
      invariant WellNamedKids(kids[i..])
      invariant nodes + Blank(KidRows(kids[i..], ps, dump)) == Blank(KidRows(kids, ps, dump))
    {
      NextKid(kids, i, ps, dump);
      ghost var more, rest := Rows(kids[i].node, ps + [kids[i].name], dump), KidRows(kids[i + 1..], ps, dump);
      BlankAppends(more, rest);
      var Entry(name, info) := kids[i];
      var current := StripRight(parentPath) + "/" + name;
      TreeChild(parentPath, name);
      BlankRows(info, parentPath, name, dump);
      ghost var before := nodes;
      nodes := nodes + [Row(current, Some(parentPath), name, info.Dir?, info.meta, None)];
      if info.Dir? {
        var below := FlattenTree(info.kids, current, dump);
        nodes := nodes + below;
      }
      assert nodes == before + Blank(more);
      assert before + (Blank(more) + Blank(rest)) == nodes + Blank(rest);
    }
    assert kids[|kids|..] == [] && |Blank([])| == 0;
  }

  lemma TreeChild(parentPath: string, name: string)
    requires Canonical(parentPath) && Ordinary(name)
    ensures StripRight(parentPath) + "/" + name == ChildPath(parentPath, name)
    ensures Canonical(ChildPath(parentPath, name)) && Parts(ChildPath(parentPath, name)) == Parts(parentPath) + [name]
  {
    ChildOf(parentPath, name);
    RenderStart(Parts(parentPath));
    if parentPath == "/" { assert StripRight("/") == "" by { assert "/"[..0] == ""; } }
  }

  lemma BlankRows(t: Tree, parentPath: string, name: string, dump: Dump)
    requires Canonical(parentPath) && Ordinary(name) && WellNamed(t)
    ensures t.Dir? ==> WellNamedKids(t.kids)
    ensures var ps := Parts(parentPath);
      Blank(Rows(t, ps + [name], dump))
      == [Row(ChildPath(parentPath, name), Some(parentPath), name, t.Dir?, t.meta, None)]
        + if t.Dir? then Blank(KidRows(t.kids, ps + [name], dump)) else []
  {
    hide Parts, Ordinary, Canonical, KidRows;
    var ps := Parts(parentPath);
    ChildOf(parentPath, name);
    RenderParts(parentPath);
    RenderParts(ChildPath(parentPath, name));
    assert (ps + [name])[..|ps|] == ps;
    BlankAppends([RowOf(t, ps + [name], dump)], if t.Dir? then KidRows(t.kids, ps + [name], dump) else []);
  }

  // -------------------------------------------------------------------- rebuilding

  /** The tree rooted at row `i`: its entries are the later rows that name it as parent. */
  function Build(rows: seq<Row>, i: nat): Tree
    requires i < |rows|
    decreases |rows| - i, |rows| + 1
  {
    if rows[i].isDir then Dir(rows[i].meta, BuildKids(rows, i, i + 1))
    else File(rows[i].meta, if rows[i].content.Some? then rows[i].content.value else "")
  }

  function BuildKids(rows: seq<Row>, i: nat, j: nat): seq<Entry>
    requires i < j <= |rows|
    decreases |rows| - i, |rows| - j
  {
    if j == |rows| then []
    else if rows[j].parent == Some(rows[i].path) then [Entry(rows[j].name, Build(rows, j))] + BuildKids(rows, i, j + 1)
    else BuildKids(rows, i, j + 1)
  }

  // ----------------------------------------------------------- what the rows look like

  /** Canonical, at or below `ps`, and naming its own parent. */
  predicate Placed(r: Row, ps: seq<string>) {
    var q := Parts(r.path);
    && Canonical(r.path) && ps <= q
    && r.parent == if q == [] then None else Some(Render(q[..|q| - 1]))
  }

  /** Strictly below `ps`, through one of `kids`. */
  predicate Through(r: Row, ps: seq<string>, kids: seq<Entry>) {
    var q := Parts(r.path);
    Placed(r, ps) && |q| > |ps| && exists k :: 0 <= k < |kids| && kids[k].name == q[|ps|]
  }

  lemma RowIsPlaced(t: Tree, ps: seq<string>, dump: Dump)
    requires AllOrdinary(ps)
    ensures Placed(RowOf(t, ps, dump), ps) && Parts(RowOf(t, ps, dump).path) == ps
  {
    RenderIsCanonical(ps);
  }

  lemma {:induction false} RowsArePlaced(t: Tree, ps: seq<string>, dump: Dump)
    requires AllOrdinary(ps) && WellNamed(t)
    ensures forall i :: 0 <= i < |Rows(t, ps, dump)| ==> Placed(Rows(t, ps, dump)[i], ps)
    ensures forall i :: 0 < i < |Rows(t, ps, dump)| ==> |Parts(Rows(t, ps, dump)[i].path)| > |ps|
    ensures Parts(Rows(t, ps, dump)[0].path) == ps
    decreases t
  {
    hide Parts, RowOf, Canonical;
    RowIsPlaced(t, ps, dump);
    if t.Dir? { KidRowsArePlaced(t.kids, ps, dump); }
  }

  lemma {:induction false} KidRowsArePlaced(kids: seq<Entry>, ps: seq<string>, dump: Dump)
    requires AllOrdinary(ps) && WellNamedKids(kids)
    ensures forall i :: 0 <= i < |KidRows(kids, ps, dump)| ==> Through(KidRows(kids, ps, dump)[i], ps, kids)
    decreases kids
  {
    hide Parts, Canonical, Ordinary;
    if kids != [] {
      var below := ps + [kids[0].name];
      var first, rest := Rows(kids[0].node, below, dump), KidRows(kids[1..], ps, dump);
      RowsArePlaced(kids[0].node, below, dump);
      KidRowsArePlaced(kids[1..], ps, dump);
      forall i | 0 <= i < |first|
        ensures Through(first[i], ps, kids)
      {
        assert below <= Parts(first[i].path) && below[|ps|] == kids[0].name;
      }
      forall i | 0 <= i < |rest|
        ensures Through(rest[i], ps, kids)
      {
        var k :| 0 <= k < |kids[1..]| && kids[1..][k].name == Parts(rest[i].path)[|ps|];
        assert kids[k + 1] == kids[1..][k];
      }
    }
  }

  predicate Distinct(rows: seq<Row>) {
    forall i, j :: 0 <= i < j < |rows| ==> rows[i].path != rows[j].path
  }

  lemma {:induction false} RowsAreDistinct(t: Tree, ps: seq<string>, dump: Dump)
    requires AllOrdinary(ps) && WellNamed(t)
    ensures Distinct(Rows(t, ps, dump))
    decreases t
  {
    hide Parts, RowOf, Canonical, KidRows;
    RowsArePlaced(t, ps, dump);
    if t.Dir? { KidRowsAreDistinct(t.kids, ps, dump); }
  }

  lemma {:induction false} KidRowsAreDistinct(kids: seq<Entry>, ps: seq<string>, dump: Dump)
    requires AllOrdinary(ps) && WellNamedKids(kids)
    ensures Distinct(KidRows(kids, ps, dump))
    decreases kids
  {
    hide Parts, Canonical, Ordinary, Rows;
    if kids != [] {
      var below := ps + [kids[0].name];
      var first, rest := Rows(kids[0].node, below, dump), KidRows(kids[1..], ps, dump);
      RowsAreDistinct(kids[0].node, below, dump);
      KidRowsAreDistinct(kids[1..], ps, dump);
      RowsArePlaced(kids[0].node, below, dump);
      KidRowsArePlaced(kids[1..], ps, dump);
      forall i, j | 0 <= i < |first| && 0 <= j < |rest|
        ensures first[i].path != rest[j].path
      {
        var k :| 0 <= k < |kids[1..]| && kids[1..][k].name == Parts(rest[j].path)[|ps|];
        assert kids[k + 1].name != kids[0].name;
        assert Parts(first[i].path)[|ps|] == below[|ps|] == kids[0].name;
      }
    }
  }

  /** Row `i` comes after the directory row that it names as parent. */
  predicate AfterParent(rows: seq<Row>, i: nat) {
    exists j :: 0 <= j < i < |rows| && rows[j].isDir && rows[i].parent == Some(rows[j].path)
  }

  lemma {:induction false} ParentsComeFirst(t: Tree, ps: seq<string>, dump: Dump)
    requires AllOrdinary(ps) && WellNamed(t)
    ensures forall i :: 0 < i < |Rows(t, ps, dump)| ==> AfterParent(Rows(t, ps, dump), i)
    decreases t
  {
    if t.Dir? {
      hide Parts, Canonical, KidRows;
      var rows, kids := Rows(t, ps, dump), KidRows(t.kids, ps, dump);
      KidParentsComeFirst(t.kids, ps, dump);
      forall i | 0 < i < |rows|
        ensures AfterParent(rows, i)
      {
        assert rows[i] == kids[i - 1];
        if kids[i - 1].parent == Some(Render(ps)) {
          assert rows[0].isDir && rows[0].path == Render(ps);
        } else {
          var j :| 0 <= j < i - 1 && kids[j].isDir && kids[i - 1].parent == Some(kids[j].path);
          assert rows[j + 1] == kids[j];
        }
      }
    }
  }

  lemma {:induction false} KidParentsComeFirst(kids: seq<Entry>, ps: seq<string>, dump: Dump)
    requires AllOrdinary(ps) && WellNamedKids(kids)
    ensures forall i :: 0 <= i < |KidRows(kids, ps, dump)| ==>
      KidRows(kids, ps, dump)[i].parent == Some(Render(ps)) || AfterParent(KidRows(kids, ps, dump), i)
    decreases kids
  {
    hide Parts, Canonical, Ordinary, Render;
    if kids != [] {
      var below := ps + [kids[0].name];
      var first, rest := Rows(kids[0].node, below, dump), KidRows(kids[1..], ps, dump);
      var rows := first + rest;
      ParentsComeFirst(kids[0].node, below, dump);
      KidParentsComeFirst(kids[1..], ps, dump);
      assert below[..|ps|] == ps && first[0].parent == Some(Render(ps));
      forall i | 0 <= i < |rows|
        ensures rows[i].parent == Some(Render(ps)) || AfterParent(rows, i)
      {
        if 0 < i < |first| {
          assert AfterParent(first, i);
          var j :| 0 <= j < i && first[j].isDir && first[i].parent == Some(first[j].path);
          assert rows[j] == first[j];
        } else if i > 0 && rows[i].parent != Some(Render(ps)) {
          var m := i - |first|;
          assert rows[i] == rest[m];
          var j :| 0 <= j < m && rest[j].isDir && rest[m].parent == Some(rest[j].path);
          assert rows[j + |first|] == rest[j];
        }
      }
    }
  }

  // ----------------------------------------------------------------- the round trip

  /** No row has its parent at or below `ps`. */
  predicate Foreign(rows: seq<Row>, ps: seq<string>) {
    forall i :: 0 <= i < |rows| && rows[i].parent.Some? ==> !(ps <= Parts(rows[i].parent.value))
  }

  lemma {:induction false} SkipRows(rows: seq<Row>, i: nat, j: nat, k: nat)
    requires i < j <= k <= |rows|
    requires forall m :: j <= m < k ==> rows[m].parent != Some(rows[i].path)
    ensures BuildKids(rows, i, j) == BuildKids(rows, i, k)
    decreases k - j
  {
    if j < k { SkipRows(rows, i, j + 1, k); }
  }

  lemma SkipStretch(rows: seq<Row>, i: nat, j: nat, first: seq<Row>)
    requires i < j && first != [] && j + |first| <= |rows| && first <= rows[j..]
    requires forall m :: 0 < m < |first| ==> first[m].parent != Some(rows[i].path)
    ensures BuildKids(rows, i, j + 1) == BuildKids(rows, i, j + |first|)
  {
    hide BuildKids;
    forall m | j < m < j + |first|
      ensures rows[m].parent != Some(rows[i].path)
    {
      assert rows[m] == rows[j..][m - j] == first[m - j];
    }
    SkipRows(rows, i, j + 1, j + |first|);
  }

  lemma {:induction false} BuildInverts(rows: seq<Row>, i: nat, t: Tree, ps: seq<string>, dump: Dump, post: seq<Row>)
    requires AllOrdinary(ps) && WellNamed(t)
    requires i < |rows| && rows[i..] == Rows(t, ps, dump) + post
    requires Foreign(post, ps)
    ensures Build(rows, i) == t
    decreases t
  {
    hide Parts, Canonical, Ordinary, KidRows, Foreign, Render, BuildKids;
    assert rows[i] == rows[i..][0] == RowOf(t, ps, dump);
    if t.Dir? {
      assert rows[i + 1..] == rows[i..][1..] == KidRows(t.kids, ps, dump) + post;
      BuildKidsInverts(rows, i, i + 1, t.kids, ps, dump, post);
    }
  }

  lemma {:induction false} BuildKidsInverts(rows: seq<Row>, i: nat, j: nat, kids: seq<Entry>, ps: seq<string>,
                                            dump: Dump, post: seq<Row>)
    requires AllOrdinary(ps) && WellNamedKids(kids)
    requires i < j <= |rows| && rows[i].path == Render(ps)
    requires rows[j..] == KidRows(kids, ps, dump) + post
    requires Foreign(post, ps)
    ensures BuildKids(rows, i, j) == kids
    decreases kids
  {
    hide Parts, Canonical, Ordinary, Render, Build, KidRows, Rows, Placed, Foreign;
    RenderIsCanonical(ps);
    if kids == [] {
      NoKidRows(ps, dump);
      SkipForeign(rows, i, j, ps, post);
    } else {
      var name, t, below := kids[0].name, kids[0].node, ps + [kids[0].name];
      var first, rest := Rows(t, below, dump), KidRows(kids[1..], ps, dump) + post;
      var k := j + |first|;
      assert kids[0..] == kids;
      NextKid(kids, 0, ps, dump);
      assert rows[j..] == first + rest;
      assert rows[k..] == rest;
      RestIsForeign(kids, ps, dump, post);
      BuildInverts(rows, j, t, below, dump, rest);
      BuildKidsInverts(rows, i, k, kids[1..], ps, dump, post);
      InnerRowsAreSkipped(t, ps, name, dump);
      assert rows[j] == first[0];
      SkipStretch(rows, i, j, first);
      HeadRow(t, ps, name, dump);
      assert kids == [Entry(name, t)] + kids[1..];
    }
  }

  lemma SkipForeign(rows: seq<Row>, i: nat, j: nat, ps: seq<string>, post: seq<Row>)
    requires AllOrdinary(ps) && Foreign(post, ps)
    requires i < j <= |rows| && rows[i].path == Render(ps) && rows[j..] == post
    ensures BuildKids(rows, i, j) == []
  {
    hide Parts, Canonical, Ordinary, Render, Build, Foreign;
    ForeignIsSkipped(post, ps);
    forall m | j <= m < |rows|
      ensures rows[m].parent != Some(rows[i].path)
    {
      assert rows[m] == rows[j..][m - j] == post[m - j];
    }
    SkipRows(rows, i, j, |rows|);
  }

  lemma HeadRow(t: Tree, ps: seq<string>, name: string, dump: Dump)
    ensures Rows(t, ps + [name], dump)[0].parent == Some(Render(ps)) && Rows(t, ps + [name], dump)[0].name == name
  {
    assert (ps + [name])[..|ps|] == ps;
  }

  lemma ForeignIsSkipped(rows: seq<Row>, ps: seq<string>)
    requires AllOrdinary(ps) && Foreign(rows, ps)
    ensures forall m :: 0 <= m < |rows| ==> rows[m].parent != Some(Render(ps))
  {
    hide Parts;
    RenderIsCanonical(ps);
  }

  /** Below its first row, the rows of an entry have parents below the entry. */
  lemma InnerRowsAreSkipped(t: Tree, ps: seq<string>, name: string, dump: Dump)
    requires AllOrdinary(ps + [name]) && WellNamed(t)
    ensures var rows := Rows(t, ps + [name], dump);
      forall m :: 0 < m < |rows| ==> rows[m].parent != Some(Render(ps))
  {
    hide Parts, Canonical, Ordinary, Rows, Render;
    var below := ps + [name];
    var rows := Rows(t, below, dump);
    RowsArePlaced(t, below, dump);
    assert AllOrdinary(ps) by { forall k | 0 <= k < |ps| ensures Ordinary(ps[k]) { assert ps[k] == below[k]; } }
    RenderIsCanonical(ps);
    forall m | 0 < m < |rows|
      ensures rows[m].parent != Some(Render(ps))
    {
      var q := Parts(rows[m].path);
      assert Placed(rows[m], below) && |q| > |below|;
      assert AllOrdinary(q[..|q| - 1]) by { OrdinaryParts(rows[m].path); }
      RenderIsCanonical(q[..|q| - 1]);
    }
  }

  lemma OrdinaryParts(p: string)
    requires Canonical(p)
    ensures AllOrdinary(Parts(p))
  {
  }

  /** What follows the first entry's rows has no parent inside that entry. */
  lemma RestIsForeign(kids: seq<Entry>, ps: seq<string>, dump: Dump, post: seq<Row>)
    requires AllOrdinary(ps) && kids != [] && WellNamedKids(kids) && Foreign(post, ps)
    ensures Foreign(KidRows(kids[1..], ps, dump) + post, ps + [kids[0].name])
  {
    hide Parts, Canonical, Ordinary, Render, KidRows;
    var below, rest := ps + [kids[0].name], KidRows(kids[1..], ps, dump);
    KidRowsArePlaced(kids[1..], ps, dump);
    forall m | 0 <= m < |rest|
      ensures rest[m].parent.Some? ==> !(below <= Parts(rest[m].parent.value))
    {
      var q := Parts(rest[m].path);
      assert Through(rest[m], ps, kids[1..]);
      var k :| 0 <= k < |kids[1..]| && kids[1..][k].name == q[|ps|];
      assert kids[k + 1].name != kids[0].name;
      OrdinaryParts(rest[m].path);
      RenderIsCanonical(q[..|q| - 1]);
      assert below[|ps|] == kids[0].name;
    }
    forall m | 0 <= m < |post|
      ensures post[m].parent.Some? ==> !(below <= Parts(post[m].parent.value))
    {
      assert below[..|ps|] == ps;
    }
  }

  /** Flattening a tree with ordinary names from the root gives distinct paths, every
      directory before its entries, and rows from which the tree is rebuilt. */
  lemma FlattenRoundTrip(t: Tree, dump: Dump)
    requires WellNamed(t)
    ensures var rows := Rows(t, [], dump);
      && Distinct(rows)
      && (forall i :: 0 < i < |rows| ==> AfterParent(rows, i))
      && Build(rows, 0) == t
  {
    hide Build, Rows, AfterParent, Distinct;
    RowsAreDistinct(t, [], dump);
    ParentsComeFirst(t, [], dump);
    var rows := Rows(t, [], dump);
    assert rows[0..] == rows + [];
    BuildInverts(rows, 0, t, [], dump, []);
  }

  // ------------------------------------------------------------------ rows and nodes

  /** The node that the names `qs` lead to from `t`. */
  ghost predicate Leads(t: Tree, qs: seq<string>, node: Tree)
    decreases qs
  {
    if qs == [] then node == t
    else t.Dir? && exists e :: e in t.kids && e.name == qs[0] && Leads(e.node, qs[1..], node)
  }

  /** The row of the node at the names `ps`, field by field. */
  ghost predicate Tells(r: Row, ps: seq<string>, node: Tree, dump: Dump) {
    && r.path == Render(ps) && r.isDir == node.Dir? && r.meta == node.meta
    && r.content == (match node case File(_, content) => Some(content) case Dir(_, kids) => Some(dump(kids)))
    && if ps == [] then r.parent == None && r.name == "/"
       else r.parent == Some(Render(ps[..|ps| - 1])) && r.name == ps[|ps| - 1]
  }

  /** `r` tells of a node below `t`, which stands at the names `ps`. */
  ghost predicate TellsOfNode(r: Row, t: Tree, ps: seq<string>, dump: Dump) {
    exists qs, node :: Leads(t, qs, node) && Tells(r, ps + qs, node, dump)
  }

  lemma TellsItself(r: Row, t: Tree, ps: seq<string>, dump: Dump)
    ensures Tells(r, ps, t, dump) <==> r == RowOf(t, ps, dump)
  {
  }

  lemma TellsOfKid(r: Row, t: Tree, ps: seq<string>, dump: Dump)
    ensures TellsOfNode(r, t, ps, dump) <==>
      || r == RowOf(t, ps, dump)
      || (t.Dir? && exists e :: e in t.kids && TellsOfNode(r, e.node, ps + [e.name], dump))
  {
    hide RowOf, Tells;
    TellsItself(r, t, ps, dump);
    assert ps + [] == ps;
    if r == RowOf(t, ps, dump) { assert Leads(t, [], t) && Tells(r, ps + [], t, dump); }
    if e :| t.Dir? && e in t.kids && TellsOfNode(r, e.node, ps + [e.name], dump) {
      var qs, node :| Leads(e.node, qs, node) && Tells(r, ps + [e.name] + qs, node, dump);
      assert ([e.name] + qs)[1..] == qs && ps + [e.name] + qs == ps + ([e.name] + qs);
      assert Leads(t, [e.name] + qs, node);
    }
    if qs, node :| Leads(t, qs, node) && Tells(r, ps + qs, node, dump) && qs != [] {
      var e :| e in t.kids && e.name == qs[0] && Leads(e.node, qs[1..], node);
      assert ps + [e.name] + qs[1..] == ps + qs;
    }
  }

  /** The rows are exactly the nodes of the tree: one for each, with its own fields. */
  lemma {:induction false} RowsAreNodes(t: Tree, ps: seq<string>, dump: Dump, r: Row)
    ensures r in Rows(t, ps, dump) <==> TellsOfNode(r, t, ps, dump)
    decreases t
  {
    hide RowOf, TellsOfNode;
    TellsOfKid(r, t, ps, dump);
    if t.Dir? { KidRowsAreNodes(t.kids, ps, dump, r); }
  }

  lemma {:induction false} KidRowsAreNodes(kids: seq<Entry>, ps: seq<string>, dump: Dump, r: Row)
    ensures r in KidRows(kids, ps, dump) <==> exists e :: e in kids && TellsOfNode(r, e.node, ps + [e.name], dump)
    decreases kids
  {
    hide RowOf, TellsOfNode;
    if kids != [] {
      RowsAreNodes(kids[0].node, ps + [kids[0].name], dump, r);
      KidRowsAreNodes(kids[1..], ps, dump, r);
      assert forall e :: e in kids <==> e == kids[0] || e in kids[1..];
    }
  }

  // ---------------------------------------------------------- the rows of flatten_tree

  function DropContent(t: Tree): Tree {
    if t.Dir? then Dir(t.meta, DropContentKids(t.kids)) else File(t.meta, "")
  }

  function DropContentKids(kids: seq<Entry>): seq<Entry> {
    if kids == [] then [] else [Entry(kids[0].name, DropContent(kids[0].node))] + DropContentKids(kids[1..])
  }

  lemma {:induction false} BuildBlank(rows: seq<Row>, i: nat)
    requires i < |rows|
    ensures Build(Blank(rows), i) == DropContent(Build(rows, i))
    decreases |rows| - i, |rows| + 1
  {
    if rows[i].isDir { BuildKidsBlank(rows, i, i + 1); }
  }

  lemma {:induction false} BuildKidsBlank(rows: seq<Row>, i: nat, j: nat)
    requires i < j <= |rows|
    ensures BuildKids(Blank(rows), i, j) == DropContentKids(BuildKids(rows, i, j))
    decreases |rows| - i, |rows| - j
  {
    if j < |rows| {
      BuildKidsBlank(rows, i, j + 1);
      if rows[j].parent == Some(rows[i].path) {
        BuildBlank(rows, j);
        var rest := BuildKids(rows, i, j + 1);
        assert ([Entry(rows[j].name, Build(rows, j))] + rest)[1..] == rest;
      }
    }
  }

  /** The written rows, root row first, rebuild the tree up to file content. */
  lemma FlattenTreeRoundTrip(meta: Meta, kids: seq<Entry>, dump: Dump)
    requires WellNamedKids(kids)
    ensures var rows := [Row("/", None, "/", true, meta, None)] + Blank(KidRows(kids, [], dump));
      Build(rows, 0) == DropContent(Dir(meta, kids))
  {
    hide Build, KidRows, WellNamedKids;
    var t := Dir(meta, kids);
    FlattenRoundTrip(t, dump);
    BlankAppends([RowOf(t, [], dump)], KidRows(kids, [], dump));
    BuildBlank(Rows(t, [], dump), 0);
    RenderStart([]);
    assert Blank([RowOf(t, [], dump)]) == [Row("/", None, "/", true, meta, None)];
    assert Blank(Rows(t, [], dump)) == [Row("/", None, "/", true, meta, None)] + Blank(KidRows(kids, [], dump));
  }
}
