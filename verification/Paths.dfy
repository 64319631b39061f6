/** POSIX paths as the fake file system handles them: `normalize_path`
    (src/infra/fake_fs/commands.py), the key that `resolve_path`
    (src/infra/fake_fs/filesystem.py) looks up, and `os.path.dirname`/`basename`. */
module Paths {

  // ------------------------------------------------------------- parts of a path

  /** `s.split("/")`. */
  function Split(s: string): (parts: seq<string>)
    ensures |parts| >= 1
  {
    if s == "" then [""]
    else
      var rest := Split(s[1..]);
      if s[0] == '/' then [""] + rest else [[s[0]] + rest[0]] + rest[1..]
  }

  /** `"/".join(parts)`. */
  function JoinSlash(parts: seq<string>): string {
    if parts == [] then ""
    else if |parts| == 1 then parts[0]
    else JoinSlash(parts[..|parts| - 1]) + "/" + parts[|parts| - 1]
  }

  function NonEmpty(parts: seq<string>): seq<string> {
    if parts == [] then []
    else NonEmpty(parts[..|parts| - 1]) + if parts[|parts| - 1] == "" then [] else [parts[|parts| - 1]]
  }

  /** The names in a path, empty ones dropped. */
  function Parts(path: string): seq<string> {
    NonEmpty(Split(path))
  }

  /** `s.strip("/")`. */
  function StripSlashes(s: string): string {
    StripRight(StripLeft(s))
  }

  function StripLeft(s: string): string {
    if s != "" && s[0] == '/' then StripLeft(s[1..]) else s
  }

  function StripRight(s: string): string {
    if s != "" && s[|s| - 1] == '/' then StripRight(s[..|s| - 1]) else s
  }

  predicate IsName(name: string) {
    name != "" && forall i :: 0 <= i < |name| ==> name[i] != '/'
  }

  /** A name that is neither empty nor a step of navigation. */
  predicate Ordinary(name: string) {
    IsName(name) && name != "." && name != ".."
  }

  predicate AllOrdinary(parts: seq<string>) {
    forall i :: 0 <= i < |parts| ==> Ordinary(parts[i])
  }

  function Render(parts: seq<string>): string {
    "/" + JoinSlash(parts)
  }

  /** One leading slash and no empty, `.` or `..` part. */
  predicate Canonical(path: string) {
    AllOrdinary(Parts(path)) && path == Render(Parts(path))
  }

  // --------------------------------------------------------------- normalize_path

  function Push(base: seq<string>, part: string): seq<string> {
    if part == "" || part == "." then base
    else if part == ".." then (if base == [] then base else base[..|base| - 1])
    else base + [part]
  }

  function Walk(base: seq<string>, parts: seq<string>): seq<string> {
    if parts == [] then base else Push(Walk(base, parts[..|parts| - 1]), parts[|parts| - 1])
  }

  function Base(path: string, cwd: string): seq<string> {
    if "/" <= path then [] else NonEmpty(Split(StripSlashes(cwd)))
  }

  function NormalizePath(path: string, cwd: string): string {
    Render(Walk(Base(path, cwd), Split(StripSlashes(path))))
  }

  method NormalizePathStepwise(path: string, cwd: string) returns (result: string)
    ensures result == NormalizePath(path, cwd)
  {
    var base := Base(path, cwd);
    var parts := Split(StripSlashes(path));
    ghost var start := base;
    for i := 0 to |parts|
      invariant base == Walk(start, parts[..i])
    {
      assert parts[..i + 1][..i] == parts[..i];
      var part := parts[i];
      if part == "" || part == "." { continue; }
      if part == ".." {
        if base != [] { base := base[..|base| - 1]; }
      } else {
        base := base + [part];
      }
    }
    assert parts[..|parts|] == parts;
    result := "/" + JoinSlash(base);
  }

  // ------------------------------------------------------- splitting and rendering

  lemma {:induction false} SplitJoined(s: string, t: string)
    ensures Split(s + "/" + t) == Split(s) + Split(t)
  {
    if s == "" {
      assert s + "/" + t == "/" + t && ("/" + t)[1..] == t;
    } else {
      assert (s + "/" + t)[1..] == s[1..] + "/" + t;
      SplitJoined(s[1..], t);
    }
  }

  lemma {:induction false} NonEmptyAppend(a: seq<string>, b: seq<string>)
    ensures NonEmpty(a + b) == NonEmpty(a) + NonEmpty(b)
  {
    if b == [] {
      assert a + b == a;
    } else {
      assert (a + b)[..|a + b| - 1] == a + b[..|b| - 1];
      NonEmptyAppend(a, b[..|b| - 1]);
    }
  }

  lemma PartsJoined(s: string, t: string)
    ensures Parts(s + "/" + t) == Parts(s) + Parts(t)
  {
    SplitJoined(s, t);
    NonEmptyAppend(Split(s), Split(t));
  }

  lemma {:induction false} PartsOfStripped(s: string)
    ensures Parts(StripSlashes(s)) == Parts(s)
  {
    LeftSlashes(s);
    RightSlashes(StripLeft(s));
  }

  lemma {:induction false} LeftSlashes(s: string)
    ensures Parts(StripLeft(s)) == Parts(s)
  {
    hide Parts;
    if s != "" && s[0] == '/' {
      LeftSlashes(s[1..]);
      assert s == "" + "/" + s[1..];
      PartsJoined("", s[1..]);
      PartsOfNothing();
    }
  }

  lemma PartsOfNothing()
    ensures Parts("") == []
  {
    assert [""][..0] == [];
  }

  lemma {:induction false} RightSlashes(s: string)
    ensures Parts(StripRight(s)) == Parts(s)
  {
    hide Parts;
    if s != "" && s[|s| - 1] == '/' {
      var t := s[..|s| - 1];
      RightSlashes(t);
      assert s == t + "/" + "";
      PartsJoined(t, "");
      PartsOfNothing();
    }
  }

  lemma {:induction false} SplitName(name: string)
    requires forall i :: 0 <= i < |name| ==> name[i] != '/'
    ensures Split(name) == [name]
  {
    if name == "" {
      assert Split(name) == [""];
    } else {
      SplitName(name[1..]);
      assert [name[0]] + name[1..] == name && [name[1..]][1..] == [];
    }
  }

  lemma PartsOfName(name: string)
    requires IsName(name)
    ensures Parts(name) == [name]
  {
    SplitName(name);
    assert [name][..0] == [] && NonEmpty([name][..0]) == [];
    assert NonEmpty([name]) == [] + [name];
  }

  lemma {:induction false} PartsOfJoin(parts: seq<string>)
    requires forall i :: 0 <= i < |parts| ==> IsName(parts[i])
    ensures Parts(JoinSlash(parts)) == parts
  {
    if parts == [] {
      PartsOfNothing();
    } else {
      var front, last := parts[..|parts| - 1], parts[|parts| - 1];
      PartsOfName(last);
      if |parts| > 1 {
        PartsOfJoin(front);
        PartsJoined(JoinSlash(front), last);
      }
    }
  }

  /** Rendering then splitting gives the names back. */
  lemma PartsOfRender(parts: seq<string>)
    requires forall i :: 0 <= i < |parts| ==> IsName(parts[i])
    ensures Parts(Render(parts)) == parts
  {
    PartsOfJoin(parts);
    PartsJoined("", JoinSlash(parts));
    assert "" + "/" + JoinSlash(parts) == Render(parts);
    PartsOfNothing();
  }

  // ------------------------------------------------------------ walking over parts

  lemma {:induction false} PartsAreNames(s: string)
    ensures forall i :: 0 <= i < |Split(s)| ==> Split(s)[i] == "" || IsName(Split(s)[i])
  {
    if s != "" { PartsAreNames(s[1..]); }
  }

  lemma {:induction false} WalkKeepsOrdinary(base: seq<string>, parts: seq<string>)
    requires AllOrdinary(base)
    requires forall i :: 0 <= i < |parts| ==> parts[i] == "" || IsName(parts[i])
    ensures AllOrdinary(Walk(base, parts))
  {
    if parts != [] { WalkKeepsOrdinary(base, parts[..|parts| - 1]); }
  }

  lemma {:induction false} WalkAppend(base: seq<string>, a: seq<string>, b: seq<string>)
    ensures Walk(base, a + b) == Walk(Walk(base, a), b)
  {
    if b == [] {
      assert a + b == a;
    } else {
      assert (a + b)[..|a + b| - 1] == a + b[..|b| - 1];
      WalkAppend(base, a, b[..|b| - 1]);
    }
  }

  lemma {:induction false} WalkSkipsEmpty(base: seq<string>, parts: seq<string>)
    ensures Walk(base, NonEmpty(parts)) == Walk(base, parts)
  {
    if parts != [] {
      var front, last := parts[..|parts| - 1], parts[|parts| - 1];
      WalkSkipsEmpty(base, front);
      if last == "" {
        assert NonEmpty(parts) == NonEmpty(front);
      } else {
        WalkAppend(base, NonEmpty(front), [last]);
        assert [last][..0] == [];
        assert Walk(Walk(base, NonEmpty(front)), [last]) == Push(Walk(base, NonEmpty(front)), last);
      }
    }
  }

  /** Normalising walks the names of the path from the root or from the names of `cwd`. */
  lemma NormalForm(path: string, cwd: string)
    ensures NormalizePath(path, cwd) == Render(Walk(if "/" <= path then [] else Parts(cwd), Parts(path)))
  {
    PartsOfStripped(path);
    PartsOfStripped(cwd);
    WalkSkipsEmpty(Base(path, cwd), Split(StripSlashes(path)));
    WalkSkipsEmpty(Base(path, cwd), Split(path));
  }

  lemma {:induction false} NonEmptyAreNames(parts: seq<string>)
    requires forall i :: 0 <= i < |parts| ==> parts[i] == "" || IsName(parts[i])
    ensures forall i :: 0 <= i < |NonEmpty(parts)| ==> IsName(NonEmpty(parts)[i])
  {
    if parts != [] { NonEmptyAreNames(parts[..|parts| - 1]); }
  }

  lemma RenderIsCanonical(parts: seq<string>)
    requires AllOrdinary(parts)
    ensures Canonical(Render(parts)) && Parts(Render(parts)) == parts
  {
    PartsOfRender(parts);
  }

  /** The result is canonical when the path is absolute or the current directory canonical,
      and resolving it gives the parts walked. */
  lemma NormalizeIsCanonical(path: string, cwd: string)
    requires "/" <= path || Canonical(cwd)
    ensures Canonical(NormalizePath(path, cwd))
    ensures Parts(NormalizePath(path, cwd)) == Walk(if "/" <= path then [] else Parts(cwd), Parts(path))
  {
    var base := if "/" <= path then [] else Parts(cwd);
    NormalForm(path, cwd);
    PartsAreNames(path);
    NonEmptyAreNames(Split(path));
    WalkKeepsOrdinary(base, Parts(path));
    RenderIsCanonical(Walk(base, Parts(path)));
  }

  /** Going to `p` and then to a relative `q` is going to `p/q`. */
  lemma NormalizeComposes(p: string, q: string, cwd: string)
    requires Canonical(cwd) && p != "" && !("/" <= q)
    ensures NormalizePath(q, NormalizePath(p, cwd)) == NormalizePath(p + "/" + q, cwd)
  {
    hide Canonical, Parts, Walk, Render, NormalizePath;
    var base := if "/" <= p then [] else Parts(cwd);
    NormalizeIsCanonical(p, cwd);
    NormalForm(q, NormalizePath(p, cwd));
    NormalForm(p + "/" + q, cwd);
    PartsJoined(p, q);
    WalkAppend(base, Parts(p), Parts(q));
    assert (p + "/" + q)[0] == p[0];
  }

  /** A canonical path normalises to itself from anywhere. */
  lemma CanonicalIsFixed(path: string, cwd: string)
    requires Canonical(path)
    ensures NormalizePath(path, cwd) == path
  {
    NormalForm(path, cwd);
    WalkOrdinary([], Parts(path));
    assert path[0] == '/' && [] + Parts(path) == Parts(path);
  }

  lemma {:induction false} WalkOrdinary(base: seq<string>, parts: seq<string>)
    requires AllOrdinary(parts)
    ensures Walk(base, parts) == base + parts
  {
    if parts != [] {
      WalkOrdinary(base, parts[..|parts| - 1]);
      assert parts == parts[..|parts| - 1] + [parts[|parts| - 1]];
    }
  }

  lemma OneName(name: string, cwd: string)
    requires Canonical(cwd) && (name == "" || IsName(name))
    ensures Canonical(NormalizePath(name, cwd)) && Parts(NormalizePath(name, cwd)) == Push(Parts(cwd), name)
  {
    hide NormalizePath, Canonical, Split, NonEmpty;
    NormalizeIsCanonical(name, cwd);
    if name == "" {
      PartsOfNothing();
    } else {
      PartsOfName(name);
      var base := Parts(cwd);
      assert name[0] != '/' && [name][..0] == [] && Walk(base, []) == base;
      assert Walk(base, [name]) == Push(base, name);
    }
  }

  lemma CanonicalNames(p: string)
    requires Canonical(p)
    ensures p == Render(Parts(p)) && forall i :: 0 <= i < |Parts(p)| ==> IsName(Parts(p)[i])
  {
  }

  lemma RootParts(p: string)
    requires Canonical(p)
    ensures p == "/" <==> Parts(p) == []
  {
    RenderStart(Parts(p));
  }

  lemma RenderBelow(parts: seq<string>, name: string)
    ensures Render(parts + [name]) == (if parts == [] then "/" else Render(parts) + "/") + name
  {
    assert (parts + [name])[..|parts|] == parts;
  }

  /** An absolute path resolves alike from everywhere; a name goes down, `.` nowhere, and
      `..` up again, except from the root. */
  lemma PathSteps(cwd: string, name: string, path: string)
    requires Canonical(cwd) && Ordinary(name)
    ensures "/" <= path ==> NormalizePath(path, cwd) == NormalizePath(path, "/")
    ensures var below := (if cwd == "/" then "/" else cwd + "/") + name;
      NormalizePath(name, cwd) == below && NormalizePath("..", below) == cwd
    ensures NormalizePath("", cwd) == NormalizePath(".", cwd) == cwd && NormalizePath("..", "/") == "/"
  {
    var below, ps := NormalizePath(name, cwd), Parts(cwd);
    hide NormalizePath, Parts, Canonical, Render, Split;
    RenderIsCanonical([]);
    RenderRoot();
    NormalForm(path, cwd);
    NormalForm(path, "/");
    RootParts(cwd);
    RenderBelow(ps, name);
    OneName(name, cwd);
    OneName("", cwd);
    OneName(".", cwd);
    OneName("..", below);
    OneName("..", "/");
    CanonicalNames(cwd);
    CanonicalNames(below);
    CanonicalNames(NormalizePath("..", below));
    CanonicalNames(NormalizePath("", cwd));
    CanonicalNames(NormalizePath(".", cwd));
    CanonicalNames(NormalizePath("..", "/"));
    assert (ps + [name])[..|ps|] == ps;
  }

  lemma RenderRoot()
    ensures Render([]) == "/"
  {
  }

  // ------------------------------------------------------------- what resolve_path looks up

  /** `os.path.join`. */
  function JoinPath(cwd: string, path: string): string {
    if "/" <= path then path
    else if cwd == "" || cwd[|cwd| - 1] == '/' then cwd + path
    else cwd + "/" + path
  }

  /** One component of `os.path.normpath`; `rooted` tells whether the path began with a slash. */
  function Squash(rooted: bool, done: seq<string>, comp: string): seq<string> {
    if comp == "" || comp == "." then done
    else if comp != ".." || (!rooted && done == []) || (done != [] && done[|done| - 1] == "..") then done + [comp]
    else if done != [] then done[..|done| - 1]
    else done
  }

  function SquashAll(rooted: bool, comps: seq<string>): seq<string> {
    if comps == [] then [] else Squash(rooted, SquashAll(rooted, comps[..|comps| - 1]), comps[|comps| - 1])
  }

  /** Exactly two leading slashes, which section 4.13 of POSIX.1-2017 sets apart. */
  predicate TwoSlashes(path: string) {
    "//" <= path && !("///" <= path)
  }

  /** `os.path.normpath`. */
  function NormPath(path: string): string {
    var rooted := "/" <= path;
    var body := JoinSlash(SquashAll(rooted, Split(path)));
    var whole := (if TwoSlashes(path) then "//" else if rooted then "/" else "") + body;
    if path == "" || whole == "" then "." else whole
  }

  function LookupKey(path: string, cwd: string): string {
    var norm := NormPath(JoinPath(cwd, path));
    if "/" <= norm then norm else "/" + norm
  }

  lemma {:induction false} SquashIsWalk(comps: seq<string>)
    requires forall i :: 0 <= i < |comps| ==> comps[i] == "" || IsName(comps[i])
    ensures SquashAll(true, comps) == Walk([], comps) && AllOrdinary(Walk([], comps))
  {
    if comps != [] { SquashIsWalk(comps[..|comps| - 1]); }
  }

  lemma NormPathIsWalk(path: string)
    requires "/" <= path
    ensures NormPath(path) == (if TwoSlashes(path) then "/" else "") + Render(Walk([], Parts(path)))
  {
    hide Split, SquashAll, Walk, TwoSlashes;
    PartsAreNames(path);
    SquashIsWalk(Split(path));
    WalkSkipsEmpty([], Split(path));
  }

  lemma CanonicalShape(p: string)
    requires Canonical(p)
    ensures Parts(p) == [] ==> p == "/"
    ensures Parts(p) != [] ==> |p| > 1 && p[0] == '/' && p[1] != '/' && p[|p| - 1] != '/'
  {
    RenderStart(Parts(p));
  }

  lemma JoinedPath(path: string, cwd: string)
    requires Canonical(cwd)
    ensures "/" <= JoinPath(cwd, path)
    ensures TwoSlashes(JoinPath(cwd, path)) <==> TwoSlashes(path)
    ensures Parts(JoinPath(cwd, path)) == (if "/" <= path then [] else Parts(cwd)) + Parts(path)
  {
    if !("/" <= path) {
      hide Parts, Canonical, Render;
      CanonicalShape(cwd);
      if Parts(cwd) == [] {
        PartsJoined("", path);
        PartsOfNothing();
        assert "" + "/" + path == cwd + path;
      } else {
        PartsJoined(cwd, path);
        assert cwd + "/" + path == JoinPath(cwd, path);
        assert JoinPath(cwd, path)[1] == cwd[1] != '/';
      }
    }
  }

  /** A rendered list of names has one leading slash and, if not empty, no trailing one. */
  lemma {:induction false} RenderStart(parts: seq<string>)
    requires forall i :: 0 <= i < |parts| ==> IsName(parts[i])
    ensures parts == [] ==> Render(parts) == "/"
    ensures parts != [] ==> |Render(parts)| > 1 && Render(parts)[1] != '/' && Render(parts)[|Render(parts)| - 1] != '/'
  {
    if |parts| > 1 {
      RenderStart(parts[..|parts| - 1]);
      var last := parts[|parts| - 1];
      assert Render(parts) == Render(parts[..|parts| - 1]) + "/" + last;
      assert IsName(last) && Render(parts)[|Render(parts)| - 1] == last[|last| - 1];
    }
  }

  /** Listing and navigation look up the same row, except for two leading slashes. */
  lemma LookupAgreesIff(path: string, cwd: string)
    requires Canonical(cwd)
    ensures LookupKey(path, cwd) == NormalizePath(path, cwd) <==> !TwoSlashes(path)
    ensures TwoSlashes(path) ==> LookupKey(path, cwd) == "/" + NormalizePath(path, cwd)
  {
    hide Parts, Walk, NormPath, TwoSlashes;
    var base := if "/" <= path then [] else Parts(cwd);
    JoinedPath(path, cwd);
    NormPathIsWalk(JoinPath(cwd, path));
    NormalForm(path, cwd);
    WalkAppend([], base, Parts(path));
    WalkOrdinary([], base);
    assert [] + base == base;
  }
}
