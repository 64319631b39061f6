/** The commands of src/infra/fake_fs/commands.py as threads run them: the statements of
    sessions interleave, with no lock on the shared store. */
module FakeFsSteps {
  import opened Text
  import opened Paths
  import opened FakeFs

  /** What a session has looked up and not yet acted on. */
  datatype Plan = Entering(path: string) | Checked(path: string) | Making(path: string)

  datatype State = State(world: World, plans: map<string, Plan>)

  /** One look-up or one write: `cd` looks at a candidate and then moves; `mkdir` looks at the
      path and at its parent and then inserts; a download only writes. */
  datatype Step =
    | LookCd(candidate: string) | ActCd | LookFree(path: string) | LookParent | ActMkdir | Fetch(url: string)

  predicate ResolvesToDirectory(nodes: Table, path: string) {
    Resolve(nodes, path).Some? && Resolve(nodes, path).value.isDir
  }

  function PlanOf(s: State, session: string): Option<Plan> {
    if session in s.plans then Some(s.plans[session]) else None
  }

  /** `cd` looks a candidate up. */
  function LookedCd(s: State, session: string, candidate: string): State {
    var p := NormalizePath(Strip(candidate), CwdOf(s.world, session));
    if PlanOf(s, session).None? && ResolvesToDirectory(s.world.nodes, p)
    then s.(plans := s.plans[session := Entering(p)])
    else s
  }

  /** `cd` sets the current directory. */
  function Moved(s: State, session: string): State {
    match PlanOf(s, session)
    case Some(Entering(p)) => State(s.world.(cwds := s.world.cwds[session := p]), s.plans - {session})
    case _ => s
  }

  /** `mkdir` looks whether the path is free. */
  function LookedFree(s: State, session: string, path: string): State {
    var p := NormalizePath(path, CwdOf(s.world, session));
    if PlanOf(s, session).None? && Resolve(s.world.nodes, p).None?
    then s.(plans := s.plans[session := Checked(p)])
    else s
  }

  /** `mkdir` looks the parent up. */
  function LookedParent(s: State, session: string): State {
    match PlanOf(s, session)
    case Some(Checked(p)) =>
      s.(plans := if ResolvesToDirectory(s.world.nodes, Dirname(p)) then s.plans[session := Making(p)]
        else s.plans - {session})
    case _ => s
  }

  /** `mkdir` inserts, which raises if the path has been taken since. */
  function Made(s: State, session: string): State {
    match PlanOf(s, session)
    case Some(Making(p)) =>
      State(if p in s.world.nodes then s.world else s.world.(nodes := WithDir(s.world.nodes, p)), s.plans - {session})
    case _ => s
  }

  function Fetched(s: State, session: string, url: string): State {
    if PlanOf(s, session).None? then s.(world := Exec(s.world, session, Download(url))) else s
  }

  /** A step that is not the session's next changes nothing. */
  function Apply(s: State, session: string, step: Step): State {
    match step
    case LookCd(candidate) => LookedCd(s, session, candidate)
    case ActCd => Moved(s, session)
    case LookFree(path) => LookedFree(s, session, path)
    case LookParent => LookedParent(s, session)
    case ActMkdir => Made(s, session)
    case Fetch(url) => Fetched(s, session, url)
  }

  // ---------------------------------------------------------------- whole commands

  /** The looks of `cd` at its candidates, up to the first that is a directory. */
  function LookedAll(s: State, session: string, candidates: seq<string>): State
    decreases |candidates|
  {
    if candidates == [] then s else LookedAll(Apply(s, session, LookCd(candidates[0])), session, candidates[1..])
  }

  lemma {:induction false} LooksFindFirst(s: State, session: string, candidates: seq<string>)
    ensures PlanOf(s, session).Some? ==> LookedAll(s, session, candidates) == s
    ensures PlanOf(s, session).None? ==>
      var found := FirstDirectory(s.world.nodes, CwdOf(s.world, session), candidates);
      LookedAll(s, session, candidates)
      == if found.Some? then s.(plans := s.plans[session := Entering(found.value)]) else s
    decreases |candidates|
  {
    hide NormalizePath, LookupKey, Strip, CwdOf;
    if candidates != [] { LooksFindFirst(LookedCd(s, session, candidates[0]), session, candidates[1..]); }
  }

  lemma PlanUndone(plans: map<string, Plan>, session: string, plan: Plan)
    requires session !in plans
    ensures plans[session := plan] - {session} == plans
  {
  }

  /** With nothing in between, the steps of `cd` are the whole command. */
  lemma CdIsLooksAndAct(s: State, session: string, path: string)
    requires session !in s.plans
    ensures var after, whole := Apply(LookedAll(s, session, SplitBars(path)), session, ActCd),
      Exec(s.world, session, Cd(path));
      && after.plans == s.plans && after.world.nodes == whole.nodes
      && forall t :: CwdOf(after.world, t) == CwdOf(whole, t)
  {
    hide FirstDirectory, SplitBars, LookedAll;
    LooksFindFirst(s, session, SplitBars(path));
    var found := FirstDirectory(s.world.nodes, CwdOf(s.world, session), SplitBars(path));
    if found.Some? { PlanUndone(s.plans, session, Entering(found.value)); }
  }

  /** Likewise for `mkdir`. */
  lemma MkdirIsThreeSteps(s: State, session: string, path: string)
    requires session !in s.plans && Canonical(CwdOf(s.world, session))
    ensures Apply(Apply(Apply(s, session, LookFree(path)), session, LookParent), session, ActMkdir)
      == State(Exec(s.world, session, MakeDir(path)), s.plans)
  {
    hide NormalizePath, LookupKey, Canonical, Dirname, WithDir, CwdOf, LookedParent, Made, Resolve;
    var full := NormalizePath(path, CwdOf(s.world, session));
    NormalizeIsCanonical(path, CwdOf(s.world, session));
    FreeIsAbsent(s.world.nodes, full);
    PlanUndone(s.plans, session, Checked(full));
    PlanUndone(s.plans, session, Making(full));
    var free := LookedFree(s, session, path);
    if Resolve(s.world.nodes, full).None? {
      CheckedGoesOn(free, session, full);
      var parent := LookedParent(free, session);
      if ResolvesToDirectory(s.world.nodes, Dirname(full)) {
        assert free.plans[session := Making(full)] == s.plans[session := Making(full)];
        MakingGoesOn(parent, session, full);
      } else {
        NothingGoesOn(parent, session);
      }
    } else {
      NothingGoesOn(s, session);
    }
  }

  /** An insertion whose path has been taken since raises: the table stays, the plan is gone. */
  lemma TakenPathIsKept(s: State, session: string, p: string)
    requires PlanOf(s, session) == Some(Making(p)) && p in s.world.nodes
    ensures Apply(s, session, ActMkdir) == s.(plans := s.plans - {session})
  {
  }

  lemma FreeIsAbsent(nodes: Table, p: string)
    requires Canonical(p)
    ensures Resolve(nodes, p).None? <==> p !in nodes
  {
    CanonicalLookup(p);
  }

  lemma CheckedGoesOn(s: State, session: string, p: string)
    requires PlanOf(s, session) == Some(Checked(p))
    ensures LookedParent(s, session) == s.(
      plans := if ResolvesToDirectory(s.world.nodes, Dirname(p)) then s.plans[session := Making(p)]
        else s.plans - {session})
  {
  }

  lemma MakingGoesOn(s: State, session: string, p: string)
    requires PlanOf(s, session) == Some(Making(p)) && p !in s.world.nodes
    ensures Made(s, session) == State(s.world.(nodes := WithDir(s.world.nodes, p)), s.plans - {session})
  {
  }

  lemma NothingGoesOn(s: State, session: string)
    requires session !in s.plans
    ensures LookedParent(s, session) == s && Made(s, session) == s
  {
  }

  // ------------------------------------------------------------ every interleaving

  ghost predicate PlanHolds(nodes: Table, plan: Plan) {
    Canonical(plan.path) &&
    match plan
    case Entering(p) => IsDirectory(nodes, p)
    case Checked(p) => p != "/"
    case Making(p) => p != "/" && IsDirectory(nodes, ParentOf(p))
  }

  /** The store is a tree, every `cwd` a directory, and what was looked up still holds. */
  ghost predicate Sound(s: State, orphans: set<string>) {
    Inv(s.world, orphans) && forall t :: t in s.plans ==> PlanHolds(s.world.nodes, s.plans[t])
  }

  /** The target is safe, and if a directory then none that a session has looked up to enter
      it or to make one in it. */
  ghost predicate Unplanned(s: State, orphans: set<string>, target: string) {
    && Safe(s.world, orphans, target)
    && (IsDirectory(s.world.nodes, target) ==> forall t :: t in s.plans ==> !PlannedAt(s.plans[t], target))
  }

  predicate PlannedAt(plan: Plan, target: string) {
    match plan
    case Entering(p) => p == target
    case Checked(_) => false
    case Making(p) => ParentOf(p) == target
  }

  lemma FetchIsSoundIff(s: State, orphans: set<string>, session: string, url: string)
    requires Sound(s, orphans) && session !in s.plans
    ensures Sound(Fetched(s, session, url), orphans)
      <==> Unplanned(s, orphans, DownloadTarget(CwdOf(s.world, session), url))
  {
    hide Inv, Safe, DownloadTarget, Canonical, ParentOf, NameOf, CwdOf;
    var target := DownloadTarget(CwdOf(s.world, session), url);
    DownloadIsSoundIff(s.world, orphans, session, url);
    var next := Fetched(s, session, url);
    assert next.world.nodes == WithFile(s.world.nodes, target, "# downloaded from " + url);
    assert forall p :: IsDirectory(next.world.nodes, p) <==> IsDirectory(s.world.nodes, p) && p != target;
  }

  lemma PlanIsSound(s: State, orphans: set<string>, session: string, plan: Plan)
    requires Sound(s, orphans) && PlanHolds(s.world.nodes, plan)
    ensures Sound(s.(plans := s.plans[session := plan]), orphans)
  {
    hide Inv, PlanHolds;
  }

  lemma NoPlanIsSound(s: State, orphans: set<string>, session: string)
    requires Sound(s, orphans)
    ensures Sound(s.(plans := s.plans - {session}), orphans)
  {
    hide Inv, PlanHolds;
  }

  lemma DirectoryResolves(nodes: Table, p: string)
    requires Canonical(p)
    ensures ResolvesToDirectory(nodes, p) <==> IsDirectory(nodes, p)
  {
    CanonicalLookup(p);
    hide LookupKey, Canonical;
  }

  lemma LookCdIsSound(s: State, orphans: set<string>, session: string, candidate: string)
    requires Sound(s, orphans)
    ensures Sound(LookedCd(s, session, candidate), orphans)
  {
    hide NormalizePath, Canonical, Strip, CwdOf, ResolvesToDirectory, Parts, Walk;
    var p := NormalizePath(Strip(candidate), CwdOf(s.world, session));
    CwdIsGood(s.world, orphans, session);
    NormalizeIsCanonical(Strip(candidate), CwdOf(s.world, session));
    DirectoryResolves(s.world.nodes, p);
    hide Sound;
    if ResolvesToDirectory(s.world.nodes, p) { PlanIsSound(s, orphans, session, Entering(p)); }
  }

  lemma LookFreeIsSound(s: State, orphans: set<string>, session: string, path: string)
    requires Sound(s, orphans)
    ensures Sound(LookedFree(s, session, path), orphans)
  {
    hide NormalizePath, Canonical, CwdOf, Resolve, Parts, Walk;
    var p := NormalizePath(path, CwdOf(s.world, session));
    CwdIsGood(s.world, orphans, session);
    NormalizeIsCanonical(path, CwdOf(s.world, session));
    FreeIsAbsent(s.world.nodes, p);
    RootIsThere(s, orphans);
    hide Sound;
    if Resolve(s.world.nodes, p).None? { PlanIsSound(s, orphans, session, Checked(p)); }
  }

  lemma RootIsThere(s: State, orphans: set<string>)
    requires Sound(s, orphans)
    ensures "/" in s.world.nodes
  {
  }

  lemma LookParentIsSound(s: State, orphans: set<string>, session: string)
    requires Sound(s, orphans)
    ensures Sound(LookedParent(s, session), orphans)
  {
    if session in s.plans && s.plans[session].Checked? {
      var p := s.plans[session].path;
      assert PlanHolds(s.world.nodes, s.plans[session]);
      ParentLookup(p);
      hide LookupKey, Canonical, Dirname, ParentOf, Sound;
      CheckedGoesOn(s, session, p);
      NoPlanIsSound(s, orphans, session);
      if ResolvesToDirectory(s.world.nodes, Dirname(p)) { PlanIsSound(s, orphans, session, Making(p)); }
    }
  }

  lemma ParentLookup(p: string)
    requires Canonical(p) && p != "/"
    ensures LookupKey(Dirname(p), "/") == ParentOf(p)
  {
    CanonicalParent(p);
    DirnameIsParent(p);
    CanonicalLookup(ParentOf(p));
  }

  lemma MoveIsSound(s: State, orphans: set<string>, session: string)
    requires Sound(s, orphans)
    ensures Sound(Moved(s, session), orphans)
  {
    hide Canonical, ParentOf, NameOf, IsTree;
  }

  lemma MakingIsSound(s: State, orphans: set<string>, session: string)
    requires Sound(s, orphans)
    ensures Sound(Made(s, session), orphans)
  {
    hide Canonical, ParentOf, NameOf, IsTree;
    if session in s.plans && s.plans[session].Making? && s.plans[session].path !in s.world.nodes {
      DirKeepsTree(s.world.nodes, orphans, s.plans[session].path);
    }
  }

  /** Any step keeps the state sound, unless it is a download to a directory in use. */
  lemma StepIsSoundIff(s: State, orphans: set<string>, session: string, step: Step)
    requires Sound(s, orphans)
    ensures Sound(Apply(s, session, step), orphans) <==> Harmless(s, orphans, session, step)
  {
    hide Sound, Unplanned, DownloadTarget;
    match step
    case Fetch(url) => if session !in s.plans { FetchIsSoundIff(s, orphans, session, url); }
    case LookCd(candidate) => LookCdIsSound(s, orphans, session, candidate);
    case LookFree(path) => LookFreeIsSound(s, orphans, session, path);
    case LookParent => LookParentIsSound(s, orphans, session);
    case ActCd => MoveIsSound(s, orphans, session);
    case ActMkdir => MakingIsSound(s, orphans, session);
  }

  ghost predicate Harmless(s: State, orphans: set<string>, session: string, step: Step) {
    step.Fetch? && session !in s.plans ==> Unplanned(s, orphans, DownloadTarget(CwdOf(s.world, session), step.url))
  }

  type Steps = seq<(string, Step)>

  function Run(s: State, steps: Steps): State {
    if steps == [] then s
    else
      var (session, step) := steps[|steps| - 1];
      Apply(Run(s, steps[..|steps| - 1]), session, step)
  }

  ghost predicate AlwaysSound(s: State, orphans: set<string>, steps: Steps) {
    forall n :: 0 <= n <= |steps| ==> Sound(Run(s, steps[..n]), orphans)
  }

  ghost predicate HarmlessRun(s: State, orphans: set<string>, steps: Steps) {
    forall i :: 0 <= i < |steps| ==> Harmless(Run(s, steps[..i]), orphans, steps[i].0, steps[i].1)
  }

  /** On every interleaving of the statements of sessions, the store stays a tree, every `cwd`
      a directory and every look-up true, exactly when no download hits a directory in use. */
  lemma {:induction false} InterleavingsAreSoundIff(s: State, orphans: set<string>, steps: Steps)
    requires Sound(s, orphans)
    ensures AlwaysSound(s, orphans, steps) <==> HarmlessRun(s, orphans, steps)
  {
    hide Sound, Harmless, Apply;
    if steps == [] {
      assert steps[..0] == [] && Run(s, []) == s;
    } else {
      var front, last := steps[..|steps| - 1], steps[|steps| - 1];
      InterleavingsAreSoundIff(s, orphans, front);
      assert front[..|front|] == front;
      if AlwaysSound(s, orphans, front) {
        assert Sound(Run(s, front[..|front|]), orphans);
        StepIsSoundIff(Run(s, front), orphans, last.0, last.1);
      }
      SoundSplit(s, orphans, steps);
      HarmlessSplit(s, orphans, steps);
    }
  }

  lemma SoundSplit(s: State, orphans: set<string>, steps: Steps)
    requires steps != []
    ensures AlwaysSound(s, orphans, steps) <==>
      AlwaysSound(s, orphans, steps[..|steps| - 1]) && Sound(Run(s, steps), orphans)
  {
    hide Sound, Run;
    var front := steps[..|steps| - 1];
    forall i | 0 <= i <= |front| ensures front[..i] == steps[..i] {}
    assert steps[..|steps|] == steps;
    if AlwaysSound(s, orphans, steps) {
      forall n | 0 <= n <= |front| ensures Sound(Run(s, front[..n]), orphans) {
        assert Sound(Run(s, steps[..n]), orphans);
      }
      assert Sound(Run(s, steps[..|steps|]), orphans);
    }
    if AlwaysSound(s, orphans, front) && Sound(Run(s, steps), orphans) {
      forall n | 0 <= n <= |steps| ensures Sound(Run(s, steps[..n]), orphans) {
        if n < |steps| { assert Sound(Run(s, front[..n]), orphans); }
      }
    }
  }

  lemma HarmlessSplit(s: State, orphans: set<string>, steps: Steps)
    requires steps != []
    ensures var front, last := steps[..|steps| - 1], steps[|steps| - 1];
      HarmlessRun(s, orphans, steps) <==>
        HarmlessRun(s, orphans, front) && Harmless(Run(s, front), orphans, last.0, last.1)
  {
    hide Harmless, Run;
    var front := steps[..|steps| - 1];
    forall i | 0 <= i < |front| ensures front[..i] == steps[..i] && front[i] == steps[i] {}
    assert steps[..|front|] == front;
  }

  /** No download is aimed at the root or at a directory when it is written. */
  ghost predicate FetchesNoDirectory(s: State, steps: Steps) {
    forall i :: 0 <= i < |steps| && steps[i].1.Fetch? ==>
      var w := Run(s, steps[..i]).world;
      var target := DownloadTarget(CwdOf(w, steps[i].0), steps[i].1.url);
      target != "/" && !IsDirectory(w.nodes, target)
  }

  /** In particular when no download is aimed at a directory. */
  lemma FileFetchesAreSound(s: State, orphans: set<string>, steps: Steps)
    requires Sound(s, orphans) && FetchesNoDirectory(s, steps)
    ensures AlwaysSound(s, orphans, steps)
  {
    hide Sound, Run, DownloadTarget;
    InterleavingsAreSoundIff(s, orphans, steps);
  }

  // ---------------------------------------------------------------------- a bad schedule

  /** One session looks at an empty directory, another downloads a file of its name, which is
      safe as whole commands go, and the first then moves into the file. */
  lemma LookThenFetchBreaks(name: string)
    requires Ordinary(name) && Strip(name) == name
    ensures var s := State(World(WithDir(map["/" := Node(None, "/", true, None)], "/" + name), map[]), map[]);
      var end := Moved(Fetched(LookedCd(s, "b", name), "a", name), "b");
      && Sound(s, {}) && Safe(s.world, {}, DownloadTarget("/", name))
      && end.world.cwds == map["b" := "/" + name] && !Inv(end.world, {})
  {
    var empty: Table := map["/" := Node(None, "/", true, None)];
    var dir := "/" + name;
    NameUnderRoot(name);
    TargetUnderRoot(name);
    ChildOfRoot(name);
    OneDirectory(dir);
    CanonicalLookup(dir);
    hide WithDir, Canonical, ParentOf, NameOf, NormalizePath, DownloadTarget, Ordinary, Strip, IsTree, LookupKey,
      Sound, Safe, Inv, Moved, Fetched, LookedCd;
    ScheduleBreaks(WithDir(empty, dir), name, dir);
  }

  lemma OneDirectory(dir: string)
    requires Canonical(dir) && ParentOf(dir) == "/" && dir != "/"
    ensures var nodes := WithDir(map["/" := Node(None, "/", true, None)], dir);
      IsTree(nodes, {}) && nodes.Keys == {"/", dir} && IsDirectory(nodes, dir)
  {
    hide Canonical, ParentOf, NameOf, IsTree;
    EmptyIsTree();
    DirKeepsTree(map["/" := Node(None, "/", true, None)], {}, dir);
  }

  lemma ScheduleBreaks(nodes: Table, name: string, dir: string)
    requires IsTree(nodes, {}) && nodes.Keys == {"/", dir} && IsDirectory(nodes, dir) && ParentOf(dir) == "/" &&
      dir != "/"
    requires Strip(name) == name && NormalizePath(name, "/") == DownloadTarget("/", name) == LookupKey(dir, "/") == dir
    ensures var s := State(World(nodes, map[]), map[]);
      var end := Moved(Fetched(LookedCd(s, "b", name), "a", name), "b");
      && Sound(s, {}) && Safe(s.world, {}, dir)
      && end.world.cwds == map["b" := dir] && !Inv(end.world, {})
  {
    hide Canonical, ParentOf, NameOf, NormalizePath, DownloadTarget, Strip, IsTree, LookupKey;
    var s := State(World(nodes, map[]), map[]);
    OnlyTwoRows(nodes, dir);
    assert LookedCd(s, "b", name) == s.(plans := map["b" := Entering(dir)]);
    var fetched := Fetched(LookedCd(s, "b", name), "a", name);
    assert !IsDirectory(fetched.world.nodes, dir) && fetched.plans == map["b" := Entering(dir)];
  }

  lemma OnlyTwoRows(nodes: Table, dir: string)
    requires nodes.Keys == {"/", dir} && dir != "/" && ParentOf(dir) == "/"
    ensures forall p :: p in nodes && p != "/" ==> ParentOf(p) != dir
  {
  }

  lemma NameUnderRoot(name: string)
    requires Ordinary(name)
    ensures NormalizePath(name, "/") == "/" + name
  {
    hide NormalizePath, Parts, Canonical, Render, Ordinary;
    RootIsCanonical();
    ChildParts(name);
    OneName(name, "/");
    SameParts(NormalizePath(name, "/"), "/" + name);
  }

  lemma RootIsCanonical()
    ensures Canonical("/") && Parts("/") == []
  {
    RenderIsCanonical([]);
    RenderStart([]);
  }

  lemma ChildParts(name: string)
    requires Ordinary(name)
    ensures Canonical("/" + name) && Parts("/" + name) == [name] && Push([], name) == [name] && IsName(name)
  {
    hide Parts;
    RenderedParent([], name);
    RenderIsCanonical([name]);
    assert [] + [name] == [name];
  }

  lemma TargetUnderRoot(name: string)
    requires Ordinary(name) && Strip(name) == name
    ensures DownloadTarget("/", name) == "/" + name
  {
    SplitName(name);
    NameUnderRoot(name);
    hide NormalizePath;
  }
}
