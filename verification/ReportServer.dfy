/** The report generate/cancel/worker protocol of the API server (src/api/ioc_server.py),
    one step for each critical section or database write. */
module ReportServer {
  import opened Text

  datatype Status = Generating | Finished | Error | NotFound

  /** Where a worker thread stands in `run`; `StartFailed` if `t.start()` raised. */
  datatype Point =
    | NotStarted | WriteGenerating | Spawn | Expose | Communicate | WriteTimeout
    | Recheck(ok: bool) | WriteResult(ok: bool) | WriteFailure | FinalPop | Stopped | StartFailed

  datatype Worker = Worker(cid: string, point: Point)

  /** An entry of `_generating`: the registered thread and its process once exposed. */
  datatype Entry = Entry(thread: nat, process: Option<nat>)

  /** A request between its critical sections. */
  datatype Request = Registering(cid: string) | Cancelling(cid: string, written: bool)

  datatype Server = Server(generating: map<string, Entry>, workers: seq<Worker>, requests: map<nat, Request>,
                           rows: map<string, Status>)

  const IDLE := Server(map[], [], map[], map[])

  /** What the outside world lets a worker's next action do. */
  datatype Luck = Fine(ok: bool) | Timeout | Raise

  datatype Step =
    | Check(request: nat, cid: string)
    | Register(request: nat)
    | CheckAndRegister(cid: string)
    | Start(thread: nat)
    | FailStart(thread: nat)
    | Advance(thread: nat, luck: Luck)
    | CancelPop(request: nat, cid: string)
    | CancelWrite(request: nat)
    | CancelDelete(request: nat)
    | RequestFails(request: nat)

  function Registered(s: Server, cid: string): Server {
    s.(generating := s.generating[cid := Entry(|s.workers|, None)], workers := s.workers + [Worker(cid, NotStarted)])
  }

  function MoveTo(s: Server, t: nat, point: Point): Server
    requires t < |s.workers|
  {
    s.(workers := s.workers[t := Worker(s.workers[t].cid, point)])
  }

  /** The next action of worker `t`; an exception leads to the failure row, and every way
      leads to the final pop. */
  function Work(s: Server, t: nat, luck: Luck): Server
    requires t < |s.workers|
  {
    var cid := s.workers[t].cid;
    match s.workers[t].point
    case NotStarted => s
    case WriteGenerating =>
      if luck.Raise? then MoveTo(s, t, WriteFailure) else MoveTo(s, t, Spawn).(rows := s.rows[cid := Generating])
    case Spawn => MoveTo(s, t, if luck.Raise? then WriteFailure else Expose)
    case Expose =>
      if cid in s.generating
      then MoveTo(s, t, Communicate).(generating := s.generating[cid := Entry(s.generating[cid].thread, Some(t))])
      else MoveTo(s, t, Communicate)
    case Communicate =>
      MoveTo(s, t, match luck case Raise => WriteFailure case Timeout => WriteTimeout case Fine(ok) => Recheck(ok))
    case WriteTimeout =>
      if luck.Raise? then MoveTo(s, t, WriteFailure) else MoveTo(s, t, FinalPop).(rows := s.rows[cid := Error])
    case Recheck(ok) =>
      MoveTo(s, t, if luck.Raise? then WriteFailure else if cid in s.generating then WriteResult(ok) else FinalPop)
    case WriteResult(ok) =>
      if luck.Raise? then MoveTo(s, t, WriteFailure)
      else MoveTo(s, t, FinalPop).(rows := s.rows[cid := if ok then Finished else Error])
    case WriteFailure =>
      if luck.Raise? then MoveTo(s, t, FinalPop) else MoveTo(s, t, FinalPop).(rows := s.rows[cid := Error])
    case FinalPop => MoveTo(s, t, Stopped).(generating := s.generating - {cid})
    case Stopped => s
    case StartFailed => s
  }

  /** A step that is not enabled changes nothing. */
  function Apply(s: Server, step: Step): Server {
    match step
    case Check(r, cid) =>
      if r in s.requests || cid in s.generating then s else s.(requests := s.requests[r := Registering(cid)])
    case Register(r) =>
      if r in s.requests && s.requests[r].Registering?
      then Registered(s, s.requests[r].cid).(requests := s.requests - {r})
      else s
    case CheckAndRegister(cid) => if cid in s.generating then s else Registered(s, cid)
    case Start(t) => if t < |s.workers| && s.workers[t].point.NotStarted? then MoveTo(s, t, WriteGenerating) else s
    case FailStart(t) => if t < |s.workers| && s.workers[t].point.NotStarted? then MoveTo(s, t, StartFailed) else s
    case Advance(t, luck) => if t < |s.workers| then Work(s, t, luck) else s
    case CancelPop(r, cid) =>
      if r in s.requests || cid !in s.generating then s
      else s.(generating := s.generating - {cid}, requests := s.requests[r := Cancelling(cid, false)])
    case CancelWrite(r) =>
      if r in s.requests && s.requests[r].Cancelling? && !s.requests[r].written
      then s.(rows := s.rows[s.requests[r].cid := NotFound],
        requests := s.requests[r := Cancelling(s.requests[r].cid, true)])
      else s
    case CancelDelete(r) =>
      if r in s.requests && s.requests[r].Cancelling? && s.requests[r].written
      then s.(rows := s.rows - {s.requests[r].cid}, requests := s.requests - {r})
      else s
    case RequestFails(r) => s.(requests := s.requests - {r})
  }

  function Run(steps: seq<Step>): Server {
    if steps == [] then IDLE else Apply(Run(steps[..|steps| - 1]), steps[|steps| - 1])
  }

  /** The server before step `i` of the run. */
  function At(steps: seq<Step>, i: nat): Server
    requires i <= |steps|
  {
    Run(steps[..i])
  }

  lemma RunMore(steps: seq<Step>, step: Step)
    ensures Run(steps + [step]) == Apply(Run(steps), step)
  {
    assert (steps + [step])[..|steps|] == steps;
  }

  lemma AtFront(steps: seq<Step>, i: nat)
    requires steps != [] && i < |steps|
    ensures At(steps, i) == At(steps[..|steps| - 1], i) && At(steps, |steps|) == Run(steps)
  {
    assert steps[..|steps| - 1][..i] == steps[..i] && steps[..|steps|] == steps;
  }

  /** A check and a registration with nothing between them are the combined step. */
  lemma CheckThenRegister(s: Server, r: nat, cid: string)
    requires r !in s.requests
    ensures Apply(Apply(s, Check(r, cid)), Register(r)) == Apply(s, CheckAndRegister(cid))
  {
    assert s.requests[r := Registering(cid)] - {r} == s.requests;
  }

  // -------------------------------------------------------------- the handlers' own code

  /** The dictionary, the rows, the threads and the requests, updated in place. */
  class ReportApi {
    var generating: map<string, Entry>
    var workers: seq<Worker>
    var requests: map<nat, Request>
    var rows: map<string, Status>

    ghost function View(): Server
      reads this
    {
      Server(generating, workers, requests, rows)
    }

    constructor ()
      ensures View() == IDLE
    {
      generating, workers, requests, rows := map[], [], map[], map[];
    }

    /** The first critical section of a generate request. */
    method CheckGenerating(request: nat, cid: string) returns (already: bool)
      requires request !in requests
      modifies this
      ensures View() == Apply(old(View()), Check(request, cid))
      ensures already <==> requests == old(requests)
    {
      already := cid in generating;
      if !already { requests := requests[request := Registering(cid)]; }
    }

    /** The second one, behind which the thread is started. */
    method RegisterThread(request: nat)
      requires request in requests && requests[request].Registering?
      modifies this
      ensures View() == Apply(old(View()), Register(request))
    {
      var cid := requests[request].cid;
      generating, workers := generating[cid := Entry(|workers|, None)], workers + [Worker(cid, NotStarted)];
      requests := requests - {request};
    }

    method StartThread(thread: nat, raises: bool)
      requires thread < |workers| && workers[thread].point.NotStarted?
      modifies this
      ensures View() == Apply(old(View()), if raises then FailStart(thread) else Start(thread))
    {
      GoTo(thread, if raises then StartFailed else WriteGenerating);
    }

    method GoTo(thread: nat, point: Point)
      requires thread < |workers|
      modifies `workers
      ensures View() == MoveTo(old(View()), thread, point)
    {
      workers := workers[thread := Worker(workers[thread].cid, point)];
    }

    /** Exposes the process if the campaign is still there, keeping its thread. */
    method ExposeProcess(thread: nat, luck: Luck)
      requires thread < |workers| && workers[thread].point.Expose?
      modifies this
      ensures View() == Apply(old(View()), Advance(thread, luck))
    {
      var cid := workers[thread].cid;
      if cid in generating { generating := generating[cid := Entry(generating[cid].thread, Some(thread))]; }
      GoTo(thread, Communicate);
    }

    /** Writes the row that the thread's position calls for; an exception leads to the
        failure row, and one there to the final pop. */
    method WriteRow(thread: nat, luck: Luck)
      requires thread < |workers|
      requires var p := workers[thread].point;
        p.WriteGenerating? || p.WriteTimeout? || p.WriteResult? || p.WriteFailure?
      modifies this
      ensures View() == Apply(old(View()), Advance(thread, luck))
    {
      var cid, point := workers[thread].cid, workers[thread].point;
      if luck.Raise? {
        GoTo(thread, if point.WriteFailure? then FinalPop else WriteFailure);
        return;
      }
      var done := point.WriteResult? && point.ok;
      var status := if point.WriteGenerating? then Generating else if done then Finished else Error;
      rows := rows[cid := status];
      GoTo(thread, if point.WriteGenerating? then Spawn else FinalPop);
    }

    /** Looks once more whether the campaign was cancelled. */
    method RecheckGenerating(thread: nat, luck: Luck)
      requires thread < |workers| && workers[thread].point.Recheck?
      modifies this
      ensures View() == Apply(old(View()), Advance(thread, luck))
    {
      var stillRunning := workers[thread].cid in generating;
      if luck.Raise? {
        GoTo(thread, WriteFailure);
      } else if stillRunning {
        GoTo(thread, WriteResult(workers[thread].point.ok));
      } else {
        GoTo(thread, FinalPop);
      }
    }

    /** The final pop removes the entry of the campaign, whichever thread it names. */
    method PopAtEnd(thread: nat, luck: Luck)
      requires thread < |workers| && workers[thread].point.FinalPop?
      modifies this
      ensures View() == Apply(old(View()), Advance(thread, luck))
    {
      generating := generating - {workers[thread].cid};
      GoTo(thread, Stopped);
    }

    /** The critical section of a cancel request, which answers 404 without an entry. */
    method PopForCancel(request: nat, cid: string) returns (entry: Option<Entry>)
      requires request !in requests
      modifies this
      ensures View() == Apply(old(View()), CancelPop(request, cid))
      ensures entry.Some? <==> request in requests
    {
      entry := if cid in generating then Some(generating[cid]) else None;
      if entry.None? { return; }
      generating, requests := generating - {cid}, requests[request := Cancelling(cid, false)];
    }

    /** The row write of a cancel; if it raises, the request ends there. */
    method WriteForCancel(request: nat, raises: bool)
      requires request in requests && requests[request].Cancelling? && !requests[request].written
      modifies this
      ensures View() == Apply(old(View()), if raises then RequestFails(request) else CancelWrite(request))
    {
      if raises {
        requests := requests - {request};
        return;
      }
      var cid := requests[request].cid;
      rows, requests := rows[cid := NotFound], requests[request := Cancelling(cid, true)];
    }

    method DeleteForCancel(request: nat, raises: bool)
      requires request in requests && requests[request].Cancelling? && requests[request].written
      modifies this
      ensures View() == Apply(old(View()), if raises then RequestFails(request) else CancelDelete(request))
    {
      if !raises { rows := rows - {requests[request].cid}; }
      requests := requests - {request};
    }
  }

  // ------------------------------------------------------------ every interleaving

  /** A campaign in `_generating` names one of its threads, before its final pop. */
  ghost predicate EntriesAreLive(s: Server) {
    forall cid :: cid in s.generating ==>
      var t := s.generating[cid].thread;
      t < |s.workers| && s.workers[t].cid == cid && s.workers[t].point != Stopped
  }

  lemma StepKeepsEntriesLive(s: Server, step: Step)
    requires EntriesAreLive(s)
    ensures EntriesAreLive(Apply(s, step))
  {
    match step
    case Advance(t, luck) =>
      if t < |s.workers| { hide Apply; WorkKeepsEntriesLive(s, t, luck); AdvanceIsWork(s, t, luck); }
    case _ => { hide Work; }
  }

  lemma AdvanceIsWork(s: Server, t: nat, luck: Luck)
    requires t < |s.workers|
    ensures Apply(s, Advance(t, luck)) == Work(s, t, luck)
  {
  }

  lemma WorkKeepsEntriesLive(s: Server, t: nat, luck: Luck)
    requires EntriesAreLive(s) && t < |s.workers|
    ensures EntriesAreLive(Work(s, t, luck))
  {
    hide Work;
    WorkMovesOne(s, t, luck);
    WorkKeepsThreads(s, t, luck);
  }

  /** A worker moves itself only, and none comes back to life. */
  lemma WorkMovesOne(s: Server, t: nat, luck: Luck)
    requires t < |s.workers|
    ensures var next := Work(s, t, luck);
      && |next.workers| == |s.workers| && next.workers[t].cid == s.workers[t].cid && next.requests == s.requests
      && (forall u :: 0 <= u < |s.workers| && u != t ==> next.workers[u] == s.workers[u])
      && (Live(next, t) ==> Live(s, t))
  {
    MovingNowhere(s, t);
    var point := WorkIsMove(s, t, luck);
    hide Work;
  }

  lemma MovingNowhere(s: Server, t: nat)
    requires t < |s.workers|
    ensures MoveTo(s, t, s.workers[t].point) == s
  {
    assert s.workers[t := Worker(s.workers[t].cid, s.workers[t].point)] == s.workers;
  }

  lemma WorkIsMove(s: Server, t: nat, luck: Luck) returns (point: Point)
    requires t < |s.workers| && MoveTo(s, t, s.workers[t].point) == s
    ensures var next := Work(s, t, luck); next == MoveTo(s, t, point).(generating := next.generating, rows := next.rows)
    ensures !Live(s, t) ==> point == s.workers[t].point
  {
    hide MoveTo;
    point := s.workers[t].point;
    match s.workers[t].point
    case NotStarted =>
    case WriteGenerating => point := if luck.Raise? then WriteFailure else Spawn;
    case Spawn => point := if luck.Raise? then WriteFailure else Expose;
    case Expose => point := Communicate;
    case Communicate =>
      point := match luck case Raise => WriteFailure case Timeout => WriteTimeout case Fine(ok) => Recheck(ok);
    case WriteTimeout => point := if luck.Raise? then WriteFailure else FinalPop;
    case Recheck(ok) =>
      point := if luck.Raise? then WriteFailure else if s.workers[t].cid in s.generating then WriteResult(ok)
        else FinalPop;
    case WriteResult(ok) => point := if luck.Raise? then WriteFailure else FinalPop;
    case WriteFailure => point := FinalPop;
    case FinalPop => point := Stopped;
    case Stopped =>
    case StartFailed =>
  }

  /** A worker never changes which thread an entry names, and removes its campaign's entry
      when it stops. */
  lemma WorkKeepsThreads(s: Server, t: nat, luck: Luck)
    requires t < |s.workers|
    ensures var next := Work(s, t, luck);
      && next.generating.Keys <= s.generating.Keys
      && (forall c :: c in next.generating ==> next.generating[c].thread == s.generating[c].thread)
      && (forall c :: c in s.generating && c !in next.generating ==>
        c == s.workers[t].cid && s.workers[t].point == FinalPop)
      && (t < |next.workers| && next.workers[t].point == Stopped ==>
        s.workers[t].point == Stopped || s.workers[t].cid !in next.generating)
  {
  }

  lemma {:induction false} EntriesStayLive(steps: seq<Step>)
    ensures EntriesAreLive(Run(steps))
  {
    if steps != [] {
      EntriesStayLive(steps[..|steps| - 1]);
      StepKeepsEntriesLive(Run(steps[..|steps| - 1]), steps[|steps| - 1]);
    }
  }

  /** No request is under way and no thread runs or waits to. */
  predicate Quiescent(s: Server) {
    s.requests == map[] && forall t :: 0 <= t < |s.workers| ==> s.workers[t].point in {Stopped, StartFailed}
  }

  /** The entry of `cid` names a thread that could not be started. */
  predicate FailedEntry(s: Server, cid: string) {
    cid in s.generating && s.generating[cid].thread < |s.workers| &&
      s.workers[s.generating[cid].thread].point == StartFailed
  }

  /** Whatever interleaving led there, what a quiescent server still holds are the entries of
      threads that could not be started; it is empty exactly when there are none. */
  lemma QuiescentIsEmptyIff(steps: seq<Step>)
    requires Quiescent(Run(steps))
    ensures forall cid :: cid in Run(steps).generating <==> FailedEntry(Run(steps), cid)
    ensures Run(steps).generating == map[] <==> !exists cid :: FailedEntry(Run(steps), cid)
  {
    EntriesStayLive(steps);
    var s := Run(steps);
    if !exists cid :: FailedEntry(s, cid) {
      assert forall cid :: cid in s.generating ==> FailedEntry(s, cid);
      assert s.generating.Keys == {};
    }
  }

  // ---------------------------------------------------------- one worker per campaign

  predicate Live(s: Server, t: int) {
    0 <= t < |s.workers| && s.workers[t].point != Stopped && s.workers[t].point != StartFailed
  }

  /** No campaign has two live workers. */
  ghost predicate OneEach(s: Server) {
    forall t, u :: Live(s, t) && Live(s, u) && s.workers[t].cid == s.workers[u].cid ==> t == u
  }

  ghost predicate Idle(s: Server, cid: string) {
    forall t :: Live(s, t) ==> s.workers[t].cid != cid
  }

  /** The campaign that the step registers a thread for, if it takes effect. */
  function Enrolled(s: Server, step: Step): Option<string> {
    match step
    case Register(r) => if r in s.requests && s.requests[r].Registering? then Some(s.requests[r].cid) else None
    case CheckAndRegister(cid) => if cid in s.generating then None else Some(cid)
    case _ => None
  }

  ghost predicate Enrols(s: Server, step: Step, cid: string) {
    Enrolled(s, step) == Some(cid)
  }

  lemma EnrolledIsAdded(s: Server, step: Step, cid: string)
    requires Enrols(s, step, cid)
    ensures var next := Apply(s, step);
      && next.workers == s.workers + [Worker(cid, NotStarted)] &&
        next.generating == s.generating[cid := Entry(|s.workers|, None)]
      && next.rows == s.rows
  {
    hide Work;
  }

  /** Any other step leaves the campaigns of the threads alone and brings none to life. */
  lemma OthersAddNobody(s: Server, step: Step)
    requires Enrolled(s, step).None?
    ensures var next := Apply(s, step);
      && |next.workers| == |s.workers|
      && (forall t :: 0 <= t < |s.workers| ==> next.workers[t].cid == s.workers[t].cid)
      && (forall t :: Live(next, t) ==> Live(s, t))
  {
    if step.Advance? && step.thread < |s.workers| {
      AdvanceIsWork(s, step.thread, step.luck);
      WorkMovesOne(s, step.thread, step.luck);
      hide Apply, Work;
    } else {
      hide Work;
    }
  }

  lemma OneEachStep(s: Server, step: Step)
    requires OneEach(s)
    ensures OneEach(Apply(s, step)) <==> FindsIdle(s, step)
  {
    hide Apply;
    var next := Apply(s, step);
    if Enrolled(s, step).None? {
      OthersAddNobody(s, step);
    } else {
      var cid := Enrolled(s, step).value;
      assert Enrols(s, step, cid);
      EnrolledIsAdded(s, step, cid);
      assert forall t :: Live(next, t) <==> Live(s, t) || t == |s.workers|;
      if t :| Live(s, t) && s.workers[t].cid == cid {
        assert Live(next, t) && Live(next, |s.workers|) && next.workers[t].cid == next.workers[|s.workers|].cid;
      }
    }
  }

  ghost predicate AlwaysOneEach(steps: seq<Step>) {
    forall n :: 0 <= n <= |steps| ==> OneEach(At(steps, n))
  }

  /** Every registration that takes effect finds the campaign without a live worker. */
  ghost predicate EnrolsIdle(steps: seq<Step>) {
    forall i :: 0 <= i < |steps| ==> FindsIdle(At(steps, i), steps[i])
  }

  ghost predicate FindsIdle(s: Server, step: Step) {
    forall cid :: Enrols(s, step, cid) ==> Idle(s, cid)
  }

  lemma AlwaysOneEachStep(steps: seq<Step>)
    requires steps != []
    ensures AlwaysOneEach(steps) <==> AlwaysOneEach(steps[..|steps| - 1]) && OneEach(Run(steps))
  {
    hide Run, OneEach;
    var front := steps[..|steps| - 1];
    forall n | 0 <= n < |steps|
      ensures At(steps, n) == At(front, n) && At(steps, |steps|) == Run(steps)
    {
      AtFront(steps, n);
    }
    AtFront(steps, 0);
    if AlwaysOneEach(front) && OneEach(Run(steps)) {
      forall n | 0 <= n <= |steps| ensures OneEach(At(steps, n)) {
        if n < |steps| { assert OneEach(At(front, n)); }
      }
    }
    if AlwaysOneEach(steps) {
      forall n | 0 <= n <= |front| ensures OneEach(At(front, n)) { assert OneEach(At(steps, n)); }
      assert OneEach(At(steps, |steps|));
    }
  }

  /** No campaign ever has two live workers exactly when every registration that takes
      effect finds none: so a worker that a cancel popped must have stopped. */
  lemma {:induction false} OneWorkerIff(steps: seq<Step>)
    ensures AlwaysOneEach(steps) <==> EnrolsIdle(steps)
  {
    hide Apply, OneEach, Idle, Enrolled;
    if steps == [] {
      assert At(steps, 0) == IDLE;
      NobodyYet();
    } else {
      var front, last := steps[..|steps| - 1], steps[|steps| - 1];
      OneWorkerIff(front);
      AlwaysOneEachStep(steps);
      forall i | 0 <= i < |steps| ensures At(steps, i) == Run(steps[..i]) &&
        (i < |front| ==> At(front, i) == At(steps, i)) {
        AtFront(steps, i);
      }
      assert front[..|front|] == front && At(steps, |front|) == Run(front);
      if AlwaysOneEach(front) {
        assert OneEach(At(front, |front|));
        OneEachStep(Run(front), last);
      }
      EnrolsIdleStep(steps);
    }
  }

  lemma NobodyYet()
    ensures OneEach(IDLE)
  {
  }

  lemma EnrolsIdleStep(steps: seq<Step>)
    requires steps != []
    ensures var front, last := steps[..|steps| - 1], steps[|steps| - 1];
      EnrolsIdle(steps) <==> EnrolsIdle(front) && FindsIdle(Run(front), last)
  {
    hide Run, Enrols, Idle;
    var front, last := steps[..|steps| - 1], steps[|steps| - 1];
    forall i | 0 <= i < |front| ensures At(front, i) == At(steps, i) && front[i] == steps[i] {
      AtFront(steps, i);
    }
    assert At(steps, |front|) == Run(front) && steps[|front|] == last;
  }

  // ------------------------------------------------------------------ without cancels

  /** The entry of `cid` names a thread that was started or is about to be. */
  predicate Listed(s: Server, cid: string) {
    cid in s.generating && !FailedEntry(s, cid)
  }

  /** Every live worker is the one that the dictionary names for its campaign. */
  ghost predicate LiveIsNamed(s: Server) {
    forall t :: Live(s, t) ==> Named(s, t)
  }

  predicate Named(s: Server, t: int) {
    0 <= t < |s.workers| && s.workers[t].cid in s.generating && s.generating[s.workers[t].cid].thread == t
  }

  lemma UnlistedIsIdle(s: Server, cid: string)
    requires LiveIsNamed(s) && !Listed(s, cid)
    ensures Idle(s, cid)
  {
  }

  lemma NamedStep(s: Server, step: Step)
    requires LiveIsNamed(s) && !step.CancelPop?
    requires forall cid :: Enrols(s, step, cid) ==> !Listed(s, cid)
    ensures LiveIsNamed(Apply(s, step))
  {
    hide Apply, Enrolled, Listed;
    var next := Apply(s, step);
    if Enrolled(s, step).Some? {
      var cid := Enrolled(s, step).value;
      assert Enrols(s, step, cid);
      EnrolledIsAdded(s, step, cid);
      UnlistedIsIdle(s, cid);
      assert forall t :: Live(next, t) <==> Live(s, t) || t == |s.workers|;
    } else {
      OthersAddNobody(s, step);
      OthersKeepThreads(s, step);
      forall t | Live(next, t)
        ensures Named(next, t)
      {
        assert Live(s, t) && Named(s, t);
      }
    }
  }

  /** Without cancels, an entry goes only at the final pop of a worker of its campaign. */
  lemma OthersKeepThreads(s: Server, step: Step)
    requires Enrolled(s, step).None? && !step.CancelPop?
    ensures var next := Apply(s, step);
      forall c :: c in s.generating ==>
        if c in next.generating then next.generating[c].thread == s.generating[c].thread
        else exists t :: Live(s, t) && s.workers[t].cid == c && !Live(next, t)
  {
    if step.Advance? && step.thread < |s.workers| {
      AdvanceIsWork(s, step.thread, step.luck);
      hide Apply;
      WorkKeepsThreads(s, step.thread, step.luck);
      assert s.workers[step.thread].point == FinalPop ==>
        Live(s, step.thread) && !Live(Work(s, step.thread, step.luck), step.thread);
    } else {
      hide Work;
    }
  }

  ghost predicate WithoutCancels(steps: seq<Step>) {
    forall i :: 0 <= i < |steps| ==> !steps[i].CancelPop?
  }

  /** No registration that takes effect finds its campaign in `_generating`, unless under a
      thread that could not be started. */
  ghost predicate EnrolsUnlisted(steps: seq<Step>) {
    forall i, cid :: 0 <= i < |steps| && Enrols(At(steps, i), steps[i], cid) ==> !Listed(At(steps, i), cid)
  }

  lemma {:induction false} UnlistedRunsAreNamed(steps: seq<Step>, n: nat)
    requires WithoutCancels(steps) && EnrolsUnlisted(steps) && n <= |steps|
    ensures LiveIsNamed(At(steps, n))
  {
    hide Apply, Listed, Enrols;
    if n > 0 {
      UnlistedRunsAreNamed(steps, n - 1);
      assert steps[..n][..n - 1] == steps[..n - 1];
      NamedStep(At(steps, n - 1), steps[n - 1]);
    }
  }

  /** In a run without cancels, no campaign ever has two live workers exactly when every
      registration re-finds what its check found. */
  lemma OneWorkerWithoutCancelsIff(steps: seq<Step>)
    requires WithoutCancels(steps)
    ensures AlwaysOneEach(steps) <==> EnrolsUnlisted(steps)
  {
    hide Apply, Enrols;
    OneWorkerIff(steps);
    if EnrolsUnlisted(steps) {
      forall i | 0 <= i < |steps| ensures FindsIdle(At(steps, i), steps[i]) {
        UnlistedRunsAreNamed(steps, i);
        forall cid | Enrols(At(steps, i), steps[i], cid) ensures Idle(At(steps, i), cid) {
          UnlistedIsIdle(At(steps, i), cid);
        }
      }
    }
    if EnrolsIdle(steps) {
      forall i, cid | 0 <= i < |steps| && Enrols(At(steps, i), steps[i], cid) ensures !Listed(At(steps, i), cid) {
        assert FindsIdle(At(steps, i), steps[i]);
        EntriesStayLive(steps[..i]);
        IdleIsUnlisted(At(steps, i), cid);
      }
    }
  }

  lemma IdleIsUnlisted(s: Server, cid: string)
    requires EntriesAreLive(s) && Idle(s, cid)
    ensures !Listed(s, cid)
  {
    if cid in s.generating { assert Live(s, s.generating[cid].thread) || FailedEntry(s, cid); }
  }

  /** With check and registration in one step and no cancel, a campaign never has two live
      workers. */
  lemma AtMostOneWorker(steps: seq<Step>)
    requires WithoutCancels(steps) && forall i :: 0 <= i < |steps| ==> !steps[i].Register?
    ensures AlwaysOneEach(steps)
  {
    hide Apply, Run;
    OneWorkerWithoutCancelsIff(steps);
  }

  // --------------------------------------------------------------------- with cancels

  /** The thread whose entry the step takes out as a cancel. */
  function TakenOut(s: Server, step: Step): set<nat> {
    if step.CancelPop? && step.request !in s.requests && step.cid in s.generating
    then {s.generating[step.cid].thread}
    else {}
  }

  /** The threads whose entries cancels have taken out. */
  function Cancelled(steps: seq<Step>): set<nat> {
    if steps == [] then {}
    else Cancelled(steps[..|steps| - 1]) + TakenOut(Run(steps[..|steps| - 1]), steps[|steps| - 1])
  }

  predicate Over(s: Server, t: nat) {
    t < |s.workers| ==> s.workers[t].point == Stopped || s.workers[t].point == StartFailed
  }

  /** Every registration that takes effect finds its campaign out of `_generating`, unless under
      a thread that could not be started, and every cancelled thread of it stopped. */
  ghost predicate EnrolsAfterCancels(steps: seq<Step>) {
    forall i, cid :: 0 <= i < |steps| && Enrols(At(steps, i), steps[i], cid) ==>
      Vacant(At(steps, i), Cancelled(steps[..i]), cid)
  }

  ghost predicate Vacant(s: Server, cancelled: set<nat>, cid: string) {
    !Listed(s, cid) && forall t :: t in cancelled && t < |s.workers| && s.workers[t].cid == cid ==> Over(s, t)
  }

  /** No two live workers of a campaign, and each is named or was cancelled. */
  ghost predicate NamedOrCancelled(s: Server, cancelled: set<nat>) {
    OneEach(s) && forall t :: Live(s, t) ==> Named(s, t) || t in cancelled
  }

  lemma VacantIsIdle(s: Server, cancelled: set<nat>, cid: string)
    requires NamedOrCancelled(s, cancelled) && Vacant(s, cancelled, cid)
    ensures Idle(s, cid)
  {
  }

  lemma NamedOrCancelledStep(s: Server, step: Step, cancelled: set<nat>)
    requires NamedOrCancelled(s, cancelled)
    requires forall cid :: Enrols(s, step, cid) ==> Vacant(s, cancelled, cid)
    ensures NamedOrCancelled(Apply(s, step), cancelled + TakenOut(s, step))
  {
    hide Apply, Enrolled, Vacant, OneEach, Named;
    var next := Apply(s, step);
    assert FindsIdle(s, step) by {
      forall cid | Enrols(s, step, cid) ensures Idle(s, cid) { VacantIsIdle(s, cancelled, cid); }
    }
    OneEachStep(s, step);
    forall t | Live(next, t)
      ensures Named(next, t) || t in cancelled + TakenOut(s, step)
    {
      if Enrolled(s, step).Some? {
        assert Enrols(s, step, Enrolled(s, step).value);
        EnrolKeepsName(s, step, Enrolled(s, step).value, t);
      } else {
        OthersAddNobody(s, step);
        if Named(s, t) { OthersKeepName(s, step, t); }
      }
    }
  }

  lemma EnrolKeepsName(s: Server, step: Step, cid: string, t: int)
    requires Enrols(s, step, cid) && Idle(s, cid) && Live(Apply(s, step), t)
    ensures if Live(s, t) then Named(s, t) ==> Named(Apply(s, step), t) else Named(Apply(s, step), t)
  {
    EnrolledIsAdded(s, step, cid);
    hide Apply, Enrolled;
  }

  lemma OthersKeepName(s: Server, step: Step, t: int)
    requires OneEach(s) && Enrolled(s, step).None? && Live(s, t) && Live(Apply(s, step), t) && Named(s, t)
    ensures Named(Apply(s, step), t) || t in TakenOut(s, step)
  {
    OthersAddNobody(s, step);
    if step.CancelPop? {
      hide Work;
    } else {
      OthersKeepThreads(s, step);
      hide Apply, Enrolled;
    }
  }

  lemma {:induction false} CancellingRuns(steps: seq<Step>, n: nat)
    requires EnrolsAfterCancels(steps) && n <= |steps|
    ensures NamedOrCancelled(At(steps, n), Cancelled(steps[..n]))
  {
    hide Apply, NamedOrCancelled, Vacant, Enrols, TakenOut;
    if n == 0 {
      assert At(steps, 0) == IDLE && steps[..0] == [];
      NobodyNamed();
    } else {
      CancellingRuns(steps, n - 1);
      assert steps[..n][..n - 1] == steps[..n - 1];
      NamedOrCancelledStep(At(steps, n - 1), steps[n - 1], Cancelled(steps[..n - 1]));
    }
  }

  lemma NobodyNamed()
    ensures NamedOrCancelled(IDLE, {})
  {
  }

  /** On every run, cancels included, no campaign ever has two live workers exactly when
      registrations wait for the dictionary and for the cancelled threads. */
  lemma OneWorkerWithCancelsIff(steps: seq<Step>)
    ensures AlwaysOneEach(steps) <==> EnrolsAfterCancels(steps)
  {
    hide Apply, Enrols, NamedOrCancelled, Cancelled;
    OneWorkerIff(steps);
    if EnrolsAfterCancels(steps) {
      forall i | 0 <= i < |steps| ensures FindsIdle(At(steps, i), steps[i]) {
        CancellingRuns(steps, i);
        forall cid | Enrols(At(steps, i), steps[i], cid) ensures Idle(At(steps, i), cid) {
          VacantIsIdle(At(steps, i), Cancelled(steps[..i]), cid);
        }
      }
    }
    if EnrolsIdle(steps) {
      forall i, cid | 0 <= i < |steps| && Enrols(At(steps, i), steps[i], cid)
        ensures Vacant(At(steps, i), Cancelled(steps[..i]), cid)
      {
        assert FindsIdle(At(steps, i), steps[i]);
        EntriesStayLive(steps[..i]);
        IdleIsVacant(At(steps, i), Cancelled(steps[..i]), cid);
      }
    }
  }

  lemma IdleIsVacant(s: Server, cancelled: set<nat>, cid: string)
    requires EntriesAreLive(s) && Idle(s, cid)
    ensures Vacant(s, cancelled, cid)
  {
    IdleIsUnlisted(s, cid);
    assert forall t: nat :: t < |s.workers| && !Live(s, t) ==> Over(s, t);
  }

  // ------------------------------------------------------------- rows left generating

  predicate SaysGenerating(s: Server, cid: string) {
    cid in s.rows && s.rows[cid] == Generating
  }

  /** Worker `t` of the campaign is past its first write and owes a later one. */
  predicate Owes(s: Server, t: int, cid: string) {
    && 0 <= t < |s.workers| && s.workers[t].cid == cid
    && var p := s.workers[t].point;
      p != NotStarted && p != WriteGenerating && p != FinalPop && p != Stopped && p != StartFailed
  }

  ghost predicate SomeoneOwes(s: Server, cid: string) {
    exists t :: Owes(s, t, cid)
  }

  /** The row says `generating` and no worker is left to replace it. */
  ghost predicate Orphaned(s: Server, cid: string) {
    SaysGenerating(s, cid) && !SomeoneOwes(s, cid)
  }

  /** The worker leaves its row as it is: the campaign is no longer in `_generating` when it
      looks again, or writing its failure row fails. */
  predicate LeavesRow(s: Server, t: nat, luck: Luck) {
    && t < |s.workers|
    && var w := s.workers[t];
      (w.point.Recheck? && !luck.Raise? && w.cid !in s.generating) || (w.point == WriteFailure && luck.Raise?)
  }

  /** With this step the last worker that owes the `generating` row of `cid` leaves it. */
  ghost predicate Abandons(s: Server, step: Step, cid: string) {
    && SaysGenerating(s, cid)
    && step.Advance? && LeavesRow(s, step.thread, step.luck) && s.workers[step.thread].cid == cid
    && forall t :: Owes(s, t, cid) ==> t == step.thread
  }

  /** The step writes or deletes the row of `cid`, or is the first write of one of its
      workers, whatever comes of it. */
  predicate Handles(s: Server, step: Step, cid: string) {
    match step
    case Advance(t, luck) =>
      t < |s.workers| && s.workers[t].cid == cid
      && var p := s.workers[t].point;
        p == WriteGenerating || ((p == WriteTimeout || p.WriteResult? || p == WriteFailure) && !luck.Raise?)
    case CancelWrite(r) => r in s.requests && s.requests[r] == Cancelling(cid, false)
    case CancelDelete(r) => r in s.requests && s.requests[r] == Cancelling(cid, true)
    case _ => false
  }

  /** What a worker's action means for a row, and for who owes it. */
  lemma WorkOnRow(s: Server, t: nat, luck: Luck, cid: string)
    requires t < |s.workers|
    ensures var next, mine := Work(s, t, luck), s.workers[t].cid == cid;
      && (!Handles(s, Advance(t, luck), cid) ==> (SaysGenerating(next, cid) <==> SaysGenerating(s, cid)))
      && (mine && s.workers[t].point == WriteGenerating ==> Owes(next, t, cid))
      && (Handles(s, Advance(t, luck), cid) && s.workers[t].point != WriteGenerating ==> !SaysGenerating(next, cid))
      && (Owes(s, t, cid) && !Owes(next, t, cid) ==> LeavesRow(s, t, luck) || Handles(s, Advance(t, luck), cid))
      && (LeavesRow(s, t, luck) ==> !Owes(next, t, cid) && !Handles(s, Advance(t, luck), cid))
      && (Owes(next, t, cid) && !Owes(s, t, cid) ==> Handles(s, Advance(t, luck), cid))
  {
  }

  lemma OthersOweAsBefore(s: Server, t: nat, luck: Luck, cid: string, u: int)
    requires t < |s.workers| && u != t
    ensures Owes(Work(s, t, luck), u, cid) <==> Owes(s, u, cid)
  {
    hide Work;
    WorkMovesOne(s, t, luck);
  }

  lemma OrphanWork(s: Server, t: nat, luck: Luck, cid: string)
    requires t < |s.workers|
    ensures Orphaned(Work(s, t, luck), cid) <==>
      Abandons(s, Advance(t, luck), cid) || (Orphaned(s, cid) && !Handles(s, Advance(t, luck), cid))
  {
    WorkOnRow(s, t, luck, cid);
    var next := Work(s, t, luck);
    forall u | u != t
      ensures Owes(next, u, cid) <==> Owes(s, u, cid)
    {
      OthersOweAsBefore(s, t, luck, cid, u);
    }
    hide Work, Handles, SaysGenerating;
    if Orphaned(next, cid) && !Orphaned(s, cid) { assert Owes(s, t, cid); }
    if Abandons(s, Advance(t, luck), cid) { assert forall u :: !Owes(next, u, cid); }
  }

  lemma OrphanOther(s: Server, step: Step, cid: string)
    requires !step.Advance?
    ensures Orphaned(Apply(s, step), cid) <==> Orphaned(s, cid) && !Handles(s, step, cid)
  {
    hide Work;
    var next := Apply(s, step);
    assert forall t :: Owes(next, t, cid) <==> Owes(s, t, cid);
  }

  lemma OrphanStep(s: Server, step: Step, cid: string)
    ensures Orphaned(Apply(s, step), cid) <==> Abandons(s, step, cid) || (Orphaned(s, cid) && !Handles(s, step, cid))
  {
    if step.Advance? {
      if step.thread < |s.workers| {
        AdvanceIsWork(s, step.thread, step.luck);
        OrphanWork(s, step.thread, step.luck, cid);
      }
    } else {
      OrphanOther(s, step, cid);
    }
  }

  /** At step `i` the last worker that owed the row of `cid` left it, and no later step
      handled the row. */
  ghost predicate LeftAt(steps: seq<Step>, i: nat, cid: string) {
    && i < |steps| && Abandons(At(steps, i), steps[i], cid)
    && forall j :: i < j < |steps| ==> !Handles(At(steps, j), steps[j], cid)
  }

  /** On every run, a row is orphaned exactly when its last worker left it and nothing
      handled it since. */
  lemma {:induction false} OrphanedIff(steps: seq<Step>, cid: string)
    ensures Orphaned(Run(steps), cid) <==> exists i :: LeftAt(steps, i, cid)
  {
    hide Apply, Abandons, Handles, Orphaned;
    if steps == [] {
      NoOrphanYet(cid);
    } else {
      var front, last := steps[..|steps| - 1], steps[|steps| - 1];
      OrphanedIff(front, cid);
      OrphanStep(Run(front), last, cid);
      forall i | 0 <= i < |front| ensures At(front, i) == At(steps, i) {
        AtFront(steps, i);
      }
      assert At(steps, |front|) == Run(front);
      if Abandons(Run(front), last, cid) {
        assert LeftAt(steps, |front|, cid);
      } else if i :| LeftAt(steps, i, cid) {
        assert LeftAt(front, i, cid) && !Handles(At(steps, |front|), last, cid);
      }
      if i :| LeftAt(front, i, cid) {
        if !Handles(Run(front), last, cid) { assert LeftAt(steps, i, cid); }
      }
    }
  }

  lemma NoOrphanYet(cid: string)
    ensures !Orphaned(IDLE, cid)
  {
  }

  /** Exactly when a quiescent server still says `generating` in the row of a campaign. */
  lemma StaleRowIff(steps: seq<Step>, cid: string)
    requires Quiescent(Run(steps))
    ensures SaysGenerating(Run(steps), cid) <==> exists i :: LeftAt(steps, i, cid)
  {
    OrphanedIff(steps, cid);
    hide Run, LeftAt;
  }

  /** What a status request answers that reads the dictionary in one state and the row in
      another. */
  function Answer(dictionary: Server, table: Server, cid: string): Status {
    if cid in dictionary.generating then Generating else if cid in table.rows then table.rows[cid] else NotFound
  }

  /** A server at rest answers `generating` exactly for the threads that could not be started
      and the rows that were left behind. */
  lemma AnswerAtRest(steps: seq<Step>, cid: string)
    requires Quiescent(Run(steps))
    ensures Answer(Run(steps), Run(steps), cid) == Generating
      <==> FailedEntry(Run(steps), cid) || exists i :: LeftAt(steps, i, cid)
  {
    QuiescentIsEmptyIff(steps);
    StaleRowIff(steps, cid);
    hide Run, LeftAt;
  }

  // -------------------------------------------------------------------- careful runs

  /** Every cancel that takes effect finds a worker that has begun its row, or one that could
      not be started. */
  predicate CancelsLate(s: Server, step: Step) {
    step.CancelPop? && step.request !in s.requests && step.cid in s.generating ==>
      var t := s.generating[step.cid].thread;
      t < |s.workers| && s.workers[t].point != NotStarted && s.workers[t].point != WriteGenerating
  }

  predicate FailureIsWritten(s: Server, step: Step) {
    step.Advance? && step.luck.Raise? && step.thread < |s.workers| ==> s.workers[step.thread].point != WriteFailure
  }

  /** A cancel that fails has written its row before. */
  predicate CancelIsWritten(s: Server, step: Step) {
    step.RequestFails? && step.request in s.requests && s.requests[step.request].Cancelling? ==>
      s.requests[step.request].written
  }

  predicate IsCareful(s: Server, step: Step) {
    CancelsLate(s, step) && FailureIsWritten(s, step) && CancelIsWritten(s, step)
  }

  ghost predicate Careful(steps: seq<Step>) {
    EnrolsIdle(steps) && forall i :: 0 <= i < |steps| ==> IsCareful(At(steps, i), steps[i])
  }

  /** A cancel of the campaign has yet to write the row. */
  ghost predicate CancelPending(s: Server, cid: string) {
    exists r :: r in s.requests && s.requests[r] == Cancelling(cid, false)
  }

  /** The worker that the dictionary names owes the row. */
  predicate NamedOwes(s: Server, cid: string) {
    cid in s.generating && Owes(s, s.generating[cid].thread, cid)
  }

  /** A live worker is named or past its first write, and a `generating` row will be replaced
      by the named worker or by a cancel. */
  ghost predicate Settling(s: Server) {
    && OneEach(s) && EntriesAreLive(s)
    && (forall t :: Live(s, t) ==> Named(s, t) || PastFirst(s, t))
    && (forall cid :: SaysGenerating(s, cid) ==> NamedOwes(s, cid) || CancelPending(s, cid))
  }

  predicate PastFirst(s: Server, t: nat) {
    t < |s.workers| && s.workers[t].point != NotStarted && s.workers[t].point != WriteGenerating
  }

  lemma WorkSettles(s: Server, t: nat, luck: Luck)
    requires Settling(s) && t < |s.workers| && (luck.Raise? ==> s.workers[t].point != WriteFailure)
    ensures var next := Work(s, t, luck);
      && (forall u :: Live(next, u) ==> Named(next, u) || PastFirst(next, u))
      && (forall cid :: SaysGenerating(next, cid) ==> NamedOwes(next, cid) || CancelPending(next, cid))
  {
    hide SaysGenerating, Handles, LeavesRow, Owes;
    var next := Work(s, t, luck);
    WorkMovesOne(s, t, luck);
    WorkKeepsThreads(s, t, luck);
    WorkGoesOn(s, t, luck);
    hide Work;
    forall u | Live(next, u)
      ensures Named(next, u) || PastFirst(next, u)
    {
      if Named(s, u) { NamedStays(s, t, luck, u); }
    }
    forall cid | SaysGenerating(next, cid)
      ensures NamedOwes(next, cid) || CancelPending(next, cid)
    {
      WorkOnRow(s, t, luck, cid);
      RowStaysOwed(s, t, luck, cid);
    }
  }

  lemma WorkGoesOn(s: Server, t: nat, luck: Luck)
    requires t < |s.workers|
    ensures PastFirst(s, t) ==> PastFirst(Work(s, t, luck), t)
    ensures Live(Work(s, t, luck), t) ==> s.workers[t].point != FinalPop
  {
  }

  lemma NamedStays(s: Server, t: nat, luck: Luck, u: int)
    requires OneEach(s) && t < |s.workers| && Live(s, u) && Live(Work(s, t, luck), u) && Named(s, u)
    ensures Named(Work(s, t, luck), u)
  {
    WorkMovesOne(s, t, luck);
    WorkKeepsThreads(s, t, luck);
    WorkGoesOn(s, t, luck);
    hide Work;
    assert s.workers[t].point == FinalPop ==> Live(s, t);
  }

  lemma RowStaysOwed(s: Server, t: nat, luck: Luck, cid: string)
    requires Settling(s) && t < |s.workers| && (luck.Raise? ==> s.workers[t].point != WriteFailure)
    requires SaysGenerating(Work(s, t, luck), cid)
    ensures NamedOwes(Work(s, t, luck), cid) || CancelPending(Work(s, t, luck), cid)
  {
    var next := Work(s, t, luck);
    WorkOnRow(s, t, luck, cid);
    WorkMovesOne(s, t, luck);
    WorkKeepsThreads(s, t, luck);
    WorkGoesOn(s, t, luck);
    hide Work, SaysGenerating, EntriesAreLive;
    if s.workers[t].cid == cid && s.workers[t].point == WriteGenerating {
      assert Live(s, t) && !PastFirst(s, t) && Named(s, t);
    } else if NamedOwes(s, cid) {
      var u := s.generating[cid].thread;
      assert Live(s, u) && Named(s, u);
      if u == t {
        assert !LeavesRow(s, t, luck);
      } else {
        OthersOweAsBefore(s, t, luck, cid, u);
        assert Live(next, u);
        NamedStays(s, t, luck, u);
      }
    } else {
      assert CancelPending(s, cid);
    }
  }

  lemma EnrolSettles(s: Server, step: Step, cid: string)
    requires Settling(s) && Enrols(s, step, cid) && Idle(s, cid)
    ensures var next := Apply(s, step);
      && (forall u :: Live(next, u) ==> Named(next, u) || PastFirst(next, u))
      && (forall c :: SaysGenerating(next, c) ==> NamedOwes(next, c) || CancelPending(next, c))
  {
    EnrolledIsAdded(s, step, cid);
    EnrolKeepsCancels(s, step);
    hide Apply, Enrolled;
    var next := Apply(s, step);
    assert forall u :: Live(next, u) <==> Live(s, u) || u == |s.workers|;
    forall c | SaysGenerating(next, c)
      ensures NamedOwes(next, c) || CancelPending(next, c)
    {
      assert SaysGenerating(s, c);
      if NamedOwes(s, c) {
        assert Live(s, s.generating[c].thread);
        assert c != cid;
      }
    }
  }

  lemma EnrolKeepsCancels(s: Server, step: Step)
    requires Enrolled(s, step).Some?
    ensures forall c :: CancelPending(s, c) ==> CancelPending(Apply(s, step), c)
  {
    hide Work;
    var next := Apply(s, step);
    forall c | CancelPending(s, c) ensures CancelPending(next, c) {
      var r :| r in s.requests && s.requests[r] == Cancelling(c, false);
      assert next.requests[r] == Cancelling(c, false);
    }
  }

  lemma RequestSettles(s: Server, step: Step)
    requires Settling(s) && CancelsLate(s, step) && CancelIsWritten(s, step)
    requires Enrolled(s, step).None? && !step.Advance?
    ensures var next := Apply(s, step);
      && (forall u :: Live(next, u) ==> Named(next, u) || PastFirst(next, u))
      && (forall c :: SaysGenerating(next, c) ==> NamedOwes(next, c) || CancelPending(next, c))
  {
    hide Apply, OneEach, Named, PastFirst, SaysGenerating, NamedOwes, CancelPending, CancelsLate, CancelIsWritten;
    var next := Apply(s, step);
    forall u | Live(next, u)
      ensures Named(next, u) || PastFirst(next, u)
    {
      RequestKeepsWorker(s, step, u);
    }
    forall c | SaysGenerating(next, c)
      ensures NamedOwes(next, c) || CancelPending(next, c)
    {
      RequestKeepsRow(s, step, c);
    }
  }

  lemma RequestKeepsWorker(s: Server, step: Step, u: int)
    requires EntriesAreLive(s) && CancelsLate(s, step) && Enrolled(s, step).None? && !step.Advance?
    requires Live(Apply(s, step), u) && (Live(s, u) ==> Named(s, u) || PastFirst(s, u))
    ensures Named(Apply(s, step), u) || PastFirst(Apply(s, step), u)
  {
    hide Work;
  }

  lemma RequestKeepsRow(s: Server, step: Step, c: string)
    requires CancelsLate(s, step) && CancelIsWritten(s, step) && Enrolled(s, step).None? && !step.Advance?
    requires SaysGenerating(Apply(s, step), c) && (SaysGenerating(s, c) ==> NamedOwes(s, c) || CancelPending(s, c))
    ensures NamedOwes(Apply(s, step), c) || CancelPending(Apply(s, step), c)
  {
    hide Work;
    var next := Apply(s, step);
    if NamedOwes(s, c) {
      if step.CancelPop? && step.cid == c && step.request !in s.requests {
        assert next.requests[step.request] == Cancelling(c, false);
      }
    } else {
      var r :| r in s.requests && s.requests[r] == Cancelling(c, false);
      assert r in next.requests && next.requests[r] == Cancelling(c, false);
    }
  }

  lemma SettlingStep(s: Server, step: Step)
    requires Settling(s) && IsCareful(s, step) && FindsIdle(s, step)
    ensures Settling(Apply(s, step))
  {
    hide Work, Apply, CancelsLate, CancelIsWritten, Enrolled;
    OneEachStep(s, step);
    StepKeepsEntriesLive(s, step);
    if Enrolled(s, step).Some? {
      assert Enrols(s, step, Enrolled(s, step).value);
      EnrolSettles(s, step, Enrolled(s, step).value);
    } else if !step.Advance? {
      RequestSettles(s, step);
    } else if step.thread < |s.workers| {
      AdvanceIsWork(s, step.thread, step.luck);
      WorkSettles(s, step.thread, step.luck);
    } else {
      IdleAdvance(s, step);
    }
  }

  lemma IdleAdvance(s: Server, step: Step)
    requires step.Advance? && step.thread >= |s.workers|
    ensures Apply(s, step) == s
  {
  }

  /** Cancels and two-section requests included: if every registration finds the campaign
      without a live worker, cancels come after the first write, and the rows of failures and
      of cancels can be written, then a quiescent server holds no `generating` row. */
  lemma CarefulRunsSettle(steps: seq<Step>)
    requires Careful(steps)
    ensures Quiescent(Run(steps)) ==> forall cid :: !SaysGenerating(Run(steps), cid)
  {
    CarefulRunsAreSettling(steps, |steps|);
    assert steps[..|steps|] == steps;
    var s := Run(steps);
    assert Quiescent(s) ==> forall cid :: !CancelPending(s, cid) && !NamedOwes(s, cid);
  }

  lemma {:induction false} CarefulRunsAreSettling(steps: seq<Step>, n: nat)
    requires Careful(steps) && n <= |steps|
    ensures Settling(At(steps, n))
  {
    hide Apply, Settling, IsCareful, Idle, Enrols;
    if n == 0 {
      assert At(steps, 0) == IDLE;
      NothingToSettle();
    } else {
      CarefulRunsAreSettling(steps, n - 1);
      assert steps[..n][..n - 1] == steps[..n - 1];
      SettlingStep(At(steps, n - 1), steps[n - 1]);
    }
  }

  lemma NothingToSettle()
    ensures Settling(IDLE)
  {
  }

  // ------------------------------------------------------------------------ bad runs

  lemma NoSteps()
    ensures Run([]) == IDLE
  {
  }

  lemma Extend(steps: seq<Step>, step: Step) returns (longer: seq<Step>)
    ensures longer == steps + [step] && Run(longer) == Apply(Run(steps), step)
  {
    longer := steps + [step];
    RunMore(steps, step);
  }

  /** Two requests that both check before either registers start two workers. */
  lemma TwoWorkersByRace(cid: string) returns (steps: seq<Step>)
    ensures WithoutCancels(steps) && !AlwaysOneEach(steps)
    ensures Run(steps)
      == Server(map[cid := Entry(1, None)], [Worker(cid, WriteGenerating), Worker(cid, WriteGenerating)], map[], map[])
  {
    hide Run;
    NoSteps();
    steps := Extend([], Check(0, cid));
    steps := Extend(steps, Check(1, cid));
    steps := Extend(steps, Register(0));
    steps := Extend(steps, Register(1));
    assert Run(steps)
      == Server(map[cid := Entry(1, None)], [Worker(cid, NotStarted), Worker(cid, NotStarted)], map[], map[]);
    steps := Extend(steps, Start(0));
    steps := Extend(steps, Start(1));
    TwoLive(steps);
  }

  lemma TwoLive(steps: seq<Step>)
    requires |Run(steps).workers| == 2 && Live(Run(steps), 0) && Live(Run(steps), 1)
    requires Run(steps).workers[0].cid == Run(steps).workers[1].cid
    ensures !AlwaysOneEach(steps)
  {
    assert steps[..|steps|] == steps;
    assert !OneEach(At(steps, |steps|));
  }

  /** Even with one critical section, cancelling and generating again does too. */
  lemma TwoWorkersByCancel(cid: string) returns (steps: seq<Step>)
    ensures (forall step :: step in steps ==> !step.Register?) && !AlwaysOneEach(steps)
  {
    hide Run, AlwaysOneEach;
    NoSteps();
    steps := Extend([], CheckAndRegister(cid));
    steps := Extend(steps, CancelPop(0, cid));
    assert Run(steps) == Server(map[], [Worker(cid, NotStarted)], map[0 := Cancelling(cid, false)], map[]);
    steps := Extend(steps, CheckAndRegister(cid));
    TwoLive(steps);
  }

  /** A thread that cannot be started leaves its entry in the dictionary of a server at rest. */
  lemma FailedStartLeavesEntry(cid: string) returns (steps: seq<Step>)
    ensures Quiescent(Run(steps)) && cid in Run(steps).generating
  {
    hide Run;
    NoSteps();
    steps := Extend([], Check(0, cid));
    steps := Extend(steps, Register(0));
    assert Run(steps) == Server(map[cid := Entry(0, None)], [Worker(cid, NotStarted)], map[], map[]);
    steps := Extend(steps, FailStart(0));
  }

  const GO := Fine(true)

  /** A worker that is listed up to its result finishes its row and removes the entry. */
  lemma ListedWorkerRuns(steps: seq<Step>, t: nat) returns (longer: seq<Step>)
    requires t < |Run(steps).workers| && Run(steps).workers[t].point == WriteGenerating
    requires Run(steps).workers[t].cid in Run(steps).generating
    ensures var s, cid := Run(steps), Run(steps).workers[t].cid;
      Run(longer) == MoveTo(s, t, Stopped).(generating := s.generating - {cid}, rows := s.rows[cid := Finished])
    ensures steps <= longer && forall i :: |steps| <= i < |longer| ==> longer[i] == Advance(t, GO)
  {
    hide Run;
    var s, cid := Run(steps), Run(steps).workers[t].cid;
    longer := Extend(steps, Advance(t, GO));
    longer := Extend(longer, Advance(t, GO));
    longer := Extend(longer, Advance(t, GO));
    ghost var exposed := s.generating[cid := Entry(s.generating[cid].thread, Some(t))];
    assert Run(longer) == MoveTo(s, t, Communicate).(generating := exposed, rows := s.rows[cid := Generating]);
    longer := Extend(longer, Advance(t, GO));
    longer := Extend(longer, Advance(t, GO));
    longer := Extend(longer, Advance(t, GO));
    assert Run(longer) == MoveTo(s, t, FinalPop).(generating := exposed, rows := s.rows[cid := Finished]);
    longer := Extend(longer, Advance(t, GO));
    assert exposed - {cid} == s.generating - {cid};
  }

  /** A worker that is not listed leaves the row that it wrote. */
  lemma UnlistedWorkerRuns(steps: seq<Step>, t: nat) returns (longer: seq<Step>)
    requires t < |Run(steps).workers| && Run(steps).workers[t].point == WriteGenerating
    requires Run(steps).workers[t].cid !in Run(steps).generating
    ensures var s, cid := Run(steps), Run(steps).workers[t].cid;
      Run(longer) == MoveTo(s, t, Stopped).(rows := s.rows[cid := Generating])
    ensures steps <= longer && forall i :: |steps| <= i < |longer| ==> longer[i] == Advance(t, GO)
  {
    hide Run;
    var s, cid := Run(steps), Run(steps).workers[t].cid;
    longer := Extend(steps, Advance(t, GO));
    longer := Extend(longer, Advance(t, GO));
    longer := Extend(longer, Advance(t, GO));
    assert Run(longer) == MoveTo(s, t, Communicate).(rows := s.rows[cid := Generating]);
    longer := Extend(longer, Advance(t, GO));
    longer := Extend(longer, Advance(t, GO));
    longer := Extend(longer, Advance(t, GO));
    assert s.generating - {cid} == s.generating;
  }

  /** A cancel before the worker's first write leaves a `generating` row behind for good. */
  lemma CancelLeavesGeneratingRow(cid: string) returns (steps: seq<Step>)
    ensures Run(steps) == Server(map[], [Worker(cid, Stopped)], map[], map[cid := Generating]) && Quiescent(Run(steps))
  {
    hide Run;
    NoSteps();
    steps := Extend([], CheckAndRegister(cid));
    steps := Extend(steps, Start(0));
    steps := Extend(steps, CancelPop(0, cid));
    assert Run(steps) == Server(map[], [Worker(cid, WriteGenerating)], map[0 := Cancelling(cid, false)], map[]);
    steps := Extend(steps, CancelWrite(0));
    steps := Extend(steps, CancelDelete(0));
    assert Run(steps) == Server(map[], [Worker(cid, WriteGenerating)], map[], map[]);
    steps := UnlistedWorkerRuns(steps, 0);
  }

  /** Without any cancel, so does the slower of two workers that a race started. */
  lemma RaceLeavesGeneratingRow(cid: string) returns (steps: seq<Step>)
    ensures WithoutCancels(steps)
    ensures Run(steps) == Server(map[], [Worker(cid, Stopped), Worker(cid, Stopped)], map[], map[cid := Generating]) &&
      Quiescent(Run(steps))
  {
    hide Run, AlwaysOneEach;
    var race := TwoWorkersByRace(cid);
    var half := ListedWorkerRuns(race, 0);
    assert Run(half)
      == Server(map[], [Worker(cid, Stopped), Worker(cid, WriteGenerating)], map[], map[cid := Finished]);
    steps := UnlistedWorkerRuns(half, 1);
  }

  /** A worker that has written its row and is cancelled leaves it to the cancel. */
  lemma CancelledWorkerRuns(steps: seq<Step>, t: nat) returns (longer: seq<Step>)
    requires t < |Run(steps).workers| && Run(steps).workers[t].point == Communicate
    requires Run(steps).workers[t].cid !in Run(steps).generating
    ensures Run(longer) == MoveTo(Run(steps), t, Stopped)
  {
    hide Run;
    longer := Extend(steps, Advance(t, GO));
    longer := Extend(longer, Advance(t, GO));
    longer := Extend(longer, Advance(t, GO));
    assert Run(steps).generating - {Run(steps).workers[t].cid} == Run(steps).generating;
  }

  /** So does a cancel after the first write, if its own write raises. */
  lemma FailedCancelLeavesGeneratingRow(cid: string) returns (steps: seq<Step>)
    ensures Run(steps) == Server(map[], [Worker(cid, Stopped)], map[], map[cid := Generating]) && Quiescent(Run(steps))
  {
    hide Run;
    NoSteps();
    steps := Extend([], CheckAndRegister(cid));
    steps := Extend(steps, Start(0));
    steps := Extend(steps, Advance(0, GO));
    assert Run(steps) == Server(map[cid := Entry(0, None)], [Worker(cid, Spawn)], map[], map[cid := Generating]);
    steps := Extend(steps, Advance(0, GO));
    steps := Extend(steps, Advance(0, GO));
    assert Run(steps)
      == Server(map[cid := Entry(0, Some(0))], [Worker(cid, Communicate)], map[], map[cid := Generating]);
    steps := Extend(steps, CancelPop(0, cid));
    steps := Extend(steps, RequestFails(0));
    assert Run(steps) == Server(map[], [Worker(cid, Communicate)], map[], map[cid := Generating]);
    steps := CancelledWorkerRuns(steps, 0);
  }
}
