/** What becomes of the row of a report, from the outcome of its child process. */
module ReportOutcomes {
  import opened Text
  import opened ReportServer

  // -------------------------------------------------------------- an undisturbed worker

  /** Worker `t` takes its next steps with nothing between them. */
  function Alone(s: Server, t: nat, lucks: seq<Luck>): (next: Server)
    requires t < |s.workers|
    ensures |next.workers| == |s.workers|
    decreases |lucks|
  {
    if lucks == [] then s
    else
      WorkMovesOne(s, t, lucks[0]);
      Alone(Work(s, t, lucks[0]), t, lucks[1..])
  }

  lemma AloneStep(s: Server, t: nat, luck: Luck, rest: seq<Luck>)
    requires t < |s.workers|
    ensures |Work(s, t, luck).workers| == |s.workers|
    ensures Alone(s, t, [luck] + rest) == Alone(Work(s, t, luck), t, rest)
  {
    WorkMovesOne(s, t, luck);
    hide Work;
    assert ([luck] + rest)[1..] == rest;
  }

  /** The worker has written `status`, is done, and its campaign is no longer listed. */
  predicate Settled(s: Server, t: nat, next: Server, status: Status)
    requires t < |s.workers|
  {
    var cid := s.workers[t].cid;
    && next.rows == s.rows[cid := status]
    && next.generating == s.generating - {cid}
    && next.workers == s.workers[t := Worker(cid, Stopped)]
    && next.requests == s.requests
  }

  lemma MovedFirst(s: Server, t: nat, point: Point, next: Server, status: Status)
    requires t < |s.workers| && Settled(MoveTo(s, t, point), t, next, status)
    ensures Settled(s, t, next, status)
  {
  }

  /** A worker whose last write is next: the row and the pop. */
  lemma LastWrite(s: Server, t: nat, done: bool)
    requires t < |s.workers|
    requires var point := s.workers[t].point; point.WriteResult? || point == WriteTimeout || point == WriteFailure
    ensures Settled(s, t, Alone(s, t, [Fine(done), Fine(done)]),
                    if s.workers[t].point == WriteResult(true) then Finished else Error)
  {
    var a := Work(s, t, Fine(done));
    AloneStep(s, t, Fine(done), [Fine(done)]);
    AloneStep(a, t, Fine(done), []);
    assert [Fine(done), Fine(done)] == [Fine(done)] + [Fine(done)] && [Fine(done)] == [Fine(done)] + [];
  }

  /** The last steps of a worker whose child has ended: the second look, the row, the pop. */
  lemma ChildDecides(s: Server, t: nat, ok: bool, done: bool)
    requires t < |s.workers| && s.workers[t].point == Communicate && s.workers[t].cid in s.generating
    ensures Settled(s, t, Alone(s, t, [Fine(ok), Fine(done), Fine(done), Fine(done)]), if ok then Finished else Error)
  {
    var a, b := MoveTo(s, t, Recheck(ok)), MoveTo(s, t, WriteResult(ok));
    assert Work(s, t, Fine(ok)) == a && Work(a, t, Fine(done)) == b;
    hide Work, Settled, Alone;
    AloneStep(s, t, Fine(ok), [Fine(done), Fine(done), Fine(done)]);
    AloneStep(a, t, Fine(done), [Fine(done), Fine(done)]);
    assert [Fine(ok), Fine(done), Fine(done), Fine(done)] == [Fine(ok)] + [Fine(done), Fine(done), Fine(done)];
    assert [Fine(done), Fine(done), Fine(done)] == [Fine(done)] + [Fine(done), Fine(done)];
    LastWrite(b, t, done);
    MovedFirst(s, t, WriteResult(ok), Alone(b, t, [Fine(done), Fine(done)]), if ok then Finished else Error);
  }

  /** A child that runs too long leaves an error, whatever became of its campaign. */
  lemma TimeoutIsError(s: Server, t: nat, done: bool)
    requires t < |s.workers| && s.workers[t].point == Communicate
    ensures Settled(s, t, Alone(s, t, [Timeout, Fine(done), Fine(done)]), Error)
  {
    var a := MoveTo(s, t, WriteTimeout);
    assert Work(s, t, Timeout) == a;
    hide Work, Settled, Alone;
    AloneStep(s, t, Timeout, [Fine(done), Fine(done)]);
    assert [Timeout, Fine(done), Fine(done)] == [Timeout] + [Fine(done), Fine(done)];
    LastWrite(a, t, done);
    MovedFirst(s, t, WriteTimeout, Alone(a, t, [Fine(done), Fine(done)]), Error);
  }

  /** Where an exception is caught. */
  predicate Guarded(point: Point) {
    point in {WriteGenerating, Spawn, Communicate, WriteTimeout} || point.Recheck? || point.WriteResult?
  }

  /** So does an exception, wherever the worker stands. */
  lemma ExceptionIsError(s: Server, t: nat, done: bool)
    requires t < |s.workers| && Guarded(s.workers[t].point)
    ensures Settled(s, t, Alone(s, t, [Raise, Fine(done), Fine(done)]), Error)
  {
    var a := MoveTo(s, t, WriteFailure);
    assert Work(s, t, Raise) == a;
    hide Work, Settled, Alone;
    AloneStep(s, t, Raise, [Fine(done), Fine(done)]);
    assert [Raise, Fine(done), Fine(done)] == [Raise] + [Fine(done), Fine(done)];
    LastWrite(a, t, done);
    MovedFirst(s, t, WriteFailure, Alone(a, t, [Fine(done), Fine(done)]), Error);
  }

  /** Then a status request answers with that row; one that is under way answers so, and one
      that never was is not found. */
  lemma StatusTells(s: Server, t: nat, next: Server, status: Status, cid: string)
    ensures t < |s.workers| && Settled(s, t, next, status) ==> Answer(next, next, s.workers[t].cid) == status
    ensures cid in s.generating ==> Answer(s, s, cid) == Generating
    ensures cid !in s.generating && cid !in s.rows ==> Answer(s, s, cid) == NotFound
  {
  }

  /** A cancel of a listed campaign with nothing in between leaves no trace of it. */
  lemma CancelForgets(s: Server, r: nat, cid: string)
    requires r !in s.requests && cid in s.generating
    ensures var next := Apply(Apply(Apply(s, CancelPop(r, cid)), CancelWrite(r)), CancelDelete(r));
      && next == s.(generating := s.generating - {cid}, rows := s.rows - {cid})
      && Answer(next, next, cid) == NotFound
  {
    var popped := Apply(s, CancelPop(r, cid));
    var written := Apply(popped, CancelWrite(r));
    assert written.rows - {cid} == s.rows - {cid};
    assert written.requests - {r} == s.requests;
  }

  // ------------------------------------------------------------------ on every interleaving

  /** At step `i`, a child of campaign `cid` ended well under worker `t`. */
  predicate Succeeds(steps: seq<Step>, i: nat, t: nat, cid: string) {
    i < |steps| && steps[i] == Advance(t, Fine(true))
    && t < |At(steps, i).workers| && At(steps, i).workers[t] == Worker(cid, Communicate)
  }

  /** At step `i`, it did not, ran too long, or something raised. */
  predicate Fails(steps: seq<Step>, i: nat, t: nat, cid: string) {
    i < |steps| && steps[i].Advance? && steps[i].thread == t
    && t < |At(steps, i).workers| && At(steps, i).workers[t].cid == cid
    && (steps[i].luck == Raise
        || (At(steps, i).workers[t].point == Communicate && steps[i].luck in {Fine(false), Timeout}))
  }

  ghost predicate Succeeded(steps: seq<Step>, t: nat, cid: string) { exists i :: Succeeds(steps, i, t, cid) }

  ghost predicate Failed(steps: seq<Step>, t: nat, cid: string) { exists i :: Fails(steps, i, t, cid) }

  ghost predicate Earned(steps: seq<Step>) {
    var s := Run(steps);
    && (forall t :: 0 <= t < |s.workers| ==> PointEarned(steps, t, s.workers[t]))
    && (forall cid :: cid in s.rows && s.rows[cid] == Finished ==> exists t :: Succeeded(steps, t, cid))
    && (forall cid :: cid in s.rows && s.rows[cid] == Error ==> exists t :: Failed(steps, t, cid))
  }

  ghost predicate PointEarned(steps: seq<Step>, t: nat, w: Worker) {
    && (w.point in {Recheck(true), WriteResult(true)} ==> Succeeded(steps, t, w.cid))
    && (w.point in {Recheck(false), WriteResult(false), WriteTimeout, WriteFailure} ==> Failed(steps, t, w.cid))
  }

  lemma StillEarned(front: seq<Step>, step: Step, t: nat, cid: string)
    ensures Succeeded(front, t, cid) ==> Succeeded(front + [step], t, cid)
    ensures Failed(front, t, cid) ==> Failed(front + [step], t, cid)
  {
    hide Run;
    var steps := front + [step];
    if i: nat :| Succeeds(front, i, t, cid) {
      assert steps[..i] == front[..i];
      assert Succeeds(steps, i, t, cid);
    }
    if i: nat :| Fails(front, i, t, cid) {
      assert steps[..i] == front[..i];
      assert Fails(steps, i, t, cid);
    }
  }

  /** What one step of worker `t` does to its position and to its row, by what happened. */
  lemma WorkEarns(s: Server, t: nat, luck: Luck)
    requires t < |s.workers|
    ensures |Work(s, t, luck).workers| == |s.workers|
    ensures var w, next := s.workers[t], Work(s, t, luck);
      var point, good, bad := next.workers[t].point, w.point == Communicate && luck == Fine(true),
        luck == Raise || (w.point == Communicate && luck in {Fine(false), Timeout});
      && next.workers[t].cid == w.cid
      && (point in {Recheck(true), WriteResult(true)} ==> good || w.point in {Recheck(true), WriteResult(true)})
      && (point in {Recheck(false), WriteResult(false), WriteTimeout, WriteFailure} ==>
        bad || w.point in {Recheck(false), WriteResult(false), WriteTimeout, WriteFailure})
      && (next.rows == s.rows || next.rows == s.rows[w.cid := Generating]
          || (next.rows == s.rows[w.cid := Finished] && w.point == WriteResult(true))
          || (next.rows == s.rows[w.cid := Error] && w.point in {WriteResult(false), WriteTimeout, WriteFailure}))
  {
    WorkMovesOne(s, t, luck);
  }

  lemma OthersEarnNothing(s: Server, step: Step)
    requires !step.Advance?
    ensures var next := Apply(s, step);
      && (forall t :: 0 <= t < |next.workers| ==>
        next.workers[t].point in {NotStarted, WriteGenerating, StartFailed}
        || (t < |s.workers| && next.workers[t] == s.workers[t]))
      && (forall cid :: cid in next.rows ==>
        next.rows[cid] == NotFound || (cid in s.rows && next.rows[cid] == s.rows[cid]))
  {
    hide Work;
  }

  lemma HappensNow(front: seq<Step>, t: nat, luck: Luck)
    requires t < |Run(front).workers|
    ensures var w, steps := Run(front).workers[t], front + [Advance(t, luck)];
      && (w.point == Communicate && luck == Fine(true) ==> Succeeded(steps, t, w.cid))
      && (luck == Raise || (w.point == Communicate && luck in {Fine(false), Timeout}) ==> Failed(steps, t, w.cid))
  {
    hide Run;
    var w, steps := Run(front).workers[t], front + [Advance(t, luck)];
    assert steps[..|front|] == front && steps[|front|] == Advance(t, luck);
    if w.point == Communicate && luck == Fine(true) { assert Succeeds(steps, |front|, t, w.cid); }
    if luck == Raise || (w.point == Communicate && luck in {Fine(false), Timeout}) {
      assert Fails(steps, |front|, t, w.cid);
    }
  }

  lemma AdvanceEarns(front: seq<Step>, t: nat, luck: Luck)
    requires Earned(front) && t < |Run(front).workers|
    ensures Earned(front + [Advance(t, luck)])
  {
    hide Run, Work, Succeeded, Failed;
    var s, step := Run(front), Advance(t, luck);
    RunMore(front, step);
    AdvanceIsWork(s, t, luck);
    WorkMovesOne(s, t, luck);
    WorkEarns(s, t, luck);
    HappensNow(front, t, luck);
    forall u: nat, cid
      ensures Succeeded(front, u, cid) ==> Succeeded(front + [step], u, cid)
      ensures Failed(front, u, cid) ==> Failed(front + [step], u, cid)
    {
      StillEarned(front, step, u, cid);
    }
    assert PointEarned(front, t, s.workers[t]);
  }

  lemma OtherStepEarns(front: seq<Step>, step: Step)
    requires Earned(front) && (step.Advance? ==> step.thread >= |Run(front).workers|)
    ensures Earned(front + [step])
  {
    hide Run, Work, Succeeded, Failed;
    var s := Run(front);
    RunMore(front, step);
    if !step.Advance? { OthersEarnNothing(s, step); }
    forall u: nat, cid
      ensures Succeeded(front, u, cid) ==> Succeeded(front + [step], u, cid)
      ensures Failed(front, u, cid) ==> Failed(front + [step], u, cid)
    {
      StillEarned(front, step, u, cid);
    }
    forall t | 0 <= t < |Apply(s, step).workers|
      ensures PointEarned(front + [step], t, Apply(s, step).workers[t])
    {
      if t < |s.workers| { assert PointEarned(front, t, s.workers[t]); }
    }
  }

  /** However requests, cancels and workers interleave: a row is finished only if a child of
      its campaign ended well, and an error only if one did not or something raised. */
  lemma {:induction false} RowsAreEarned(steps: seq<Step>)
    ensures Earned(steps)
  {
    if steps != [] {
      var front, step := steps[..|steps| - 1], steps[|steps| - 1];
      RowsAreEarned(front);
      hide Run, Earned;
      assert front + [step] == steps;
      if step.Advance? && step.thread < |Run(front).workers| {
        AdvanceEarns(front, step.thread, step.luck);
      } else {
        OtherStepEarns(front, step);
      }
    }
  }
}
