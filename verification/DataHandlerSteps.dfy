/** Requests of sessions that overlap: the statements of `DataHandler.request`
    (src/infra/data_handler.py) interleave on the shared table. */
module DataHandlerSteps {
  import opened Text
  import opened InvokeLimiters
  import opened DataHandlers

  /** Where a request stands between its statements. */
  datatype Phase =
    | Missed(info: Terms) | Aliasing(info: Terms, data: string) | RawMissed(info: Terms) | Asked(info: Terms)

  datatype Shared = Shared(rows: seq<Row>, limits: Limits, phases: map<nat, Phase>, answers: map<nat, Answer>)

  /** One statement of request `id`; the model is at work between `Ask` and `Reply`. */
  datatype Step =
    | Find(id: nat, info: Terms)
    | FindRaw(id: nat)
    | StoreAlias(id: nat)
    | Ask(id: nat, now: int)
    | Reply(id: nat, text: Option<string>)

  function PhaseOf(s: Shared, id: nat): Option<Phase> {
    if id in s.phases then Some(s.phases[id]) else None
  }

  predicate Fresh(s: Shared, id: nat) {
    id !in s.phases && id !in s.answers
  }

  function Answered(s: Shared, id: nat, answer: Answer): Shared {
    s.(phases := s.phases - {id}, answers := s.answers[id := answer])
  }

  function GoOn(s: Shared, id: nat, phase: Phase): Shared {
    s.(phases := s.phases[id := phase])
  }

  /** Looks the normalised terms up. */
  function DidFind(c: Config, s: Shared, id: nat, info: Terms): Shared {
    var hit := FirstMatch(s.rows, KeyOf(c, info));
    if !Fresh(s, id) then s
    else if Found(hit) then Answered(s, id, Answer(Hardcoded, hit.value))
    else GoOn(s, id, Missed(info))
  }

  /** Looks the raw terms up if they differ. */
  function DidFindRaw(c: Config, s: Shared, id: nat): Shared {
    match PhaseOf(s, id)
    case Some(Missed(info)) =>
      var hit := FirstMatch(s.rows, Project(c.structure, info));
      var aliased := NormalizeTerms(c.enabled, info) != info && Found(hit);
      GoOn(s, id, if aliased then Aliasing(info, hit.value) else RawMissed(info))
    case _ => s
  }

  /** Files a raw hit under the normalised key. */
  function DidStoreAlias(c: Config, s: Shared, id: nat): Shared {
    match PhaseOf(s, id)
    case Some(Aliasing(info, data)) =>
      Answered(s.(rows := s.rows + [Row(false, KeyOf(c, info), data)]), id, Answer(Hardcoded, data))
    case _ => s
  }

  /** Asks the limiter, and the model if it grants the call. */
  function DidAsk(s: Shared, id: nat, now: int): Shared {
    match PhaseOf(s, id)
    case Some(RawMissed(info)) =>
      var (limits, granted) := Invoke(LIMIT, PERIOD, s.limits, "visitor", now);
      if granted then GoOn(s.(limits := limits), id, Asked(info))
      else Answered(s.(limits := limits), id, Answer(Blocked, BLOCKED))
    case _ => s
  }

  /** Stores the reply of the model, which may have raised. */
  function DidReply(c: Config, s: Shared, id: nat, text: Option<string>): Shared {
    match PhaseOf(s, id)
    case Some(Asked(info)) =>
      if text.None? then Answered(s, id, Answer(Raised, ""))
      else Answered(s.(rows := s.rows + [Row(false, KeyOf(c, info), text.value)]), id, Answer(Llm, text.value))
    case _ => s
  }

  /** A step that is not the request's next changes nothing. */
  function Apply(c: Config, s: Shared, step: Step): Shared {
    match step
    case Find(id, info) => DidFind(c, s, id, info)
    case FindRaw(id) => DidFindRaw(c, s, id)
    case StoreAlias(id) => DidStoreAlias(c, s, id)
    case Ask(id, now) => DidAsk(s, id, now)
    case Reply(id, text) => DidReply(c, s, id, text)
  }

  function Run(c: Config, start: Shared, steps: seq<Step>): Shared {
    if steps == [] then start else Apply(c, Run(c, start, steps[..|steps| - 1]), steps[|steps| - 1])
  }

  /** The shared state before step `i`. */
  function At(c: Config, start: Shared, steps: seq<Step>, i: nat): Shared
    requires i <= |steps|
  {
    Run(c, start, steps[..i])
  }

  lemma AtNext(c: Config, start: Shared, steps: seq<Step>, i: nat)
    requires i < |steps|
    ensures At(c, start, steps, i + 1) == Apply(c, At(c, start, steps, i), steps[i])
  {
    assert steps[..i + 1][..i] == steps[..i];
  }

  // -------------------------------------------------------------- whole requests

  lemma PhaseUndone(s: Shared, id: nat, phase: Phase)
    requires id !in s.phases
    ensures s.phases[id := phase] - {id} == s.phases && s.phases - {id} == s.phases
  {
  }

  lemma NothingToDo(c: Config, s: Shared, id: nat, now: int, text: Option<string>)
    requires id !in s.phases
    ensures DidFindRaw(c, s, id) == DidStoreAlias(c, s, id) == DidAsk(s, id, now) == DidReply(c, s, id, text) == s
  {
  }

  /** What the statements of a request do that has missed the table. */
  lemma AskedThrough(c: Config, s: Shared, id: nat, info: Terms, now: int, text: Option<string>)
    requires PhaseOf(s, id) == Some(RawMissed(info))
    ensures DidStoreAlias(c, s, id) == s
    ensures var (limits, granted) := Invoke(LIMIT, PERIOD, s.limits, "visitor", now);
      var done := s.(limits := limits, phases := s.phases - {id});
      DidReply(c, DidAsk(s, id, now), id, text) == (
        if !granted then done.(answers := s.answers[id := Answer(Blocked, BLOCKED)])
        else if text.None? then done.(answers := s.answers[id := Answer(Raised, "")])
        else done.(rows := s.rows + [Row(false, KeyOf(c, info), text.value)],
                   answers := s.answers[id := Answer(Llm, text.value)]))
  {
    hide KeyOf, Invoke;
    var limits := Invoke(LIMIT, PERIOD, s.limits, "visitor", now).0;
    assert s.phases[id := Asked(info)] - {id} == s.phases - {id};
  }

  /** A request with nothing in between is the whole request. */
  lemma ServeIsFiveSteps(c: Config, s: Shared, id: nat, r: Request)
    requires Fresh(s, id)
    ensures var found := Apply(c, Apply(c, s, Find(id, r.info)), FindRaw(id));
      var end := Apply(c, Apply(c, Apply(c, found, StoreAlias(id)), Ask(id, r.now)), Reply(id, r.reply));
      var (next, answer) := Serve(c, DataHandlers.State(s.rows, s.limits), r);
      end == Shared(next.rows, next.limits, s.phases, s.answers[id := answer])
  {
    hide FirstMatch, KeyOf, Project, NormalizeTerms, Invoke, DidAsk, DidReply;
    var hit, raw := FirstMatch(s.rows, KeyOf(c, r.info)), FirstMatch(s.rows, Project(c.structure, r.info));
    var looked := DidFind(c, s, id, r.info);
    var found := DidFindRaw(c, looked, id);
    PhaseUndone(s, id, Missed(r.info));
    if Found(hit) {
      NothingToDo(c, looked, id, r.now, r.reply);
    } else if NormalizeTerms(c.enabled, r.info) != r.info && Found(raw) {
      PhaseUndone(s, id, Aliasing(r.info, raw.value));
      assert found.phases == s.phases[id := Aliasing(r.info, raw.value)];
      NothingToDo(c, DidStoreAlias(c, found, id), id, r.now, r.reply);
    } else {
      PhaseUndone(s, id, RawMissed(r.info));
      assert found.phases == s.phases[id := RawMissed(r.info)];
      AskedThrough(c, found, id, r.info, r.now, r.reply);
    }
  }

  // ---------------------------------------------------------- every interleaving

  /** Rows are only added, and an answer once given stays. */
  lemma StepGrows(c: Config, s: Shared, step: Step)
    ensures var next := Apply(c, s, step);
      s.rows <= next.rows && forall id :: id in s.answers && id !in s.phases ==>
        id in next.answers && id !in next.phases && next.answers[id] == s.answers[id]
  {
    hide FirstMatch, KeyOf, Project, NormalizeTerms, Invoke;
  }

  lemma {:induction false} RowsGrow(c: Config, start: Shared, steps: seq<Step>, i: nat, j: nat)
    requires i <= j <= |steps|
    ensures At(c, start, steps, i).rows <= At(c, start, steps, j).rows
    ensures forall id :: id in At(c, start, steps, i).answers && id !in At(c, start, steps, i).phases ==>
      id in At(c, start, steps, j).answers && id !in At(c, start, steps, j).phases
    decreases j
  {
    hide Apply, Run;
    if i < j {
      RowsGrow(c, start, steps, i, j - 1);
      AtNext(c, start, steps, j - 1);
      StepGrows(c, At(c, start, steps, j - 1), steps[j - 1]);
    }
  }

  lemma MatchKept(rows: seq<Row>, later: seq<Row>, key: Terms)
    requires rows <= later && FirstMatch(rows, key).Some?
    ensures FirstMatch(later, key) == FirstMatch(rows, key)
  {
    FirstMatchAppend(rows, later[|rows|..], key);
    assert later == rows + later[|rows|..];
  }

  /** Every request that begins once an answer is stored under its key gets that answer,
      whatever other requests are under way. */
  lemma LaterRequestsGetTheStored(c: Config, start: Shared, steps: seq<Step>, i: nat, j: nat)
    requires i <= j < |steps| && steps[j].Find? && Fresh(At(c, start, steps, j), steps[j].id)
    requires Found(FirstMatch(At(c, start, steps, i).rows, KeyOf(c, steps[j].info)))
    ensures var after, id := At(c, start, steps, j + 1), steps[j].id;
      && id in after.answers && id !in after.phases
      && after.answers[id] == Answer(Hardcoded, FirstMatch(At(c, start, steps, i).rows, KeyOf(c, steps[j].info)).value)
  {
    hide FirstMatch, KeyOf, Run;
    RowsGrow(c, start, steps, i, j);
    AtNext(c, start, steps, j);
    MatchKept(At(c, start, steps, i).rows, At(c, start, steps, j).rows, KeyOf(c, steps[j].info));
  }

  /** The step stores a reply of the model for `key`. */
  predicate Stores(c: Config, s: Shared, step: Step, key: Terms) {
    step.Reply? && step.text.Some? &&
      match PhaseOf(s, step.id) case Some(Asked(info)) => KeyOf(c, info) == key case _ => false
  }

  lemma StoreFixesKey(c: Config, s: Shared, step: Step, key: Terms)
    requires Stores(c, s, step, key) && NonEmpty(s.rows) && step.text != Some("")
    ensures Found(FirstMatch(Apply(c, s, step).rows, key))
  {
    hide KeyOf;
    var row := Row(false, key, step.text.value);
    FirstMatchAppend(s.rows, [row], key);
    OnlyRow(row);
  }

  /** Replies and rows that are not empty. */
  predicate Substantial(start: Shared, steps: seq<Step>) {
    && NonEmpty(start.rows) &&
      (forall id :: id in start.phases && start.phases[id].Aliasing? ==> start.phases[id].data != "")
    && forall i :: 0 <= i < |steps| && steps[i].Reply? ==> steps[i].text != Some("")
  }

  predicate FullRows(s: Shared) {
    NonEmpty(s.rows) && forall id :: id in s.phases && s.phases[id].Aliasing? ==> s.phases[id].data != ""
  }

  lemma {:induction false} RowsStayFull(c: Config, start: Shared, steps: seq<Step>, i: nat)
    requires Substantial(start, steps) && i <= |steps|
    ensures FullRows(At(c, start, steps, i))
  {
    hide Run, FirstMatch, KeyOf, Project, NormalizeTerms, Invoke;
    if i == 0 {
      NothingRun(c, start, steps);
    } else {
      RowsStayFull(c, start, steps, i - 1);
      AtNext(c, start, steps, i - 1);
      FullStep(c, At(c, start, steps, i - 1), steps[i - 1]);
    }
  }

  lemma NothingRun(c: Config, start: Shared, steps: seq<Step>)
    ensures At(c, start, steps, 0) == start
  {
  }

  lemma FullStep(c: Config, s: Shared, step: Step)
    requires FullRows(s) && (step.Reply? ==> step.text != Some(""))
    ensures FullRows(Apply(c, s, step))
  {
    hide FirstMatch, KeyOf, Project, NormalizeTerms, Invoke;
  }

  /** Two answers of the model to one key come from requests that overlap: the later one
      began before the first was stored. */
  lemma ModelAnswersOverlap(c: Config, start: Shared, steps: seq<Step>, i: nat, f: nat, j: nat, key: Terms)
    requires Substantial(start, steps)
    requires i < j < |steps| && f < j && steps[f].Find? && Fresh(At(c, start, steps, f), steps[f].id) &&
      KeyOf(c, steps[f].info) == key
    requires Stores(c, At(c, start, steps, i), steps[i], key)
    requires Stores(c, At(c, start, steps, j), steps[j], key) && steps[j].id == steps[f].id
    ensures f <= i
  {
    hide Run, KeyOf, FirstMatch, Apply;
    if i < f {
      RowsStayFull(c, start, steps, i);
      StoreFixesKey(c, At(c, start, steps, i), steps[i], key);
      AtNext(c, start, steps, i);
      LaterRequestsGetTheStored(c, start, steps, i + 1, f);
      RowsGrow(c, start, steps, f + 1, j);
    }
  }

  lemma BothMiss(c: Config, info: Terms)
    ensures var s := Shared([], FRESH, map[], map[]);
      DidFindRaw(c, DidFindRaw(c, DidFind(c, DidFind(c, s, 0, info), 1, info), 0), 1)
      == s.(phases := map[0 := RawMissed(info), 1 := RawMissed(info)])
  {
    hide KeyOf, Project, NormalizeTerms;
    var s := Shared([], FRESH, map[], map[]);
    var looked := s.(phases := map[0 := Missed(info), 1 := Missed(info)]);
    assert DidFind(c, DidFind(c, s, 0, info), 1, info) == looked;
  }

  lemma BothAsk(info: Terms)
    ensures var s := Shared([], FRESH, map[0 := RawMissed(info), 1 := RawMissed(info)], map[]);
      DidAsk(DidAsk(s, 0, 0), 1, 0)
      == Shared([], Limits(map["visitor" := 2], map[]), map[0 := Asked(info), 1 := Asked(info)], map[])
  {
  }

  lemma BothReply(c: Config, limits: Limits, info: Terms, a: string, b: string)
    ensures var s, key := Shared([], limits, map[0 := Asked(info), 1 := Asked(info)], map[]), KeyOf(c, info);
      DidReply(c, DidReply(c, s, 0, Some(a)), 1, Some(b))
      == Shared([Row(false, key, a), Row(false, key, b)], limits, map[], map[0 := Answer(Llm, a), 1 := Answer(Llm, b)])
  {
    hide KeyOf;
    var s, key := Shared([], limits, map[0 := Asked(info), 1 := Asked(info)], map[]), KeyOf(c, info);
    assert DidReply(c, s, 0, Some(a))
      == Shared([Row(false, key, a)], limits, map[1 := Asked(info)], map[0 := Answer(Llm, a)]);
  }

  /** Such requests do get two different answers; the first one stored then stands. */
  lemma OverlapGetsTwoAnswers(c: Config, info: Terms, a: string, b: string)
    requires a != ""
    ensures var s := Shared([], FRESH, map[], map[]);
      var looked := DidFindRaw(c, DidFindRaw(c, DidFind(c, DidFind(c, s, 0, info), 1, info), 0), 1);
      var replied := DidReply(c, DidReply(c, DidAsk(DidAsk(looked, 0, 0), 1, 0), 0, Some(a)), 1, Some(b));
      var end := DidFind(c, replied, 2, info);
      end.answers == map[0 := Answer(Llm, a), 1 := Answer(Llm, b), 2 := Answer(Hardcoded, a)]
  {
    BothMiss(c, info);
    BothAsk(info);
    BothReply(c, Limits(map["visitor" := 2], map[]), info, a, b);
    hide KeyOf, DidFindRaw, DidAsk, DidReply;
    FirstOfTwo(KeyOf(c, info), a, b);
  }

  lemma FirstOfTwo(key: Terms, a: string, b: string)
    ensures FirstMatch([Row(false, key, a), Row(false, key, b)], key) == Some(a)
  {
  }

  // ----------------------------------------------------- model calls and the limit

  predicate AsksNow(s: Shared, step: Step) {
    step.Ask? && PhaseOf(s, step.id).Some? && PhaseOf(s, step.id).value.RawMissed?
  }

  /** The limiter calls of a run, and when the model was called. */
  function LimiterCallsOf(c: Config, start: Shared, steps: seq<Step>): seq<Call> {
    if steps == [] then []
    else
      var front, last := steps[..|steps| - 1], steps[|steps| - 1];
      LimiterCallsOf(c, start, front) + if AsksNow(Run(c, start, front), last) then [Call("visitor", last.now)] else []
  }

  function ModelCallsOf(c: Config, start: Shared, steps: seq<Step>): seq<int> {
    if steps == [] then []
    else
      var front, last := steps[..|steps| - 1], steps[|steps| - 1];
      var s := Run(c, start, front);
      ModelCallsOf(c, start, front)
      + if AsksNow(s, last) && Invoke(LIMIT, PERIOD, s.limits, "visitor", last.now).1 then [last.now] else []
  }

  lemma StepLimits(c: Config, s: Shared, step: Step)
    ensures Apply(c, s, step).limits == if AsksNow(s, step)
      then Invoke(LIMIT, PERIOD, s.limits, "visitor", step.now).0 else s.limits
  {
    hide FirstMatch, KeyOf, Project, NormalizeTerms, Invoke;
  }

  lemma {:induction false} OverlappingCallsAreGrants(c: Config, start: Shared, steps: seq<Step>)
    requires start.limits == FRESH
    ensures var calls := LimiterCallsOf(c, start, steps);
      && ModelCallsOf(c, start, steps) == Granted(LIMIT, PERIOD, calls, "visitor")
      && Run(c, start, steps).limits == After(LIMIT, PERIOD, calls)
  {
    hide Apply, Invoke, After, Granted;
    if steps == [] {
      NothingCalled();
    } else {
      var front, last := steps[..|steps| - 1], steps[|steps| - 1];
      OverlappingCallsAreGrants(c, start, front);
      StepLimits(c, Run(c, start, front), last);
      if AsksNow(Run(c, start, front), last) {
        OneMoreCall(LIMIT, PERIOD, LimiterCallsOf(c, start, front), Call("visitor", last.now), "visitor");
      } else {
        assert LimiterCallsOf(c, start, steps) == LimiterCallsOf(c, start, front);
        assert ModelCallsOf(c, start, steps) == ModelCallsOf(c, start, front);
      }
    }
  }

  lemma NothingCalled()
    ensures Granted(LIMIT, PERIOD, [], "visitor") == [] && After(LIMIT, PERIOD, []) == FRESH
  {
  }

  predicate AsksInTime(steps: seq<Step>) {
    forall i, j :: 0 <= i < j < |steps| && steps[i].Ask? && steps[j].Ask? ==> steps[i].now <= steps[j].now
  }

  lemma {:induction false} CallsAreClocked(c: Config, start: Shared, steps: seq<Step>)
    requires AsksInTime(steps)
    ensures Clocked(LimiterCallsOf(c, start, steps))
    ensures forall call :: call in LimiterCallsOf(c, start, steps) ==>
      exists i :: 0 <= i < |steps| && steps[i].Ask? && steps[i].now == call.now
  {
    hide Apply, Run, AsksNow;
    if steps != [] {
      var front, last := steps[..|steps| - 1], steps[|steps| - 1];
      assert forall i :: 0 <= i < |front| ==> front[i] == steps[i];
      CallsAreClocked(c, start, front);
      AskIsAsk(Run(c, start, front), last);
      var calls := LimiterCallsOf(c, start, front);
      forall k | 0 <= k < |calls| && last.Ask?
        ensures calls[k].now <= last.now
      {
        assert calls[k] in calls;
      }
    }
  }

  lemma AskIsAsk(s: Shared, step: Step)
    ensures AsksNow(s, step) ==> step.Ask?
  {
  }

  /** However requests overlap, more than twenty model calls never fit in ten minutes. */
  lemma OverlappingCallsAreLimited(c: Config, start: Shared, steps: seq<Step>, a: nat, b: nat)
    requires start.limits == FRESH && AsksInTime(steps)
    requires a + 20 < b <= |ModelCallsOf(c, start, steps)|
    ensures var m := ModelCallsOf(c, start, steps); m[b - 1] - m[a] > 600 * 1_000_000
  {
    OverlappingCallsAreGrants(c, start, steps);
    CallsAreClocked(c, start, steps);
    MoreThanLimitNeverFit(LIMIT, PERIOD, LimiterCallsOf(c, start, steps), "visitor", a, b);
  }
}
