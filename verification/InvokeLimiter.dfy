/** The per-visitor call limiter (class InvokeLimiter in src/llm_providers/llm_utils.py).
    The clock is an input, in microseconds. */
module InvokeLimiters {

  const SECOND := 1_000_000
  const DAY := 86_400

  /** `timedelta.seconds`: whole seconds with whole days dropped, never negative. */
  function Seconds(delta: int): int { delta / SECOND % DAY }

  datatype Limits = Limits(visitors: map<string, int>, reached: map<string, int>)

  const FRESH := Limits(map[], map[])

  /** What one call does: the new counters and whether the call is granted. */
  function Invoke(limit: int, period: int, st: Limits, visitor: string, now: int): (Limits, bool) {
    if visitor !in st.visitors then
      (st.(visitors := st.visitors[visitor := 1]), true)
    else if st.visitors[visitor] == limit then
      if visitor !in st.reached then
        (st.(reached := st.reached[visitor := now]), false)
      else if Seconds(now - st.reached[visitor]) > period then
        (Limits(st.visitors[visitor := 1], st.reached - {visitor}), true)
      else (st, false)
    else
      (st.(visitors := st.visitors[visitor := st.visitors[visitor] + 1]), true)
  }

  class InvokeLimiter {
    const limit: int
    const period: int
    var visitors: map<string, int>
    var reached: map<string, int>

    ghost function State(): Limits
      reads this
    {
      Limits(visitors, reached)
    }

    constructor (limit: int, period: int)
      ensures this.limit == limit && this.period == period && State() == FRESH
    {
      this.limit := limit;
      this.period := period;
      visitors := map[];
      reached := map[];
    }

    method CanInvoke(visitor: string, now: int) returns (granted: bool)
      modifies this
      ensures (State(), granted) == Invoke(limit, period, old(State()), visitor, now)
    {
      if visitor !in visitors {
        visitors := visitors[visitor := 1];
      } else if visitors[visitor] == limit {
        if visitor !in reached {
          reached := reached[visitor := now];
          return false;
        } else if Seconds(now - reached[visitor]) > period {
          visitors := visitors[visitor := 1];
          reached := reached - {visitor};
          return true;
        }
        return false;
      } else {
        visitors := visitors[visitor := visitors[visitor] + 1];
      }
      return true;
    }
  }

  // ---------------------------------------------------------------------- runs

  datatype Call = Call(visitor: string, now: int)

  function After(limit: int, period: int, calls: seq<Call>): Limits {
    if calls == [] then FRESH
    else
      var (last, before) := (calls[|calls| - 1], calls[..|calls| - 1]);
      Invoke(limit, period, After(limit, period, before), last.visitor, last.now).0
  }

  /** When the calls of visitor `v` were granted. */
  function Granted(limit: int, period: int, calls: seq<Call>, v: string): seq<int> {
    if calls == [] then []
    else
      var (last, before) := (calls[|calls| - 1], calls[..|calls| - 1]);
      Granted(limit, period, before, v)
      + if last.visitor == v && Invoke(limit, period, After(limit, period, before), v, last.now).1
        then [last.now] else []
  }

  lemma OneMoreCall(limit: int, period: int, calls: seq<Call>, call: Call, v: string)
    ensures var (next, granted) := Invoke(limit, period, After(limit, period, calls), call.visitor, call.now);
      && After(limit, period, calls + [call]) == next
      && Granted(limit, period, calls + [call], v)
        == Granted(limit, period, calls, v) + if call.visitor == v && granted then [call.now] else []
  {
    assert (calls + [call])[..|calls|] == calls;
  }

  predicate Clocked(calls: seq<Call>) {
    forall i, j :: 0 <= i < j < |calls| ==> calls[i].now <= calls[j].now
  }

  /** Sorted grants whose `n` latest began more than `gap` after the one before them, and
      of which no `limit + 1` in a row lie within `gap`. */
  ghost predicate Spread(limit: int, gap: int, g: seq<int>, n: int) {
    && limit >= 1 && 0 <= n <= limit && n <= |g| && (n == 0 ==> g == [])
    && (forall i, j :: 0 <= i < j < |g| ==> g[i] <= g[j])
    && (0 < |g| - n ==> g[|g| - n] - g[|g| - n - 1] > gap)
    && (forall i, j :: 0 <= i && i + limit <= j < |g| ==> g[j] - g[i] > gap)
  }

  lemma GrowSpread(limit: int, gap: int, g: seq<int>, n: int, now: int)
    requires Spread(limit, gap, g, n) && n < limit
    requires g != [] ==> g[|g| - 1] <= now
    ensures Spread(limit, gap, g + [now], n + 1)
  {
    var first := |g| - n;
    forall i | 0 <= i && i + limit <= |g|
      ensures now - g[i] > gap
    {
      assert g[i] <= g[first - 1] && g[first] <= now;
    }
  }

  lemma RestartSpread(limit: int, gap: int, g: seq<int>, n: int, now: int)
    requires Spread(limit, gap, g, n) && 0 < n
    requires now >= g[|g| - 1] && now - g[|g| - 1] > gap
    ensures Spread(limit, gap, g + [now], 1)
  {
    forall i | 0 <= i && i + limit <= |g|
      ensures now - g[i] > gap
    {
      assert g[i] <= g[|g| - 1];
    }
  }

  lemma LongerThanSeconds(delta: int, period: int)
    requires delta >= 0 && Seconds(delta) > period
    ensures delta > period * SECOND
  {
    var s := delta / SECOND;
    assert s % DAY <= s;
    assert delta >= s * SECOND;
  }

  function Count(st: Limits, v: string): int {
    if v in st.visitors then st.visitors[v] else 0
  }

  /** What holds of visitor `v` after grants `g`, the clock being at `t`. */
  ghost predicate Kept(limit: int, period: int, st: Limits, g: seq<int>, v: string, t: int) {
    && Spread(limit, period * SECOND, g, Count(st, v))
    && (v in st.visitors ==> Count(st, v) > 0)
    && (g != [] ==> g[|g| - 1] <= t)
    && (v in st.reached ==> g != [] && Count(st, v) == limit && g[|g| - 1] <= st.reached[v] <= t)
  }

  lemma CallKeeps(limit: int, period: int, st: Limits, g: seq<int>, v: string, t: int, call: Call)
    requires Kept(limit, period, st, g, v, t) && t <= call.now
    ensures var (next, granted) := Invoke(limit, period, st, call.visitor, call.now);
      Kept(limit, period, next, g + if call.visitor == v && granted then [call.now] else [], v, call.now)
  {
    hide Seconds, Spread;
    SpreadFacts(limit, period * SECOND, g, Count(st, v));
    assert g + [] == g;
    if call.visitor == v {
      if Count(st, v) < limit {
        GrowSpread(limit, period * SECOND, g, Count(st, v), call.now);
      } else if v in st.reached && Seconds(call.now - st.reached[v]) > period {
        LongerThanSeconds(call.now - st.reached[v], period);
        RestartSpread(limit, period * SECOND, g, Count(st, v), call.now);
      }
    }
  }

  lemma {:induction false} RunsAreKept(limit: int, period: int, calls: seq<Call>, v: string, t: int)
    requires limit >= 1 && Clocked(calls)
    requires calls != [] ==> t == calls[|calls| - 1].now
    ensures Kept(limit, period, After(limit, period, calls), Granted(limit, period, calls, v), v, t)
  {
    hide Kept, Invoke;
    if calls == [] {
      NothingKept(limit, period, v, t);
    } else {
      var before := calls[..|calls| - 1];
      var u := if before == [] then t else before[|before| - 1].now;
      RunsAreKept(limit, period, before, v, u);
      CallKeeps(limit, period, After(limit, period, before), Granted(limit, period, before, v), v, u,
        calls[|calls| - 1]);
    }
  }

  lemma NothingKept(limit: int, period: int, v: string, t: int)
    requires limit >= 1
    ensures Kept(limit, period, FRESH, [], v, t)
  {
  }

  lemma SpreadFacts(limit: int, gap: int, g: seq<int>, n: int)
    ensures Spread(limit, gap, g, n) ==> limit >= 1 && 0 <= n <= limit && n <= |g| && (n == 0 ==> g == [])
  {
  }

  /** However many resets a run spans, more than `limit` granted calls of one visitor never
      fit in a window as long as the period. */
  lemma MoreThanLimitNeverFit(limit: int, period: int, calls: seq<Call>, v: string, a: nat, b: nat)
    requires limit >= 1 && Clocked(calls)
    requires a + limit < b <= |Granted(limit, period, calls, v)|
    ensures var g := Granted(limit, period, calls, v); g[b - 1] - g[a] > period * 1_000_000
  {
    RunsAreKept(limit, period, calls, v, calls[|calls| - 1].now);
  }

  /** How many calls visitor `v` made. */
  function Asked(calls: seq<Call>, v: string): nat {
    if calls == [] then 0
    else Asked(calls[..|calls| - 1], v) + if calls[|calls| - 1].visitor == v then 1 else 0
  }

  /** A call counts up to the limit and is granted; at the limit it is refused and stamped;
      and once the period since that stamp has passed, counting starts again. */
  lemma CallCounts(limit: int, period: int, st: Limits, v: string, now: int)
    requires Count(st, v) <= limit && (v in st.reached ==> Count(st, v) == limit)
    requires limit >= 1 && forall u :: u in st.visitors ==> st.visitors[u] >= 1
    ensures var (next, granted) := Invoke(limit, period, st, v, now);
      && (Count(st, v) < limit ==> granted && Count(next, v) == Count(st, v) + 1 && next.reached == st.reached)
      && (Count(st, v) == limit && v !in st.reached ==>
        !granted && Count(next, v) == limit && next.reached == st.reached[v := now])
      && (Count(st, v) == limit && v in st.reached ==>
        if granted then Count(next, v) == 1 && next.reached == st.reached - {v} else next == st)
      && forall u :: u != v ==> Count(next, u) == Count(st, u) && (u in next.reached <==> u in st.reached)
  {
  }

  /** So the first `limit` calls of a visitor are granted. */
  lemma {:induction false} FirstCallsAreGranted(limit: int, period: int, calls: seq<Call>, v: string)
    requires Asked(calls, v) <= limit
    ensures |Granted(limit, period, calls, v)| == Asked(calls, v) == Count(After(limit, period, calls), v)
    ensures v !in After(limit, period, calls).reached
    ensures v in After(limit, period, calls).visitors <==> Asked(calls, v) > 0
  {
    if calls != [] { FirstCallsAreGranted(limit, period, calls[..|calls| - 1], v); }
  }

  /** And so are those from the call on that lifts the limit, as many as fit under it. */
  lemma {:induction false} CallsBelowLimitAreGranted(limit: int, period: int, calls: seq<Call>, more: seq<Call>,
                                                     v: string)
    requires var st := After(limit, period, calls); v in st.visitors && v !in st.reached
    requires Asked(more, v) <= limit - After(limit, period, calls).visitors[v]
    ensures |Granted(limit, period, calls + more, v)| == |Granted(limit, period, calls, v)| + Asked(more, v)
    ensures var st, next := After(limit, period, calls), After(limit, period, calls + more);
      v in next.visitors && v !in next.reached && next.visitors[v] == st.visitors[v] + Asked(more, v)
  {
    if more == [] {
      assert calls + more == calls;
    } else {
      var front, last := more[..|more| - 1], more[|more| - 1];
      assert calls + more == calls + front + [last];
      CallsBelowLimitAreGranted(limit, period, calls, front, v);
      OneMoreCall(limit, period, calls + front, last, v);
    }
  }

  /** What visitor `v` did, without the others. */
  function Own(calls: seq<Call>, v: string): seq<Call> {
    if calls == [] then []
    else Own(calls[..|calls| - 1], v) + if calls[|calls| - 1].visitor == v then [calls[|calls| - 1]] else []
  }

  /** Both states treat visitor `v` alike. */
  predicate SameFor(v: string, a: Limits, b: Limits) {
    && (v in a.visitors <==> v in b.visitors) && (v in a.visitors ==> a.visitors[v] == b.visitors[v])
    && (v in a.reached <==> v in b.reached) && (v in a.reached ==> a.reached[v] == b.reached[v])
  }

  lemma CallIsApart(limit: int, period: int, a: Limits, b: Limits, call: Call, v: string)
    requires SameFor(v, a, b)
    ensures call.visitor != v ==> SameFor(v, Invoke(limit, period, a, call.visitor, call.now).0, b)
    ensures call.visitor == v ==>
      && SameFor(v, Invoke(limit, period, a, v, call.now).0, Invoke(limit, period, b, v, call.now).0)
      && Invoke(limit, period, a, v, call.now).1 == Invoke(limit, period, b, v, call.now).1
  {
    hide Seconds;
  }

  /** Visitors do not touch each other's limits. */
  lemma {:induction false} VisitorsAreApart(limit: int, period: int, calls: seq<Call>, v: string)
    ensures Granted(limit, period, calls, v) == Granted(limit, period, Own(calls, v), v)
    ensures SameFor(v, After(limit, period, calls), After(limit, period, Own(calls, v)))
  {
    hide Invoke, SameFor;
    if calls == [] {
      assert SameFor(v, FRESH, FRESH) by { AlwaysSame(v, FRESH); }
    } else {
      var front, last := calls[..|calls| - 1], calls[|calls| - 1];
      var st, own := After(limit, period, front), After(limit, period, Own(front, v));
      VisitorsAreApart(limit, period, front, v);
      assert calls == front + [last];
      OneMoreCall(limit, period, front, last, v);
      CallIsApart(limit, period, st, own, last, v);
      if last.visitor == v {
        OneMoreCall(limit, period, Own(front, v), last, v);
      } else {
        assert Own(calls, v) == Own(front, v);
      }
    }
  }

  lemma AlwaysSame(v: string, st: Limits)
    ensures SameFor(v, st, st)
  {
  }

  /** A limit below one is never met, since counting starts at one: every call is granted. */
  lemma {:induction false} NoLimitBelowOne(limit: int, period: int, calls: seq<Call>, v: string)
    requires limit < 1
    ensures |Granted(limit, period, calls, v)| == Asked(calls, v)
    ensures v in After(limit, period, calls).visitors ==> After(limit, period, calls).visitors[v] >= 1
  {
    if calls != [] { NoLimitBelowOne(limit, period, calls[..|calls| - 1], v); }
  }

  /** Whole days are dropped, so a period of a day or more is never over: a visitor gets
      `limit` calls for good. */
  lemma {:induction false} LongPeriodNeverLifts(limit: int, period: int, calls: seq<Call>, v: string)
    requires limit >= 1 && period >= 86_399
    ensures |Granted(limit, period, calls, v)| <= limit
    ensures var st := After(limit, period, calls);
      |Granted(limit, period, calls, v)| == if v in st.visitors then st.visitors[v] else 0
  {
    if calls != [] { LongPeriodNeverLifts(limit, period, calls[..|calls| - 1], v); }
  }

  /** A refused visitor is let in again exactly when the time since the refusal, taken
      modulo one day, has passed the period; a whole number of days never suffices. */
  lemma LiftsIff(limit: int, period: int, st: Limits, v: string, now: int, days: nat)
    requires v in st.visitors && st.visitors[v] == limit && v in st.reached && period >= 0
    ensures Invoke(limit, period, st, v, now).1
      <==> (now - st.reached[v]) % 86_400_000_000 >= (period + 1) * 1_000_000
    ensures !Invoke(limit, period, st, v, st.reached[v] + days * 86_400_000_000).1
  {
    SecondsPassed(now - st.reached[v], period);
    var gap := days * DAY * SECOND;
    assert gap % (DAY * SECOND) == 0;
    SecondsPassed(gap, period);
  }

  lemma SecondsPassed(delta: int, period: int)
    ensures Seconds(delta) > period <==> delta % (DAY * SECOND) >= (period + 1) * SECOND
  {
    var s, q := delta / SECOND, delta / SECOND / DAY;
    assert delta == s * SECOND + delta % SECOND;
    assert s == q * DAY + s % DAY;
    var r := s % DAY * SECOND + delta % SECOND;
    assert delta == q * (DAY * SECOND) + r && 0 <= r < DAY * SECOND;
    assert delta % (DAY * SECOND) == r;
  }
}
