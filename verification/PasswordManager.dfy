/** The deferred-success password validator (src/core/password_manager.py). The random
    threshold and the early-success coin of a call are inputs. */
module PasswordManager {
  import opened Text

  datatype Config = Config(minAttempts: int, maxAttempts: int, maxLength: int)

  datatype Tracker = Tracker(threshold: int, count: int)

  datatype State = State(allowed: set<string>, tracking: map<string, Tracker>, blacklist: set<string>)

  /** One call: the password, who tries it, a threshold drawn in the configured range in
      case the key is new, and the coin for an early success. */
  datatype Try = Try(password: string, clientIp: Option<string>, sessionId: string, drawn: int, lucky: bool) {
    /** The client address, or the session id where there is none. */
    function Key(): string {
      if clientIp.Some? && clientIp.value != "" then clientIp.value else sessionId
    }
  }

  predicate InRange(c: Config, t: Try) {
    c.minAttempts <= t.drawn <= c.maxAttempts
  }

  /** Counted: neither allowed nor over-long. */
  predicate Counted(c: Config, st: State, t: Try) {
    t.password !in st.allowed && |t.password| <= c.maxLength
  }

  function Tracked(st: State, t: Try): Tracker {
    if t.Key() in st.tracking then st.tracking[t.Key()] else Tracker(t.drawn, 0)
  }

  function Attempt(c: Config, st: State, t: Try): (State, bool) {
    if t.password in st.allowed then (st, true)
    else if |t.password| > c.maxLength then (st.(blacklist := st.blacklist + {t.password}), false)
    else
      var was := Tracked(st, t);
      var now := Tracker(was.threshold, was.count + 1);
      if now.count >= now.threshold || t.lucky then
        (st.(allowed := st.allowed + {t.password}, tracking := st.tracking - {t.Key()}), true)
      else (st.(tracking := st.tracking[t.Key() := now]), false)
  }

  class Manager {
    const config: Config
    var allowed: set<string>
    var tracking: map<string, Tracker>
    var blacklist: set<string>

    ghost function View(): State
      reads this
    {
      State(allowed, tracking, blacklist)
    }

    constructor (config: Config, configured: set<string>)
      ensures this.config == config && View() == State({"mlkjhgfd"} + configured, map[], {})
    {
      this.config := config;
      allowed, tracking, blacklist := {"mlkjhgfd"} + configured, map[], {};
    }

    method StateFor(t: Try)
      modifies this`tracking
      ensures t.Key() in tracking && tracking[t.Key()] == Tracked(old(View()), t)
      ensures tracking == old(tracking)[t.Key() := Tracked(old(View()), t)]
    {
      if t.Key() !in tracking { tracking := tracking[t.Key() := Tracker(t.drawn, 0)]; }
      assert tracking == old(tracking)[t.Key() := tracking[t.Key()]];
    }

    method AttemptPassword(t: Try) returns (accepted: bool)
      modifies this
      ensures (View(), accepted) == Attempt(config, old(View()), t)
    {
      if t.password in allowed { return true; }
      if |t.password| > config.maxLength {
        blacklist := blacklist + {t.password};
        return false;
      }
      ghost var before := tracking;
      StateFor(t);
      var state := tracking[t.Key()];
      state := Tracker(state.threshold, state.count + 1);
      tracking := tracking[t.Key() := state];
      assert tracking == before[t.Key() := state];
      accepted := state.count >= state.threshold || t.lucky;
      if accepted {
        allowed := allowed + {t.password};
        tracking := tracking - {t.Key()};
        assert tracking == before - {t.Key()};
      }
    }
  }

  // ----------------------------------------------------------------------------- runs

  function Start(configured: set<string>): State {
    State({"mlkjhgfd"} + configured, map[], {})
  }

  function After(c: Config, configured: set<string>, run: seq<Try>): State {
    if run == [] then Start(configured)
    else Attempt(c, After(c, configured, run[..|run| - 1]), run[|run| - 1]).0
  }

  function Accepted(c: Config, configured: set<string>, run: seq<Try>, i: nat): bool
    requires i < |run|
  {
    Attempt(c, After(c, configured, run[..i]), run[i]).1
  }

  /** How many counted attempts of `key` were rejected since its last counted acceptance. */
  function Rejections(c: Config, configured: set<string>, run: seq<Try>, key: string): nat {
    if run == [] then 0
    else
      var before, last := run[..|run| - 1], run[|run| - 1];
      var st := After(c, configured, before);
      if last.Key() != key || !Counted(c, st, last) then Rejections(c, configured, before, key)
      else if Attempt(c, st, last).1 then 0
      else Rejections(c, configured, before, key) + 1
  }

  /** A tracked counter equals the rejections so far and stays below its threshold. */
  lemma {:induction false} RunsKeep(c: Config, configured: set<string>, run: seq<Try>, key: string)
    requires forall i :: 0 <= i < |run| ==> InRange(c, run[i])
    ensures var st, n := After(c, configured, run), Rejections(c, configured, run, key);
      && (key in st.tracking ==>
        st.tracking[key].count == n && n < st.tracking[key].threshold
        && c.minAttempts <= st.tracking[key].threshold <= c.maxAttempts)
      && (key !in st.tracking ==> n == 0)
  {
    if run != [] { RunsKeep(c, configured, run[..|run| - 1], key); }
  }

  /** Between two counted acceptances a key sees at most `maxAttempts - 1` counted
      rejections: the next counted attempt after that many is accepted. */
  lemma RejectionsAreBounded(c: Config, configured: set<string>, run: seq<Try>, key: string)
    requires forall i :: 0 <= i < |run| ==> InRange(c, run[i])
    ensures Rejections(c, configured, run, key) == 0 || Rejections(c, configured, run, key) <= c.maxAttempts - 1
  {
    RunsKeep(c, configured, run, key);
  }

  /** Without early luck a counted attempt is accepted exactly when it is the
      threshold-th of its key since the last counted acceptance. */
  lemma AcceptedAtThreshold(c: Config, configured: set<string>, run: seq<Try>, i: nat)
    requires i < |run| && forall j :: 0 <= j < |run| ==> InRange(c, run[j])
    requires Counted(c, After(c, configured, run[..i]), run[i]) && !run[i].lucky
    ensures Accepted(c, configured, run, i) <==>
      Rejections(c, configured, run[..i], run[i].Key()) + 1 >= Tracked(After(c, configured, run[..i]), run[i]).threshold
  {
    RunsKeep(c, configured, run[..i], run[i].Key());
  }

  /** The allowed set only grows, and never meets the blacklist. */
  lemma {:induction false} AllowedGrows(c: Config, configured: set<string>, run: seq<Try>, i: nat)
    requires i <= |run|
    ensures After(c, configured, run[..i]).allowed <= After(c, configured, run).allowed
    ensures After(c, configured, run).allowed !! After(c, configured, run).blacklist
    ensures forall p :: p in After(c, configured, run).blacklist ==> |p| > c.maxLength
    decreases |run|
  {
    if run != [] {
      var front := run[..|run| - 1];
      if i < |run| {
        assert front[..i] == run[..i];
        AllowedGrows(c, configured, front, i);
      } else {
        assert run[..i] == run;
        AllowedGrows(c, configured, front, 0);
      }
    }
  }

  /** Whoever got a password accepted, it is accepted from everyone ever after. */
  lemma AcceptedForGood(c: Config, configured: set<string>, run: seq<Try>, i: nat, j: nat)
    requires i < j < |run| && run[i].password == run[j].password && Accepted(c, configured, run, i)
    ensures Accepted(c, configured, run, j)
  {
    assert run[..i + 1][..i] == run[..i] && run[..j][..i + 1] == run[..i + 1];
    AllowedGrows(c, configured, run[..j], i + 1);
  }

  lemma {:induction false} OnlyShortIsLearned(c: Config, configured: set<string>, run: seq<Try>, p: string)
    requires p in After(c, configured, run).allowed
    ensures p in Start(configured).allowed || |p| <= c.maxLength
  {
    if run != [] && p in After(c, configured, run[..|run| - 1]).allowed {
      OnlyShortIsLearned(c, configured, run[..|run| - 1], p);
    }
  }

  /** An over-long password is accepted exactly when it is configured or the master one. */
  lemma OverlongAcceptedIff(c: Config, configured: set<string>, run: seq<Try>, i: nat)
    requires i < |run| && |run[i].password| > c.maxLength
    ensures Accepted(c, configured, run, i) <==> run[i].password in {"mlkjhgfd"} + configured
  {
    if Accepted(c, configured, run, i) {
      OnlyShortIsLearned(c, configured, run[..i], run[i].password);
    } else {
      assert run[..i][..0] == [];
      AllowedGrows(c, configured, run[..i], 0);
    }
  }

  // ------------------------------------------------------------- who is counted together

  /** A counted attempt from an address touches the count of that address alone, one without
      an address that of its session alone. */
  lemma AttemptTouchesOneCount(c: Config, st: State, t: Try, key: string)
    requires t.clientIp.Some? && t.clientIp.value != "" ==> key != t.clientIp.value
    requires t.clientIp == None || t.clientIp == Some("") ==> key != t.sessionId
    ensures var next := Attempt(c, st, t).0;
      && (key in next.tracking <==> key in st.tracking)
      && (key in st.tracking ==> next.tracking[key] == st.tracking[key])
  {
  }

  /** Every try comes from the address `ip`, under whatever sessions, with a password that
      is short enough. */
  predicate AllFrom(c: Config, run: seq<Try>, ip: string) {
    forall i :: 0 <= i < |run| ==>
      InRange(c, run[i]) && run[i].clientIp == Some(ip) && |run[i].password| <= c.maxLength
  }

  lemma {:induction false} RejectedSoFar(c: Config, configured: set<string>, run: seq<Try>, ip: string)
    requires ip != "" && AllFrom(c, run, ip) && forall i :: 0 <= i < |run| ==> !Accepted(c, configured, run, i)
    ensures Rejections(c, configured, run, ip) == |run|
  {
    if run != [] {
      var front, last := run[..|run| - 1], run[|run| - 1];
      forall i | 0 <= i < |front|
        ensures !Accepted(c, configured, front, i)
      {
        assert front[..i] == run[..i] && !Accepted(c, configured, run, i);
      }
      RejectedSoFar(c, configured, front, ip);
      assert !Accepted(c, configured, run, |run| - 1);
    }
  }

  /** An address that keeps trying is let in after `maxAttempts` tries at the latest, however
      often it opens a new session. */
  lemma AddressIsLetIn(c: Config, configured: set<string>, run: seq<Try>, ip: string)
    requires ip != "" && AllFrom(c, run, ip) && run != [] && |run| >= c.maxAttempts
    ensures exists i :: 0 <= i < |run| && Accepted(c, configured, run, i)
  {
    if forall i :: 0 <= i < |run| ==> !Accepted(c, configured, run, i) {
      RejectedSoFar(c, configured, run, ip);
      RejectionsAreBounded(c, configured, run, ip);
    }
  }

  /** The threshold drawn when the rejections of `key` since its last counted acceptance began. */
  function DrawnFor(c: Config, configured: set<string>, run: seq<Try>, key: string): int {
    if run == [] then 0
    else
      var before, last := run[..|run| - 1], run[|run| - 1];
      if last.Key() != key || !Counted(c, After(c, configured, before), last) then DrawnFor(c, configured, before, key)
      else if Rejections(c, configured, before, key) == 0 then last.drawn
      else DrawnFor(c, configured, before, key)
  }

  lemma {:induction false} ThresholdIsDrawn(c: Config, configured: set<string>, run: seq<Try>, key: string)
    requires forall i :: 0 <= i < |run| ==> InRange(c, run[i])
    ensures var st := After(c, configured, run);
      key in st.tracking ==>
        && st.tracking[key].threshold == DrawnFor(c, configured, run, key)
        && Rejections(c, configured, run, key) > 0
  {
    if run != [] {
      var front := run[..|run| - 1];
      ThresholdIsDrawn(c, configured, front, key);
      RunsKeep(c, configured, front, key);
      RunsKeep(c, configured, run, key);
    }
  }

  /** When a try is accepted: the password is known, or it is short enough and either luck has
      it or it is, among the tries of its key since the last counted acceptance, as late as
      the threshold drawn at the first of them says. */
  lemma AcceptedIff(c: Config, configured: set<string>, run: seq<Try>, i: nat)
    requires i < |run| && forall j :: 0 <= j < |run| ==> InRange(c, run[j])
    ensures var before, key := run[..i], run[i].Key();
      var rejected := Rejections(c, configured, before, key);
      var threshold := if rejected == 0 then run[i].drawn else DrawnFor(c, configured, before, key);
      Accepted(c, configured, run, i) <==>
        || run[i].password in After(c, configured, before).allowed
        || (|run[i].password| <= c.maxLength && (run[i].lucky || rejected + 1 >= threshold))
  {
    RunsKeep(c, configured, run[..i], run[i].Key());
    ThresholdIsDrawn(c, configured, run[..i], run[i].Key());
  }

  /** Try `i` of the run rejects `p` for its length. */
  predicate Refused(c: Config, configured: set<string>, run: seq<Try>, i: nat, p: string) {
    i < |run| && run[i].password == p && |p| > c.maxLength && !Accepted(c, configured, run, i)
  }

  /** The blacklist holds exactly the passwords rejected for their length. */
  lemma {:induction false} BlacklistedIff(c: Config, configured: set<string>, run: seq<Try>, p: string)
    ensures p in After(c, configured, run).blacklist <==> exists i :: Refused(c, configured, run, i, p)
  {
    if run != [] {
      var front, last := run[..|run| - 1], |run| - 1;
      BlacklistedIff(c, configured, front, p);
      LastTry(c, configured, run, p);
      hide After, Refused;
      forall i: nat | i < last
        ensures Refused(c, configured, front, i, p) <==> Refused(c, configured, run, i, p)
      {
        EarlierTry(c, configured, run, i, p);
      }
      if i: nat :| Refused(c, configured, run, i, p) { InRun(c, configured, run, i, p); }
      if i: nat :| Refused(c, configured, front, i, p) {
        InRun(c, configured, front, i, p);
        assert Refused(c, configured, run, i, p);
      }
    }
  }

  lemma InRun(c: Config, configured: set<string>, run: seq<Try>, i: nat, p: string)
    requires Refused(c, configured, run, i, p)
    ensures i < |run|
  {
  }

  lemma EarlierTry(c: Config, configured: set<string>, run: seq<Try>, i: nat, p: string)
    requires i < |run| - 1
    ensures Refused(c, configured, run[..|run| - 1], i, p) <==> Refused(c, configured, run, i, p)
  {
    assert run[..|run| - 1][..i] == run[..i];
  }

  lemma LastTry(c: Config, configured: set<string>, run: seq<Try>, p: string)
    requires run != []
    ensures p in After(c, configured, run).blacklist <==>
      p in After(c, configured, run[..|run| - 1]).blacklist || Refused(c, configured, run, |run| - 1, p)
  {
    assert run[..|run| - 1] == run[..|run| - 1];
  }
}
