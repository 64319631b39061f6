/** Edit distance, typo corrections and paste bursts (src/analysis/bot_human_analyzer.py). */
module EditDistance {
  import opened Text

  // --------------------------------------------------------------- edit distance

  function Min(a: int, b: int): int { if a < b then a else b }

  function Mismatch(x: char, y: char): nat { if x == y then 0 else 1 }

  function Front(s: string): string
    requires s != ""
  {
    s[..|s| - 1]
  }

  function Last(s: string): char
    requires s != ""
  {
    s[|s| - 1]
  }

  function Distance(a: string, b: string): nat
    decreases |a| + |b|
  {
    if a == "" then |b|
    else if b == "" then |a|
    else
      Min(Min(Distance(Front(a), b) + 1, Distance(a, Front(b)) + 1),
          Distance(Front(a), Front(b)) + Mismatch(Last(a), Last(b)))
  }

  // ------------------------------------------------------ what the distance measures

  datatype Edit = Keep(c: char) | Swap(x: char, y: char) | Drop(x: char) | Add(y: char)

  function Source(script: seq<Edit>): string {
    if script == [] then ""
    else
      var e := script[|script| - 1];
      Source(script[..|script| - 1])
      + match e case Keep(c) => [c] case Swap(x, _) => [x] case Drop(x) => [x] case Add(_) => ""
  }

  function Target(script: seq<Edit>): string {
    if script == [] then ""
    else
      var e := script[|script| - 1];
      Target(script[..|script| - 1])
      + match e case Keep(c) => [c] case Swap(_, y) => [y] case Drop(_) => "" case Add(y) => [y]
  }

  function Cost(script: seq<Edit>): nat {
    if script == [] then 0
    else Cost(script[..|script| - 1]) + if script[|script| - 1].Keep? then 0 else 1
  }

  /** One more character on either side, or on both, changes the distance by at most one. */
  lemma OneMore(a: string, b: string, x: char, y: char)
    ensures Distance(a + [x], b) <= Distance(a, b) + 1
    ensures Distance(a, b + [y]) <= Distance(a, b) + 1
    ensures Distance(a + [x], b + [y]) <= Distance(a, b) + Mismatch(x, y)
  {
    assert Front(a + [x]) == a && Front(b + [y]) == b;
    DistanceToEmpty(a);
    DistanceToEmpty(b);
  }

  lemma DistanceToEmpty(a: string)
    ensures Distance(a, "") == |a| && Distance("", a) == |a|
  {
  }

  /** No script turns `a` into `b` for less than the distance. */
  lemma {:induction false} ScriptsCostAtLeast(script: seq<Edit>)
    ensures Distance(Source(script), Target(script)) <= Cost(script)
  {
    if script != [] {
      hide Distance, Source, Target, Cost;
      var before, e := script[..|script| - 1], script[|script| - 1];
      var a, b := Source(before), Target(before);
      var same := Extend(before, e);
      assert same == script;
      ScriptsCostAtLeast(before);
      assert a + "" == a && b + "" == b;
      match e
      case Keep(c) => OneMore(a, b, c, c);
      case Swap(x, y) => OneMore(a, b, x, y);
      case Drop(x) => OneMore(a, b, x, x);
      case Add(y) => OneMore(a, b, y, y);
    }
  }

  /** Some script does it for exactly the distance. */
  lemma {:induction false} BestScript(a: string, b: string) returns (script: seq<Edit>)
    ensures Source(script) == a && Target(script) == b && Cost(script) == Distance(a, b)
    decreases |a| + |b|
  {
    DistanceToEmpty(a);
    DistanceToEmpty(b);
    if a == "" && b == "" {
      return [];
    }
    hide Distance, Source, Target, Cost, Front, Last;
    if a != "" { FrontAndLast(a); }
    if b != "" { FrontAndLast(b); }
    assert a + "" == a && b + "" == b;
    if a != "" && b != "" { LastStep(a, b); }
    if b == "" || (a != "" && Distance(a, b) == Distance(Front(a), b) + 1) {
      DistanceToEmpty(Front(a));
      script := BestScript(Front(a), b);
      script := Extend(script, Drop(Last(a)));
    } else if a == "" || Distance(a, b) == Distance(a, Front(b)) + 1 {
      DistanceToEmpty(Front(b));
      script := BestScript(a, Front(b));
      script := Extend(script, Add(Last(b)));
    } else {
      script := BestScript(Front(a), Front(b));
      script := Extend(script, if Last(a) == Last(b) then Keep(Last(a)) else Swap(Last(a), Last(b)));
    }
  }

  lemma FrontAndLast(s: string)
    requires s != ""
    ensures s == Front(s) + [Last(s)] && |Front(s)| < |s|
  {
  }

  lemma Extend(script: seq<Edit>, e: Edit) returns (longer: seq<Edit>)
    ensures longer == script + [e]
    ensures Source(longer) == Source(script) + if e.Keep? then [e.c] else if e.Add? then "" else [e.x]
    ensures Target(longer) == Target(script) + if e.Keep? then [e.c] else if e.Drop? then "" else [e.y]
    ensures Cost(longer) == Cost(script) + if e.Keep? then 0 else 1
  {
    longer := script + [e];
    assert longer[..|longer| - 1] == script;
  }

  // ---------------------------------------------------------------------- a metric

  lemma {:induction false} DistanceIsSymmetric(a: string, b: string)
    ensures Distance(a, b) == Distance(b, a)
    decreases |a| + |b|
  {
    if a != "" && b != "" {
      DistanceIsSymmetric(Front(a), b);
      DistanceIsSymmetric(a, Front(b));
      DistanceIsSymmetric(Front(a), Front(b));
    }
  }

  lemma {:induction false} DistanceIsZeroIff(a: string, b: string)
    ensures Distance(a, b) == 0 <==> a == b
    decreases |a| + |b|
  {
    if a != "" && b != "" {
      DistanceIsZeroIff(Front(a), Front(b));
      assert a == Front(a) + [Last(a)] && b == Front(b) + [Last(b)];
    }
  }

  lemma {:induction false} DistanceBounds(a: string, b: string)
    ensures |b| - |a| <= Distance(a, b) <= |a| + |b|
    decreases |a| + |b|
  {
    if a != "" && b != "" {
      DistanceBounds(Front(a), b);
      DistanceBounds(a, Front(b));
      DistanceBounds(Front(a), Front(b));
    }
  }

  /** The triangle inequality, by cases on the last edits of `a` to `b` and of `b` to `c`. */
  lemma {:induction false} TriangleInequality(a: string, b: string, c: string)
    ensures Distance(a, c) <= Distance(a, b) + Distance(b, c)
    decreases |a| + |b| + |c|
  {
    if a == "" || b == "" || c == "" {
      DistanceBounds(a, c);
      DistanceBounds(b, c);
      DistanceBounds(b, a);
      DistanceIsSymmetric(a, b);
      DistanceToEmpty(a);
      DistanceToEmpty(c);
    } else {
      TriangleInequality(Front(a), b, c);
      TriangleInequality(a, b, Front(c));
      TriangleInequality(a, Front(b), c);
      TriangleInequality(a, Front(b), Front(c));
      TriangleInequality(Front(a), Front(b), c);
      TriangleInequality(Front(a), Front(b), Front(c));
      LastStep(a, b);
      LastStep(b, c);
      LastStep(a, c);
    }
  }

  lemma LastStep(a: string, b: string)
    requires a != "" && b != ""
    ensures var d, del, ins, sub :=
        Distance(a, b), Distance(Front(a), b) + 1, Distance(a, Front(b)) + 1,
        Distance(Front(a), Front(b)) + Mismatch(Last(a), Last(b));
      d <= del && d <= ins && d <= sub && (d == del || d == ins || d == sub)
  {
  }

  // -------------------------------------------------------------------- two-row DP

  /** One row of the table from the row above it. */
  method NextRow(a: string, i: nat, b: string, prev: seq<nat>) returns (curr: seq<nat>)
    requires i < |a| && |prev| == |b| + 1
    requires forall j :: 0 <= j <= |b| ==> prev[j] == Distance(a[..i], b[..j])
    ensures |curr| == |b| + 1
    ensures forall j :: 0 <= j <= |b| ==> curr[j] == Distance(a[..i + 1], b[..j])
  {
    ghost var row := a[..i + 1];
    assert Front(row) == a[..i] && Last(row) == a[i];
    DistanceToEmpty(row);
    curr := [i + 1];
    for j := 0 to |b|
      invariant |curr| == j + 1
      invariant forall k :: 0 <= k <= j ==> curr[k] == Distance(row, b[..k])
    {
      ghost var column := b[..j + 1];
      assert Front(column) == b[..j] && Last(column) == b[j];
      var cell := Min(Min(prev[j + 1] + 1, curr[j] + 1), prev[j] + Mismatch(a[i], b[j]));
      assert cell == Distance(row, column);
      hide Distance;
      curr := curr + [cell];
    }
  }

  method Levenshtein(a: string, b: string) returns (d: nat)
    ensures d == Distance(a, b)
    decreases |a| < |b|
  {
    if |a| < |b| {
      DistanceIsSymmetric(a, b);
      d := Levenshtein(b, a);
      return;
    }
    DistanceToEmpty(a);
    if b == "" { return |a|; }
    var prev: seq<nat> := seq(|b| + 1, j requires 0 <= j => j);
    for i := 0 to |a|
      invariant |prev| == |b| + 1
      invariant forall j :: 0 <= j <= |b| ==> prev[j] == Distance(a[..i], b[..j])
    {
      hide Distance;
      prev := NextRow(a, i, b, prev);
    }
    assert a[..|a|] == a && b[..|b|] == b;
    d := prev[|b|];
  }

  /** Command `i` looks like the correction of a typing error in the one before it. */
  predicate CorrectedAt(commands: seq<string>, i: int)
    requires 1 <= i < |commands|
  {
    var a, b := Strip(commands[i - 1]), Strip(commands[i]);
    a != b && |a| > 4 && |b| > 4 && 1 <= Distance(a, b) <= 3
  }

  /** One to three edits between stripped commands of five characters or more. */
  lemma CorrectedIff(commands: seq<string>, i: nat)
    requires 1 <= i < |commands|
    ensures CorrectedAt(commands, i) <==>
      var a, b := Strip(commands[i - 1]), Strip(commands[i]);
      a != b && |a| >= 5 && |b| >= 5 && exists script :: Source(script) == a && Target(script) == b && Cost(script) <= 3
  {
    hide Strip, Distance, Source, Target, Cost;
    var a, b := Strip(commands[i - 1]), Strip(commands[i]);
    DistanceIsZeroIff(a, b);
    var best := BestScript(a, b);
    forall script | Source(script) == a && Target(script) == b
      ensures Distance(a, b) <= Cost(script)
    {
      ScriptsCostAtLeast(script);
    }
  }

  function Corrections(commands: seq<string>, n: nat): set<int>
    requires n <= |commands|
  {
    set i | 1 <= i < n && CorrectedAt(commands, i)
  }

  lemma CorrectionsStep(commands: seq<string>, n: nat)
    requires 1 <= n < |commands|
    ensures Corrections(commands, n + 1) == Corrections(commands, n) + if CorrectedAt(commands, n) then {n} else {}
    ensures n !in Corrections(commands, n)
  {
    hide CorrectedAt;
  }

  method CountTypoCorrections(commands: seq<string>) returns (count: nat)
    ensures count == |Corrections(commands, |commands|)|
  {
    count := 0;
    if commands == [] { return; }
    for i := 1 to |commands|
      invariant count == |Corrections(commands, i)|
    {
      hide Distance, Strip, Corrections;
      CorrectionsStep(commands, i);
      var a, b := Strip(commands[i - 1]), Strip(commands[i]);
      if a == b || a == "" || b == "" { continue; }
      var d := Levenshtein(a, b);
      if 1 <= d <= 3 && |a| > 4 && |b| > 4 { count := count + 1; }
    }
  }

  // ------------------------------------------------------------------ paste bursts

  /** Length of the run of delays under the threshold that `delays` begins with. */
  function RunLength(delays: seq<int>, threshold: int): (n: nat)
    ensures n <= |delays|
    ensures forall i :: 0 <= i < n ==> delays[i] < threshold
    ensures n < |delays| ==> delays[n] >= threshold
  {
    if delays == [] || delays[0] >= threshold then 0 else 1 + RunLength(delays[1..], threshold)
  }

  /** Lengths of the maximal runs of delays under the threshold. */
  function Runs(delays: seq<int>, threshold: int): seq<nat> {
    if delays == [] then []
    else if delays[0] >= threshold then Runs(delays[1..], threshold)
    else [RunLength(delays, threshold)] + Runs(delays[RunLength(delays, threshold)..], threshold)
  }

  function Thirds(runs: seq<nat>): nat {
    if runs == [] then 0 else runs[0] / 3 + Thirds(runs[1..])
  }

  lemma RunsStep(delays: seq<int>, threshold: int)
    ensures var n := RunLength(delays, threshold);
      Thirds(Runs(delays, threshold)) == n / 3 + Thirds(Runs(delays[n..], threshold))
  {
    var n := RunLength(delays, threshold);
    if n == 0 {
      assert delays[0..] == delays;
    } else {
      var rest := Runs(delays[n..], threshold);
      assert ([n] + rest)[1..] == rest;
    }
  }

  lemma NextDelay(delays: seq<int>, threshold: int)
    requires delays != []
    ensures var n, rest := RunLength(delays, threshold), delays[1..];
      if delays[0] < threshold then
        n == 1 + RunLength(rest, threshold) && delays[n..] == rest[n - 1..]
      else
        n == 0 && Thirds(Runs(delays[n..], threshold)) == Thirds(Runs(rest, threshold))
  {
    assert delays[0..] == delays;
  }

  lemma NoDelays(threshold: int)
    ensures RunLength([], threshold) == 0 && Thirds(Runs([], threshold)) == 0
  {
  }

  /** Counting three at a time within a streak counts a third of every maximal run. */
  method CountPasteBursts(delays: seq<int>, threshold: int) returns (bursts: nat)
    ensures bursts == Thirds(Runs(delays, threshold))
  {
    hide Runs, Thirds, RunLength;
    bursts := 0;
    var streak := 0;
    ghost var rest := delays;
    RunsStep(delays, threshold);
    for i := 0 to |delays|
      invariant 0 <= streak < 3 && rest == delays[i..]
      invariant var n := RunLength(rest, threshold);
        Thirds(Runs(delays, threshold)) == bursts + (streak + n) / 3 + Thirds(Runs(rest[n..], threshold))
    {
      NextDelay(rest, threshold);
      if delays[i] < threshold {
        streak := streak + 1;
        if streak >= 3 {
          bursts := bursts + 1;
          streak := 0;
        }
      } else {
        streak := 0;
        RunsStep(rest[1..], threshold);
      }
      rest := rest[1..];
    }
    NoDelays(threshold);
  }
}
