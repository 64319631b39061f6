/** The shell-like lookup-key normaliser (src/core/input_normalizer.py). */
module InputNormalizer {
  import opened Text

  const SHELL_OPERATORS: seq<string> := ["2>>", "2>", "&&", "||", ">>", ";", "|", ">", "<", "&"]

  // ---------------------------------------------------------------- operators

  function MatchIn(operators: seq<string>, s: string): Option<string> {
    if operators == [] then None
    else if operators[0] <= s then Some(operators[0])
    else MatchIn(operators[1..], s)
  }

  /** The first operator, in table order, that starts `s`. */
  function MatchShellOperator(s: string): Option<string> {
    MatchIn(SHELL_OPERATORS, s)
  }

  predicate Bare(c: char) { !IsSpace(c) && !IsQuote(c) && c != '\\' }

  predicate BareOperators(operators: seq<string>) {
    forall k :: 0 <= k < |operators| ==>
      operators[k] != "" && forall i :: 0 <= i < |operators[k]| ==> Bare(operators[k][i])
  }

  lemma {:induction false} MatchInPrefix(operators: seq<string>, s: string, p: string)
    requires p <= s
    ensures MatchIn(operators, s).None? ==> MatchIn(operators, p).None?
    ensures MatchIn(operators, s).Some? ==> MatchIn(operators, s).value in operators && MatchIn(operators, s).value <= s
    ensures MatchIn(operators, s) == Some(p) ==> MatchIn(operators, p) == Some(p)
  {
    if operators != [] { MatchInPrefix(operators[1..], s, p); }
  }

  lemma {:induction false} MatchInBeforeBlank(operators: seq<string>, w: string, r: string)
    requires BareOperators(operators)
    requires r == "" || IsSpace(r[0])
    ensures MatchIn(operators, w + r) == MatchIn(operators, w)
  {
    if operators != [] {
      var op := operators[0];
      assert |op| > |w| ==> Bare(op[|w|]);
      MatchInBeforeBlank(operators[1..], w, r);
    }
  }

  /** Operator lookahead never crosses a blank, and a matched operator matches itself. */
  lemma OperatorFacts(s: string, p: string, r: string)
    requires p <= s
    requires r == "" || IsSpace(r[0])
    ensures MatchShellOperator(s).None? ==> MatchShellOperator(p).None?
    ensures MatchShellOperator(s).Some? ==> MatchShellOperator(s).value != "" && MatchShellOperator(s).value <= s
    ensures MatchShellOperator(s).Some? ==> forall i :: 0 <= i < |MatchShellOperator(s).value| ==> Bare(s[i])
    ensures MatchShellOperator(p + r) == MatchShellOperator(p)
    ensures MatchShellOperator(s) == Some(p) ==> MatchShellOperator(p) == Some(p)
  {
    MatchInPrefix(SHELL_OPERATORS, s, p);
    MatchInBeforeBlank(SHELL_OPERATORS, p, r);
  }

  lemma {:induction false} FirstIsLongest(operators: seq<string>, s: string, op: string)
    requires forall i, j :: 0 <= i < j < |operators| ==> !(operators[i] <= operators[j])
    requires op in operators && op <= s
    ensures MatchIn(operators, s).Some? && |op| <= |MatchIn(operators, s).value|
  {
    if !(operators[0] <= s) { FirstIsLongest(operators[1..], s, op); }
  }

  /** The table order makes the first match the longest one. */
  lemma MatchIsLongest(s: string, op: string)
    requires op in SHELL_OPERATORS && op <= s
    ensures MatchShellOperator(s).Some? && |op| <= |MatchShellOperator(s).value|
    ensures MatchShellOperator(s).value in SHELL_OPERATORS && MatchShellOperator(s).value <= s
  {
    forall i, j | 0 <= i < j < |SHELL_OPERATORS|
      ensures !(SHELL_OPERATORS[i] <= SHELL_OPERATORS[j])
    {
      var a, b := SHELL_OPERATORS[i], SHELL_OPERATORS[j];
      assert |a| > |b| || a[0] != b[0];
    }
    FirstIsLongest(SHELL_OPERATORS, s, op);
    MatchInPrefix(SHELL_OPERATORS, s, s);
  }

  // ------------------------------------------------- the token-at-a-time reading

  /** Whether the reader is inside a quoted run, and which character closes it. */
  datatype Mode = Plain | Quoted(mark: char)

  predicate IsQuote(c: char) { c == '\'' || c == '"' }

  /** How many characters of `s` belong to the word being read. */
  function WordLen(s: string, mode: Mode): (n: nat)
    ensures n <= |s|
  {
    if s == "" then 0
    else
      match mode
      case Quoted(mark) =>
        if s[0] == '\\' && mark == '"' && |s| > 1 then 2 + WordLen(s[2..], mode)
        else 1 + WordLen(s[1..], if s[0] == mark then Plain else mode)
      case Plain =>
        if IsQuote(s[0]) then 1 + WordLen(s[1..], Quoted(s[0]))
        else if s[0] == '\\' then (if |s| > 1 then 2 + WordLen(s[2..], Plain) else 1)
        else if IsSpace(s[0]) || MatchShellOperator(s).Some? then 0
        else 1 + WordLen(s[1..], Plain)
  }

  /** Length of the next token: an operator where no word starts. */
  function StepLen(s: string): (n: nat)
    requires s != "" && !IsSpace(s[0])
    ensures 0 < n <= |s|
  {
    OperatorFacts(s, s, "");
    if WordLen(s, Plain) > 0 then WordLen(s, Plain)
    else |MatchShellOperator(s).value|
  }

  /** The tokens of `s`. */
  function Tokens(s: string): seq<string> {
    if s == "" then []
    else if IsSpace(s[0]) then Tokens(s[1..])
    else var n := StepLen(s); [s[..n]] + Tokens(s[n..])
  }

  function Flush(token: string): seq<string> {
    if token == "" then [] else [token]
  }

  /** The tokens still to come when `token` has been read of a word and `s` remains. */
  function Resume(token: string, s: string, mode: Mode): seq<string> {
    var n := WordLen(s, mode);
    Flush(token + s[..n]) + Tokens(s[n..])
  }

  lemma ResumeFresh(s: string)
    ensures Resume("", s, Plain) == Tokens(s)
  {
    var n := WordLen(s, Plain);
    assert "" + s[..n] == s[..n] && s[0..] == s;
  }

  lemma ResumeAtBlank(token: string, s: string)
    requires s != "" && IsSpace(s[0])
    ensures Resume(token, s, Plain) == Flush(token) + Resume("", s[1..], Plain)
  {
    assert token + s[..0] == token && s[0..] == s;
    ResumeFresh(s[1..]);
  }

  lemma ResumeAtOperator(token: string, s: string, op: string)
    requires s != "" && !IsQuote(s[0]) && s[0] != '\\' && !IsSpace(s[0])
    requires MatchShellOperator(s) == Some(op)
    ensures 0 < |op| <= |s|
    ensures Resume(token, s, Plain) == (Flush(token) + [op]) + Resume("", s[|op|..], Plain)
  {
    OperatorFacts(s, s, "");
    assert token + s[..0] == token && s[0..] == s && s[..|op|] == op;
    ResumeFresh(s[|op|..]);
  }

  /** The next character of the word stands alone, and leaves `next`. */
  predicate OneStep(s: string, mode: Mode, next: Mode)
    requires s != ""
  {
    if mode.Quoted? then
      !(s[0] == '\\' && mode.mark == '"' && |s| > 1) && next == if s[0] == mode.mark then Plain else mode
    else if IsQuote(s[0]) then next == Quoted(s[0])
    else if s[0] == '\\' then |s| == 1 && next == Plain
    else !IsSpace(s[0]) && MatchShellOperator(s).None? && next == Plain
  }

  lemma OneStepLength(s: string, mode: Mode, next: Mode)
    requires s != "" && OneStep(s, mode, next)
    ensures WordLen(s, mode) == 1 + WordLen(s[1..], next)
  {
    hide MatchShellOperator, IsSpace;
  }

  lemma ResumeOne(token: string, s: string, mode: Mode, next: Mode)
    requires s != "" && OneStep(s, mode, next)
    ensures Resume(token, s, mode) == Resume(token + [s[0]], s[1..], next)
  {
    OneStepLength(s, mode, next);
    hide WordLen, Tokens, Flush;
    var n := WordLen(s[1..], next);
    assert token + s[..1 + n] == token + [s[0]] + s[1..][..n];
    assert s[1 + n..] == s[1..][n..];
  }

  lemma ResumePair(token: string, s: string, mode: Mode)
    requires |s| > 1 && s[0] == '\\' && (mode == Plain || mode == Quoted('"'))
    ensures Resume(token, s, mode) == Resume(token + [s[0]] + [s[1]], s[2..], mode)
  {
    var n := WordLen(s[2..], mode);
    assert token + s[..2 + n] == token + [s[0]] + [s[1]] + s[2..][..n];
    assert s[2 + n..] == s[2..][n..];
  }

  /** The character-at-a-time loop reads exactly the tokens of `value`. */
  method TokenizeShellLike(value: string) returns (tokens: seq<string>)
    ensures tokens == Tokens(value)
  {
    hide Resume, Tokens, MatchShellOperator, StepLen, WordLen, IsSpace, IsQuote, Flush;
    tokens := [];
    var token := "";
    var quote := Plain;
    var index := 0;
    ghost var rest := value;
    ResumeFresh(value);
    while index < |value|
      invariant 0 <= index <= |value|
      invariant rest == value[index..]
      invariant Tokens(value) == tokens + Resume(token, rest, quote)
    {
      var c := value[index];
      if quote.Quoted? {
        if c == '\\' && quote.mark == '"' && index + 1 < |value| {
          ResumePair(token, rest, quote);
          token := token + [c];
          index := index + 1;
          token := token + [value[index]];
          rest := rest[2..];
        } else {
          var next := if c == quote.mark then Plain else quote;
          ResumeOne(token, rest, quote, next);
          token := token + [c];
          quote := next;
          rest := rest[1..];
        }
        index := index + 1;
      } else if IsQuote(c) {
        ResumeOne(token, rest, Plain, Quoted(c));
        token := token + [c];
        quote := Quoted(c);
        index := index + 1;
        rest := rest[1..];
      } else if c == '\\' {
        if index + 1 < |value| {
          ResumePair(token, rest, Plain);
          token := token + [c];
          index := index + 1;
          token := token + [value[index]];
          rest := rest[2..];
        } else {
          ResumeOne(token, rest, Plain, Plain);
          token := token + [c];
          rest := rest[1..];
        }
        index := index + 1;
      } else if IsSpace(c) {
        ResumeAtBlank(token, rest);
        Associate(tokens, Flush(token), Resume("", rest[1..], Plain));
        tokens := tokens + Flush(token);
        token := "";
        index := index + 1;
        rest := rest[1..];
      } else {
        var operator := MatchShellOperator(value[index..]);
        if operator.Some? {
          var op := operator.value;
          ResumeAtOperator(token, rest, op);
          Associate(tokens, Flush(token) + [op], Resume("", rest[|op|..], Plain));
          tokens := tokens + (Flush(token) + [op]);
          token := "";
          index := index + |op|;
          rest := rest[|op|..];
        } else {
          ResumeOne(token, rest, Plain, Plain);
          token := token + [c];
          index := index + 1;
          rest := rest[1..];
        }
      }
    }
    ResumeAtEnd(token, quote);
    tokens := tokens + Flush(token);
  }

  lemma Associate(a: seq<string>, b: seq<string>, c: seq<string>)
    ensures a + (b + c) == (a + b) + c
  {
  }

  lemma ResumeAtEnd(token: string, mode: Mode)
    ensures Resume(token, "", mode) == Flush(token)
  {
    assert token + "" == token;
  }

  // --------------------------------------------------------- reading the key back

  /** The first stride of a word: how far it goes and the mode it leaves. */
  function Stride(s: string, mode: Mode): (r: (nat, Mode))
    requires WordLen(s, mode) > 0
    ensures 0 < r.0 <= WordLen(s, mode)
    ensures WordLen(s, mode) == r.0 + WordLen(s[r.0..], r.1)
  {
    match mode
    case Quoted(mark) =>
      if s[0] == '\\' && mark == '"' && |s| > 1 then (2, mode)
      else (1, if s[0] == mark then Plain else mode)
    case Plain =>
      if IsQuote(s[0]) then (1, Quoted(s[0]))
      else if s[0] == '\\' && |s| > 1 then (2, Plain)
      else (1, Plain)
  }

  lemma StrideStands(s: string, mode: Mode, t: string, r: string)
    requires WordLen(s, mode) > 0
    requires t == s[..WordLen(s, mode)] + r
    requires r == "" || (IsSpace(r[0]) && WordLen(s, mode) < |s|)
    ensures var (k, next) := Stride(s, mode); WordLen(t, mode) == k + WordLen(t[k..], next)
  {
    var n := WordLen(s, mode);
    OperatorFacts(s, s[..n], r);
    assert t[0] == s[0];
    assert n >= 2 ==> t[1] == s[1];
  }

  lemma NoWordBeforeBlank(s: string, mode: Mode, r: string)
    requires WordLen(s, mode) == 0 && (r == "" || (IsSpace(r[0]) && s != ""))
    ensures WordLen(r, mode) == 0
  {
    hide MatchShellOperator;
  }

  /** A word keeps its length when it is cut out and put before a blank or the end. */
  lemma {:induction false} WordStands(s: string, mode: Mode, t: string, r: string)
    requires t == s[..WordLen(s, mode)] + r
    requires r == "" || (IsSpace(r[0]) && WordLen(s, mode) < |s|)
    ensures WordLen(t, mode) == WordLen(s, mode)
  {
    hide MatchShellOperator, WordLen, IsSpace;
    var n := WordLen(s, mode);
    if n == 0 {
      assert t == r;
      NoWordBeforeBlank(s, mode, r);
    } else {
      var (k, next) := Stride(s, mode);
      StrideStands(s, mode, t, r);
      assert s[..n][k..] == s[k..][..n - k] && t[k..] == s[..n][k..] + r;
      WordStands(s[k..], next, t[k..], r);
    }
  }

  /** One token at the front of a text is read back whatever stands behind the blank. */
  lemma TokenStands(s: string, w: string, r: string)
    requires s != "" && !IsSpace(s[0]) && w == s[..StepLen(s)]
    requires r == "" || (IsSpace(r[0]) && StepLen(s) < |s|)
    ensures Tokens(w + r) == [w] + Tokens(r)
  {
    var t := w + r;
    OperatorFacts(s, w, r);
    assert t[0] == s[0];
    if WordLen(s, Plain) > 0 {
      WordStands(s, Plain, t, r);
    } else {
      assert w == MatchShellOperator(s).value;
      assert WordLen(t, Plain) == 0;
    }
    assert t[..|w|] == w && t[|w|..] == r;
  }

  lemma JoinCons(w: string, rest: seq<string>)
    ensures Join([w] + rest) == w + if rest == [] then "" else " " + Join(rest)
    ensures Concat([w] + rest) == w + Concat(rest)
  {
    assert ([w] + rest)[1..] == rest;
  }

  /** Reading the space-joined tokens gives the tokens back, for every text. */
  lemma {:induction false} TokensOfJoin(s: string)
    ensures Tokens(Join(Tokens(s))) == Tokens(s)
  {
    hide MatchShellOperator, WordLen;
    if s == "" {
    } else if IsSpace(s[0]) {
      TokensOfJoin(s[1..]);
    } else {
      var n := StepLen(s);
      var w, rest := s[..n], Tokens(s[n..]);
      var r := if rest == [] then "" else " " + Join(rest);
      TokensOfJoin(s[n..]);
      JoinCons(w, rest);
      TokenStands(s, w, r);
      assert rest != [] ==> r[1..] == Join(rest);
    }
  }

  // ------------------------------------------------------ what the tokens contain

  /** Quoting state after some characters, read one at a time and blind to operators. */
  datatype Shield = Rest | InQuote(mark: char) | Escaped | EscapedInQuote

  function Shift(st: Shield, c: char): Shield {
    match st
    case Rest => if IsQuote(c) then InQuote(c) else if c == '\\' then Escaped else Rest
    case InQuote(mark) => if c == '\\' && mark == '"' then EscapedInQuote else if c == mark then Rest else st
    case Escaped => Rest
    case EscapedInQuote => InQuote('"')
  }

  function After(st: Shield, s: string): Shield
    decreases |s|
  {
    if s == "" then st else After(Shift(st, s[0]), s[1..])
  }

  /** `s` without the blanks that are neither quoted nor escaped. */
  function Visible(st: Shield, s: string): string
    decreases |s|
  {
    if s == "" then ""
    else (if st.Rest? && IsSpace(s[0]) then "" else [s[0]]) + Visible(Shift(st, s[0]), s[1..])
  }

  lemma {:induction false} AfterSplits(st: Shield, s: string, t: string)
    ensures After(st, s + t) == After(After(st, s), t)
    ensures Visible(st, s + t) == Visible(st, s) + Visible(After(st, s), t)
    decreases |s|
  {
    if s == "" {
      assert s + t == t;
    } else {
      hide Shift, IsSpace;
      var next := Shift(st, s[0]);
      var head := if st.Rest? && IsSpace(s[0]) then "" else [s[0]];
      var v, w := Visible(next, s[1..]), Visible(After(st, s), t);
      AfterSplits(next, s[1..], t);
      assert (s + t)[0] == s[0] && (s + t)[1..] == s[1..] + t;
      assert head + (v + w) == (head + v) + w;
    }
  }

  function ShieldOf(mode: Mode): Shield {
    if mode.Quoted? then InQuote(mode.mark) else Rest
  }

  /** A word is kept whole, and quoting is at rest where it ends before the end of the text. */
  lemma {:induction false} WordIsVisible(s: string, mode: Mode)
    requires mode.Quoted? ==> IsQuote(mode.mark)
    ensures var w := s[..WordLen(s, mode)];
      && Visible(ShieldOf(mode), w) == w
      && (|w| < |s| ==> After(ShieldOf(mode), w).Rest?)
  {
    hide MatchShellOperator, Stride, WordLen, After, IsSpace, Visible;
    var n := WordLen(s, mode);
    if n == 0 {
      assert s[..0] == "";
      AfterNothing(mode);
      if s != "" { NoWordAtRest(s, mode); }
    } else {
      var (k, next) := Stride(s, mode);
      var a, b := s[..k], s[k..n];
      StrideShifts(s, mode);
      WordIsVisible(s[k..], next);
      assert s[k..][..n - k] == b && s[..n] == a + b;
      AfterSplits(ShieldOf(mode), a, b);
      if k == |s| { assert b == "" && s[k..] == ""; }
    }
  }

  lemma NoWordAtRest(s: string, mode: Mode)
    requires s != "" && WordLen(s, mode) == 0
    ensures mode.Plain?
  {
    hide MatchShellOperator;
  }

  lemma AfterNothing(mode: Mode)
    ensures After(ShieldOf(mode), "").Rest? <==> mode.Plain?
    ensures Visible(ShieldOf(mode), "") == ""
  {
  }

  lemma WordBeginsDark(s: string, mode: Mode)
    requires WordLen(s, mode) > 0 && mode.Plain?
    ensures !IsSpace(s[0])
  {
    hide MatchShellOperator;
  }

  lemma StrideShifts(s: string, mode: Mode)
    requires WordLen(s, mode) > 0
    requires mode.Quoted? ==> IsQuote(mode.mark)
    ensures var (k, next) := Stride(s, mode);
      && Visible(ShieldOf(mode), s[..k]) == s[..k]
      && (k < |s| || After(ShieldOf(mode), s[..k]).Rest? ==> After(ShieldOf(mode), s[..k]) == ShieldOf(next))
      && (next.Quoted? ==> IsQuote(next.mark))
  {
    hide MatchShellOperator, After, Visible, WordLen, IsSpace;
    var (k, next) := Stride(s, mode);
    if mode.Plain? { WordBeginsDark(s, mode); }
    if k == 2 {
      assert s[..2] == [s[0], s[1]];
      TwoShifts(ShieldOf(mode), s[0], s[1]);
    } else {
      assert s[..1] == [s[0]];
      OneShift(ShieldOf(mode), s[0]);
    }
  }

  lemma OneShift(st: Shield, c: char)
    ensures After(st, [c]) == Shift(st, c)
    ensures Visible(st, [c]) == if st.Rest? && IsSpace(c) then "" else [c]
  {
  }

  lemma TwoShifts(st: Shield, c: char, d: char)
    ensures After(st, [c, d]) == Shift(Shift(st, c), d)
    ensures Visible(st, [c, d])
      == (if st.Rest? && IsSpace(c) then "" else [c]) + if Shift(st, c).Rest? && IsSpace(d) then "" else [d]
  {
    assert [c, d][1..] == [d] && [d][1..] == "";
    assert After(Shift(st, c), [d]) == Shift(Shift(st, c), d);
    assert Visible(Shift(st, c), [d]) == if Shift(st, c).Rest? && IsSpace(d) then "" else [d];
  }

  /** Operators hold no quote, backslash or blank, so they leave quoting at rest. */
  lemma {:induction false} BareIsVisible(w: string)
    requires forall i :: 0 <= i < |w| ==> Bare(w[i])
    ensures After(Rest, w) == Rest && Visible(Rest, w) == w
  {
    if w != "" { BareIsVisible(w[1..]); }
  }

  lemma TokenIsVisible(s: string)
    requires s != "" && !IsSpace(s[0])
    ensures var w := s[..StepLen(s)];
      Visible(Rest, w) == w && (|w| < |s| ==> After(Rest, w).Rest?)
  {
    WordIsVisible(s, Plain);
    if WordLen(s, Plain) == 0 {
      OperatorFacts(s, s, "");
      BareIsVisible(s[..StepLen(s)]);
    }
  }

  /** The tokens hold, in order, exactly the characters of `s` other than its bare blanks. */
  lemma {:induction false} TokensKeepVisible(s: string)
    ensures Concat(Tokens(s)) == Visible(Rest, s)
  {
    hide MatchShellOperator, WordLen, StepLen;
    if s == "" {
    } else if IsSpace(s[0]) {
      TokensKeepVisible(s[1..]);
    } else {
      var n := StepLen(s);
      var w, t := s[..n], s[n..];
      TokenIsVisible(s);
      TokensKeepVisible(t);
      JoinCons(w, Tokens(t));
      assert s == w + t;
      AfterSplits(Rest, w, t);
    }
  }

  /** Where the tokens of `v[at..]` stand in `v`. */
  function Spans(v: string, at: nat): seq<(nat, nat)>
    requires at <= |v|
    decreases |v| - at
  {
    if at == |v| then []
    else if IsSpace(v[at]) then Spans(v, at + 1)
    else
      var end := at + StepLen(v[at..]);
      [(at, end)] + Spans(v, end)
  }

  lemma {:induction false} SpansAreTokens(v: string, at: nat)
    requires at <= |v|
    ensures |Spans(v, at)| == |Tokens(v[at..])|
    ensures forall k :: 0 <= k < |Spans(v, at)| ==>
      var (a, b) := Spans(v, at)[k]; a < b <= |v| && Tokens(v[at..])[k] == v[a..b]
    decreases |v| - at
  {
    hide MatchShellOperator, WordLen, StepLen, IsSpace;
    if at < |v| {
      var n := if IsSpace(v[at]) then 1 else StepLen(v[at..]);
      assert v[at..][n..] == v[at + n..] && v[at..][..n] == v[at..at + n];
      SpansAreTokens(v, at + n);
    }
  }

  /** A token boundary is never inside a quoted run nor just behind a backslash. */
  lemma {:induction false} QuotedRunsStayWhole(v: string, at: nat, k: nat)
    requires at <= |v| && k < |Spans(v, at)|
    requires at < |v| ==> After(Rest, v[..at]).Rest?
    ensures var (a, b) := Spans(v, at)[k];
      && a < b <= |v|
      && After(Rest, v[..a]).Rest?
      && (b < |v| ==> After(Rest, v[..b]).Rest?)
    decreases |v| - at
  {
    hide MatchShellOperator, WordLen, StepLen, After, IsSpace;
    var n := if IsSpace(v[at]) then 1 else StepLen(v[at..]);
    SplitAt(v, at, n);
    if IsSpace(v[at]) {
      assert v[at..at + 1] == [v[at]];
      BlankIsRest(v[at]);
      QuotedRunsStayWhole(v, at + 1, k);
    } else {
      TokenIsVisible(v[at..]);
      if k > 0 { QuotedRunsStayWhole(v, at + n, k - 1); }
    }
  }

  lemma BlankIsRest(c: char)
    requires IsSpace(c)
    ensures After(Rest, [c]).Rest?
  {
    AfterSplits(Rest, [c], "");
  }

  lemma SplitAt(v: string, at: nat, n: nat)
    requires at + n <= |v|
    ensures v[at..][n..] == v[at + n..] && v[at..][..n] == v[at..at + n]
    ensures After(Rest, v[..at + n]) == After(After(Rest, v[..at]), v[at..at + n])
  {
    assert v[..at + n] == v[..at] + v[at..at + n];
    AfterSplits(Rest, v[..at], v[at..at + n]);
  }

  // ------------------------------------------------------------------- the key

  function NormalizeCommand(raw: string): string {
    var stripped := Strip(raw);
    if stripped == "" then stripped else Join(Tokens(stripped))
  }

  lemma {:induction false} JoinEnds(s: string)
    requires s != "" && !IsSpace(s[0]) && !IsSpace(s[|s| - 1])
    ensures var key := Join(Tokens(s)); key != "" && key[0] == s[0] && key[|key| - 1] == s[|s| - 1]
  {
    hide MatchShellOperator, WordLen, StepLen;
    var n := StepLen(s);
    var t := s[n..];
    JoinCons(s[..n], Tokens(t));
    if t != "" {
      var u := LStrip(t);
      TokensSkipBlanks(t);
      assert u[|u| - 1] == t[|t| - 1] by { assert !IsSpace(t[|t| - 1]); assert u != ""; }
      JoinEnds(u);
    }
  }

  lemma {:induction false} TokensSkipBlanks(s: string)
    ensures Tokens(LStrip(s)) == Tokens(s)
    ensures s != "" && !IsSpace(s[|s| - 1]) ==> LStrip(s) != ""
  {
    if s != "" && IsSpace(s[0]) { TokensSkipBlanks(s[1..]); }
  }

  lemma KeyIsJoin(raw: string)
    ensures NormalizeCommand(raw) == Join(Tokens(Strip(raw)))
  {
  }

  /** A stored key normalises to itself. */
  lemma NormalizeCommandIdempotent(raw: string)
    ensures NormalizeCommand(NormalizeCommand(raw)) == NormalizeCommand(raw)
  {
    var s := Strip(raw);
    if s != "" {
      JoinEnds(s);
      StripTight(Join(Tokens(s)));
      TokensOfJoin(s);
    }
  }

  /** Two commands share a key exactly when their stripped texts have the same tokens. */
  lemma SameKeyIffSameTokens(a: string, b: string)
    ensures NormalizeCommand(a) == NormalizeCommand(b) <==> Tokens(Strip(a)) == Tokens(Strip(b))
  {
    hide *;
    KeyIsJoin(a);
    KeyIsJoin(b);
    TokensOfJoin(Strip(a));
    TokensOfJoin(Strip(b));
  }

  /** Stripping before tokenising loses text exactly when a quote or a backslash is still
      open where the trailing blanks begin. */
  lemma StripLosesNothingIff(raw: string)
    ensures Tokens(Strip(raw)) == Tokens(raw)
      <==> After(Rest, Strip(raw)).Rest? || Strip(raw) == LStrip(raw)
  {
    hide Tokens, After, IsSpace, LStrip, RStrip;
    var s, t := LStrip(raw), Strip(raw);
    assert s == t + s[|t|..];
    TokensSkipBlanks(raw);
    TailKeptIff(t, s[|t|..]);
  }

  /** An escaped blank at the end is lost. */
  lemma EscapedBlankIsLost(word: string)
    requires word != "" && After(Rest, word).Escaped? && !IsSpace(word[0]) && !IsSpace(word[|word| - 1])
    ensures Tokens(Strip(word + " ")) != Tokens(word + " ")
  {
    hide Tokens, After;
    assert LStrip(word + " ") == word + " " && (word + " ")[..|word|] == word;
    assert Strip(word + " ") == word;
    TailIsLost(word, " ");
  }

  lemma BackslashBlankIsLost()
    ensures Tokens(Strip("a\\" + " ")) != Tokens("a\\" + " ")
  {
    assert "a\\"[1..] == "\\" && "\\"[1..] == "";
    assert After(Rest, "a\\") == After(Rest, "\\") == After(Escaped, "") == Escaped;
    hide Tokens, After, Strip;
    EscapedBlankIsLost("a\\");
  }

  lemma TailKeptIff(s: string, blanks: string)
    requires forall i :: 0 <= i < |blanks| ==> IsSpace(blanks[i])
    ensures Tokens(s + blanks) == Tokens(s) <==> After(Rest, s).Rest? || blanks == ""
  {
    hide Tokens, After;
    if blanks == "" {
      assert s + blanks == s;
    } else if After(Rest, s).Rest? {
      TokensOfParted(s, blanks);
      OnlyBlanks(blanks);
      assert Tokens(s) + [] == Tokens(s);
    } else {
      TailIsLost(s, blanks);
    }
  }

  lemma TailIsLost(s: string, tail: string)
    requires tail != "" && !After(Rest, s).Rest?
    ensures Tokens(s + tail) != Tokens(s)
  {
    TokensKeepVisible(s);
    TokensKeepVisible(s + tail);
    AfterSplits(Rest, s, tail);
    assert Visible(After(Rest, s), tail) != "";
  }

  // ------------------------------------------------------------ texts put side by side

  /** Two characters that stand side by side in some operator. */
  predicate Fuse(c: char, d: char) {
    (d == '>' && (c == '2' || c == '>')) || (c == d && (c == '&' || c == '|'))
  }

  /** `t` begins with a blank or an operator, and no operator reaches from `s` into `t`. */
  predicate Parted(s: string, t: string) {
    || t == "" || IsSpace(t[0])
    || (MatchShellOperator(t).Some? && (s == "" || !Fuse(s[|s| - 1], t[0])))
  }

  lemma {:induction false} MatchInParted(operators: seq<string>, s: string, t: string)
    requires BareOperators(operators) && s != "" && Parted(s, t)
    requires forall k, i :: 0 <= k < |operators| && 0 < i < |operators[k]| ==>
      Fuse(operators[k][i - 1], operators[k][i])
    ensures MatchIn(operators, s + t) == MatchIn(operators, s)
  {
    if operators != [] {
      hide MatchShellOperator, IsSpace;
      var op := operators[0];
      assert |op| > |s| ==> Bare(op[|s|]) && Fuse(op[|s| - 1], op[|s|]);
      MatchInParted(operators[1..], s, t);
    }
  }

  lemma MatchParted(s: string, t: string)
    requires s != "" && Parted(s, t)
    ensures MatchShellOperator(s + t) == MatchShellOperator(s)
  {
    MatchInParted(SHELL_OPERATORS, s, t);
  }

  lemma PartedLater(s: string, t: string, n: nat)
    requires Parted(s, t) && n <= |s|
    ensures Parted(s[n..], t)
  {
  }

  lemma StepTokens(s: string, t: string)
    requires s != "" && !IsSpace(s[0]) && StepLen(s + t) == StepLen(s)
    ensures Tokens(s + t) == [s[..StepLen(s)]] + Tokens(s[StepLen(s)..] + t)
  {
    hide StepLen;
    var n := StepLen(s);
    assert (s + t)[..n] == s[..n] && (s + t)[n..] == s[n..] + t;
  }

  lemma AtRestBehindBlank(s: string)
    requires s != "" && IsSpace(s[0])
    ensures After(Rest, s[1..]) == After(Rest, s)
  {
    BlankIsRest(s[0]);
    AfterSplits(Rest, [s[0]], s[1..]);
    assert s == [s[0]] + s[1..];
  }

  lemma AtRestBehindToken(s: string)
    requires s != "" && !IsSpace(s[0]) && After(Rest, s).Rest?
    ensures After(Rest, s[StepLen(s)..]).Rest?
  {
    hide StepLen;
    var n := StepLen(s);
    TokenIsVisible(s);
    AfterSplits(Rest, s[..n], s[n..]);
    assert s == s[..n] + s[n..];
    if n == |s| { assert s[n..] == ""; }
  }

  lemma TokensSkipOne(s: string)
    requires s != "" && IsSpace(s[0])
    ensures Tokens(s) == Tokens(s[1..])
  {
  }

  lemma TokensBegin(s: string)
    requires s != "" && !IsSpace(s[0])
    ensures Tokens(s) == [s[..StepLen(s)]] + Tokens(s[StepLen(s)..])
  {
    hide StepLen;
  }

  /** Where quoting is at rest and a blank or an operator follows, the tokens of the two
      texts stand side by side. */
  lemma {:induction false} TokensOfParted(s: string, t: string)
    requires After(Rest, s).Rest? && Parted(s, t)
    ensures Tokens(s + t) == Tokens(s) + Tokens(t)
    decreases |s|
  {
    hide StepLen, Parted, IsSpace, Tokens, After;
    if s == "" {
      assert s + t == t && Tokens("") == [] by { NoTokens(); }
    } else if IsSpace(s[0]) {
      assert (s + t)[1..] == s[1..] + t;
      PartedLater(s, t, 1);
      AtRestBehindBlank(s);
      TokensSkipOne(s);
      TokensSkipOne(s + t);
      TokensOfParted(s[1..], t);
    } else {
      var n := StepLen(s);
      StepParted(s, t);
      AtRestBehindToken(s);
      PartedLater(s, t, n);
      TokensOfParted(s[n..], t);
      StepTokens(s, t);
      TokensBegin(s);
      Associate([s[..n]], Tokens(s[n..]), Tokens(t));
    }
  }

  lemma NoTokens()
    ensures Tokens("") == []
  {
  }

  lemma StepParted(s: string, t: string)
    requires s != "" && !IsSpace(s[0])
    requires After(Rest, s).Rest? && Parted(s, t)
    ensures StepLen(s + t) == StepLen(s)
  {
    WordParted(s, Plain, t, s + t);
    MatchParted(s, t);
  }

  lemma {:induction false} WordParted(s: string, mode: Mode, tail: string, t: string)
    requires t == s + tail && Parted(s, tail)
    requires mode.Quoted? ==> IsQuote(mode.mark)
    requires After(ShieldOf(mode), s).Rest?
    ensures WordLen(t, mode) == WordLen(s, mode)
  {
    hide MatchShellOperator, WordLen, Stride, After;
    if WordLen(s, mode) == 0 {
      NoWordParted(s, mode, tail, t);
    } else {
      var (k, next) := Stride(s, mode);
      StrideLeaves(s, mode);
      assert t[k..] == s[k..] + tail;
      WordParted(s[k..], next, tail, t[k..]);
      MatchParted(s, tail);
      StrideGrows(s, mode, t);
    }
  }

  lemma NoWordParted(s: string, mode: Mode, tail: string, t: string)
    requires t == s + tail && Parted(s, tail) && WordLen(s, mode) == 0
    requires After(ShieldOf(mode), s).Rest?
    ensures WordLen(t, mode) == 0
  {
    hide MatchShellOperator, IsSpace, Bare;
    if s == "" {
      assert t == tail && mode.Plain?;
      NoWordBegins(t);
    } else {
      MatchParted(s, tail);
      hide Parted;
    }
  }

  lemma NoWordBegins(t: string)
    requires t == "" || IsSpace(t[0]) || MatchShellOperator(t).Some?
    ensures WordLen(t, Plain) == 0
  {
    if t != "" { OperatorFacts(t, t, ""); }
    hide MatchShellOperator;
  }

  lemma StrideLeaves(s: string, mode: Mode)
    requires WordLen(s, mode) > 0
    requires mode.Quoted? ==> IsQuote(mode.mark)
    requires After(ShieldOf(mode), s).Rest?
    ensures var (k, next) := Stride(s, mode);
      After(ShieldOf(next), s[k..]).Rest? && (next.Quoted? ==> IsQuote(next.mark))
  {
    hide MatchShellOperator;
    var (k, next) := Stride(s, mode);
    assert s == s[..k] + s[k..];
    AfterSplits(ShieldOf(mode), s[..k], s[k..]);
    StrideShifts(s, mode);
    assert k == |s| ==> s[..k] == s;
  }

  lemma StrideGrows(s: string, mode: Mode, t: string)
    requires WordLen(s, mode) > 0 && s <= t
    requires |s| > 1 || After(ShieldOf(mode), s).Rest?
    requires mode.Quoted? ==> IsQuote(mode.mark)
    requires MatchShellOperator(t) == MatchShellOperator(s)
    ensures var (k, next) := Stride(s, mode); WordLen(t, mode) == k + WordLen(t[k..], next)
  {
    hide MatchShellOperator;
    assert t[0] == s[0];
    assert |s| > 1 ==> t[1] == s[1];
    if |s| == 1 {
      assert s == [s[0]];
      AfterSplits(ShieldOf(mode), [s[0]], "");
    }
  }

  lemma {:induction false} OnlyBlanks(blanks: string)
    requires forall i :: 0 <= i < |blanks| ==> IsSpace(blanks[i])
    ensures Tokens(blanks) == []
  {
    if blanks != "" { OnlyBlanks(blanks[1..]); }
  }

  // ------------------------------------------------------- operators, spelt out

  predicate IsOperator(token: string) {
    token in {"2>>", "2>", "&&", "||", ">>", ";", "|", ">", "<", "&"}
  }

  /** Where `op` is the whole operator between `a` and `b`. */
  predicate StandsBetween(a: string, op: string, b: string) {
    match op
    case ";" | "<" => true
    case "|" | "&" => !Ends(a, op[0]) && !Begins(b, op[0])
    case "||" | "&&" => !Ends(a, op[0])
    case ">" => !Ends(a, '>') && !Ends(a, '2') && !Begins(b, '>')
    case ">>" => !Ends(a, '>') && !Ends(a, '2')
    case "2>" => !Begins(b, '>')
    case "2>>" => true
    case _ => false
  }

  predicate Ends(a: string, c: char) { a != "" && a[|a| - 1] == c }

  predicate Begins(b: string, c: char) { b != "" && b[0] == c }

  lemma OperatorMatches(a: string, op: string, b: string)
    requires StandsBetween(a, op, b)
    ensures MatchShellOperator(op + b) == Some(op) && Parted(a, op + b)
  {
    hide MatchShellOperator;
    var s := op + b;
    assert IsOperator(op);
    ListedOperators();
    MatchIsLongest(s, op);
    var found := MatchShellOperator(s).value;
    assert op <= found;
    assert |found| > |op| ==> found[|op|] == s[|op|] == b[0];
    if found != op { LongerOperator(op, found); }
  }

  lemma LongerOperator(op: string, found: string)
    requires op in SHELL_OPERATORS && found in SHELL_OPERATORS && op <= found && op != found
    ensures op in {"2>", "|", "&", ">"} && |found| == |op| + 1 && found[|op|] == op[|op| - 1]
  {
    ListedOperators();
    assert found[0] == op[0];
  }

  lemma ListedOperators()
    ensures forall op :: op in SHELL_OPERATORS <==> IsOperator(op)
  {
  }

  /** Between two texts, an operator that neither of them extends is a token of its own,
      with or without blanks. */
  lemma OperatorStands(a: string, op: string, b: string)
    requires After(Rest, a).Rest? && StandsBetween(a, op, b)
    ensures Tokens(a + op + b) == Tokens(a) + [op] + Tokens(b)
  {
    OperatorMatches(a, op, b);
    hide *;
    TokensOfParted(a, op + b);
    OperatorFirst(op, b);
    AssociateTexts(a, op, b);
    Associate(Tokens(a), [op], Tokens(b));
  }

  lemma AssociateTexts(a: string, b: string, c: string)
    ensures a + b + c == a + (b + c)
  {
  }

  lemma OperatorFirst(op: string, b: string)
    requires MatchShellOperator(op + b) == Some(op)
    ensures Tokens(op + b) == [op] + Tokens(b)
  {
    var s := op + b;
    OperatorFacts(s, op, "");
    hide MatchShellOperator;
    assert s[..|op|] == op && s[|op|..] == b;
  }

  lemma RStripBehind(s: string, t: string)
    requires s != "" && !IsSpace(s[|s| - 1])
    ensures RStrip(s + t) == s + RStrip(t)
  {
    if t == "" || !IsSpace(t[|t| - 1]) {
      assert s + t == s || (s + t)[|s + t| - 1] == t[|t| - 1];
      assert t == "" ==> s + t == s;
    } else {
      assert (s + t)[..|s + t| - 1] == s + t[..|t| - 1];
      RStripBehind(s, t[..|t| - 1]);
    }
  }

  lemma {:induction false} LStripBefore(s: string, t: string)
    requires t != "" && !IsSpace(t[0])
    ensures LStrip(s + t) == LStrip(s) + t
  {
    if s == "" || !IsSpace(s[0]) {
      assert s == "" ==> s + t == t;
    } else {
      assert (s + t)[1..] == s[1..] + t;
      LStripBefore(s[1..], t);
    }
  }

  lemma {:induction false} RestBehindBlanks(s: string)
    ensures After(Rest, LStrip(s)) == After(Rest, s)
  {
    if s != "" && IsSpace(s[0]) {
      RestBehindBlanks(s[1..]);
      BlankIsRest(s[0]);
      AfterSplits(Rest, [s[0]], s[1..]);
      assert s == [s[0]] + s[1..];
    }
  }

  lemma OperatorIsDark(op: string, b: string)
    requires StandsBetween("", op, b)
    ensures op != "" && !IsSpace(op[0]) && !IsSpace(op[|op| - 1])
  {
  }

  function Between(a: string, op: string, b: string): string { a + op + b }

  lemma StripAround(a: string, op: string, b: string)
    requires op != "" && !IsSpace(op[0]) && !IsSpace(op[|op| - 1])
    ensures Strip(Between(a, op, b)) == Between(LStrip(a), op, RStrip(b))
  {
    hide IsSpace, LStrip, RStrip;
    LStripBefore(a, op + b);
    AssociateTexts(a, op, b);
    AssociateTexts(LStrip(a), op, b);
    RStripBehind(LStrip(a) + op, b);
  }

  lemma StrippedEnds(a: string, b: string)
    ensures forall c :: Ends(LStrip(a), c) ==> Ends(a, c)
    ensures forall c :: Begins(RStrip(b), c) ==> Begins(b, c)
  {
    hide LStrip, RStrip;
  }

  lemma StandsCloser(a: string, op: string, b: string)
    requires StandsBetween(a, op, b)
    ensures StandsBetween(LStrip(a), op, RStrip(b))
  {
    StrippedEnds(a, b);
    hide LStrip, RStrip, IsSpace, Ends, Begins;
  }

  lemma OperatorBetween(a: string, op: string, b: string)
    requires After(Rest, a).Rest? && StandsBetween(a, op, b)
    ensures Tokens(Between(a, op, b)) == Tokens(a) + [op] + Tokens(b)
  {
    hide StandsBetween, After, Tokens;
    OperatorStands(a, op, b);
  }

  /** The key of two texts around an operator. */
  lemma OperatorKey(a: string, op: string, b: string)
    requires After(Rest, a).Rest? && StandsBetween(a, op, b)
    ensures NormalizeCommand(Between(a, op, b)) == Join(Tokens(a) + [op] + Tokens(RStrip(b)))
  {
    StandsCloser(a, op, b);
    assert StandsBetween("", op, b);
    OperatorIsDark(op, b);
    hide *;
    StripAround(a, op, b);
    RestBehindBlanks(a);
    TokensSkipBlanks(a);
    OperatorBetween(LStrip(a), op, RStrip(b));
    KeyIsJoin(Between(a, op, b));
  }

  lemma TrailingBlank(a: string)
    requires After(Rest, a).Rest?
    ensures After(Rest, a + " ").Rest? && Tokens(a + " ") == Tokens(a)
  {
    BlankIsRest(' ');
    hide After, Tokens;
    AfterSplits(Rest, a, " ");
    TokensOfParted(a, " ");
    OnlyBlanks(" ");
  }

  lemma LeadingBlank(b: string)
    ensures Tokens(RStrip(" " + b)) == Tokens(RStrip(b))
  {
    hide Tokens, RStrip;
    var t := RStrip(b);
    assert RStrip("") == "";
    if t == "" {
      assert RStrip(" " + b) == "" by { OnlyBlanksStripped(" " + b); }
    } else {
      assert b == t + b[|t|..] && (" " + t) + b[|t|..] == " " + b;
      RStripBehind(" " + t, b[|t|..]);
      OnlyBlanksStripped(b[|t|..]);
      assert (" " + t)[1..] == t && " " + t + "" == " " + t;
      TokensSkipOne(" " + t);
    }
  }

  lemma OnlyBlanksStripped(s: string)
    requires forall i :: 0 <= i < |s| ==> IsSpace(s[i])
    ensures RStrip(s) == ""
  {
    hide RStrip, IsSpace;
  }

  /** Blanks around an operator change no key. */
  lemma BlanksAroundOperator(a: string, op: string, b: string)
    requires After(Rest, a).Rest? && StandsBetween(a, op, b)
    ensures NormalizeCommand(a + " " + op + " " + b) == NormalizeCommand(a + op + b)
  {
    SpelledOut(a, op, b);
    StandsApart(a, op, b);
    hide *;
    TrailingBlank(a);
    LeadingBlank(b);
    OperatorKey(a, op, b);
    OperatorKey(a + " ", op, " " + b);
  }

  lemma SpelledOut(a: string, op: string, b: string)
    ensures a + op + b == Between(a, op, b)
    ensures a + " " + op + " " + b == Between(a + " ", op, " " + b)
  {
    assert a + " " + op + " " + b == a + " " + op + (" " + b);
  }

  lemma StandsApart(a: string, op: string, b: string)
    requires StandsBetween(a, op, b)
    ensures StandsBetween(a + " ", op, " " + b)
  {
  }

  // ------------------------------------------------------- where tokens touch

  /** A word ends at the end of the text, at a blank, or where an operator begins. */
  lemma {:induction false} WordEnds(s: string, mode: Mode)
    requires WordLen(s, mode) < |s|
    ensures WordLen(s[WordLen(s, mode)..], Plain) == 0
  {
    hide MatchShellOperator, WordLen, Stride;
    var n := WordLen(s, mode);
    if n == 0 {
      assert s[0..] == s;
      NoWordAtRest(s, mode);
    } else {
      var (k, next) := Stride(s, mode);
      assert s[k..][n - k..] == s[n..];
      WordEnds(s[k..], next);
    }
  }

  lemma MatchIsOperator(s: string)
    ensures MatchShellOperator(s).Some? ==> IsOperator(MatchShellOperator(s).value)
  {
    hide IsOperator;
    ListedOperators();
    MatchInPrefix(SHELL_OPERATORS, s, s);
  }

  lemma OperatorStep(s: string)
    requires s != "" && !IsSpace(s[0]) && WordLen(s, Plain) == 0
    ensures IsOperator(s[..StepLen(s)])
  {
    hide MatchShellOperator, IsOperator, IsSpace;
    MatchIsOperator(s);
    OperatorFacts(s, s, "");
    assert !IsQuote(s[0]) && s[0] != '\\' && MatchShellOperator(s).Some?;
    assert s[..StepLen(s)] == MatchShellOperator(s).value;
  }

  lemma FirstOrSecond(s: string, n: nat)
    requires s != "" && !IsSpace(s[0]) && n == StepLen(s) < |s| && !IsSpace(s[n])
    ensures IsOperator(Tokens(s)[0]) || (|Tokens(s)| > 1 && IsOperator(Tokens(s)[1]))
  {
    hide MatchShellOperator, WordLen, StepLen, IsSpace, Tokens, IsOperator;
    TokensBegin(s);
    TokensBegin(s[n..]);
    if WordLen(s, Plain) == 0 {
      OperatorStep(s);
    } else {
      WordStep(s);
      WordEnds(s, Plain);
      OperatorStep(s[n..]);
    }
  }

  lemma WordStep(s: string)
    requires s != "" && !IsSpace(s[0]) && WordLen(s, Plain) > 0
    ensures StepLen(s) == WordLen(s, Plain)
  {
  }

  /** A token that ends right before a character other than a blank touches the next one,
      and one of the two is an operator. */
  lemma {:induction false} TouchingTokens(v: string, at: nat, k: nat)
    requires at <= |v| && k < |Spans(v, at)|
    requires var end := Spans(v, at)[k].1; end < |v| ==> !IsSpace(v[end])
    ensures var spans, tokens := Spans(v, at), Tokens(v[at..]);
      && |tokens| == |spans|
      && (spans[k].1 < |v| ==>
        k + 1 < |spans| && spans[k + 1].0 == spans[k].1 && (IsOperator(tokens[k]) || IsOperator(tokens[k + 1])))
    decreases |v| - at
  {
    hide MatchShellOperator, WordLen, StepLen, IsSpace, Tokens, IsOperator;
    SpansAreTokens(v, at);
    var s, n := v[at..], if IsSpace(v[at]) then 1 else StepLen(v[at..]);
    assert s[n..] == v[at + n..];
    if IsSpace(v[at]) {
      TokensSkipOne(s);
      TouchingTokens(v, at + 1, k);
    } else if k > 0 {
      TokensBegin(s);
      TouchingTokens(v, at + n, k - 1);
    } else if at + n < |v| {
      FirstOrSecond(s, n);
    }
  }

  // --------------------------------------------------- blanks and quotes, spelt out

  /** A blank outside quotes separates. */
  lemma BlankSeparates(a: string, c: char, b: string)
    requires After(Rest, a).Rest? && c in {' ', '\t', '\n', '\r'}
    ensures Tokens(a + [c] + b) == Tokens(a) + Tokens(b)
  {
    hide After, Tokens, MatchShellOperator;
    TokensOfParted(a, [c] + b);
    TokensSkipOne([c] + b);
    assert a + [c] + b == a + ([c] + b) && ([c] + b)[1..] == b;
  }

  /** What stands between two quotes belongs to the word, as far as the closing one. */
  lemma {:induction false} QuotedLen(q: char, inner: string, rest: string)
    requires q !in inner && (q == '"' ==> '\\' !in inner)
    ensures WordLen(inner + [q] + rest, Quoted(q)) == |inner| + 1 + WordLen(rest, Plain)
    ensures After(InQuote(q), inner + [q] + rest) == After(Rest, rest)
  {
    hide MatchShellOperator, IsSpace;
    var s := inner + [q] + rest;
    if inner == "" {
      assert s[1..] == rest;
      assert s[0] == q;
    } else {
      assert s[1..] == inner[1..] + [q] + rest && s[0] == inner[0];
      QuotedLen(q, inner[1..], rest);
    }
  }

  lemma WholeWord(w: string)
    requires w != "" && WordLen(w, Plain) == |w|
    ensures Tokens(w) == [w]
  {
    WordBeginsDark(w, Plain);
    WordStep(w);
    TokensBegin(w);
    assert w[..|w|] == w && Tokens(w[|w|..]) == [];
  }

  lemma OpeningQuote(w: string, q: char)
    requires w != "" && w[0] == q && (q == '\'' || q == '"')
    ensures WordLen(w, Plain) == 1 + WordLen(w[1..], Quoted(q)) && After(Rest, w) == After(InQuote(q), w[1..])
  {
    hide MatchShellOperator;
  }

  /** A text between two equal quotes is one token, and leaves quoting at rest: between
      single quotes a backslash is a character like any other. */
  lemma QuotedIsOneToken(q: char, inner: string)
    requires q == '\'' || (q == '"' && '\\' !in inner)
    requires q !in inner
    ensures var w := [q] + inner + [q]; Tokens(w) == [w] && After(Rest, w).Rest?
  {
    hide MatchShellOperator, IsSpace, Tokens, After, WordLen;
    var w := [q] + inner + [q];
    QuotedLen(q, inner, "");
    EmptyRests();
    assert w[1..] == inner + [q] + "" && w[0] == q;
    OpeningQuote(w, q);
    WholeWord(w);
  }

  lemma EmptyRests()
    ensures WordLen("", Plain) == 0 && After(Rest, "") == Rest
  {
  }

  /** Between double quotes, a backslash protects the next character, even a quote. */
  lemma {:induction false} EscapeInQuotes(inner: string, c: char, more: string)
    requires '"' !in inner && '\\' !in inner && '"' !in more && '\\' !in more
    ensures var w := "\"" + inner + "\\" + [c] + more + "\""; Tokens(w) == [w] && After(Rest, w).Rest?
  {
    hide MatchShellOperator, IsSpace, Tokens, After, WordLen;
    var w, t := "\"" + inner + "\\" + [c] + more + "\"", inner + "\\" + [c] + more + "\"";
    assert w[1..] == t && w[0] == '"';
    EscapedLen(inner, c, more);
    OpeningQuote(w, '"');
    WholeWord(w);
  }

  lemma {:induction false} EscapedLen(inner: string, c: char, more: string)
    requires '"' !in inner && '\\' !in inner && '"' !in more && '\\' !in more
    ensures var t := inner + "\\" + [c] + more + "\"";
      WordLen(t, Quoted('"')) == |t| && After(InQuote('"'), t).Rest?
  {
    hide MatchShellOperator, IsSpace;
    var t := inner + "\\" + [c] + more + "\"";
    if inner == "" {
      assert t[0] == '\\' && t[1..][0] == c && t[1..][1..] == t[2..] == more + ['"'] + "";
      QuotedLen('"', more, "");
    } else {
      assert t[1..] == inner[1..] + "\\" + [c] + more + "\"" && t[0] == inner[0];
      EscapedLen(inner[1..], c, more);
    }
  }

  /** Outside quotes, a backslash protects the next character. */
  lemma EscapedIsOneToken(c: char)
    ensures Tokens(['\\', c]) == [['\\', c]] && After(Rest, ['\\', c]).Rest?
  {
    hide MatchShellOperator, IsSpace, Tokens;
    TwoShifts(Rest, '\\', c);
    assert ['\\', c][2..] == "";
    WholeWord(['\\', c]);
  }

  /** Only quotes and backslashes disturb quoting. */
  lemma RestIsLeftIff(c: char)
    ensures After(Rest, [c]).Rest? <==> c != '\'' && c != '"' && c != '\\'
  {
    OneShift(Rest, c);
  }
}
