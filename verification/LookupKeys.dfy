/** The SQL and HTTP lookup keys, and the choice between the three normalisers. */
module LookupKeys {
  import opened Text
  import opened InputNormalizer

  // ------------------------------------------------------------------------ SQL

  predicate IsSqlQuote(c: char) { c == '\'' || c == '"' || c == '`' }

  /** The collapser between two characters: the quote it is in, whether blanks wait to be
      written, and whether anything was written yet. */
  datatype Squeezer = Squeezer(quote: Option<char>, pending: bool, started: bool)

  function Emit(z: Squeezer, c: char): string {
    if z.quote.Some? then [c]
    else if !IsSqlQuote(c) && IsSpace(c) then ""
    else if z.pending && z.started then " " + [c]
    else [c]
  }

  function Next(z: Squeezer, c: char): Squeezer {
    if z.quote.Some? then z.(quote := if c == z.quote.value then None else z.quote, started := true)
    else if IsSqlQuote(c) then Squeezer(Some(c), z.pending && !z.started, true)
    else if IsSpace(c) then z.(pending := true)
    else Squeezer(None, false, true)
  }

  function Squeeze(z: Squeezer, s: string): string
    decreases |s|
  {
    if s == "" then "" else Emit(z, s[0]) + Squeeze(Next(z, s[0]), s[1..])
  }

  const FRESH := Squeezer(None, false, false)

  method CollapseUnquotedWhitespace(value: string) returns (output: string)
    ensures output == Squeeze(FRESH, value)
    ensures value == "" || !IsSpace(value[0]) ==> output == Join(Words(value))
  {
    hide Squeeze, IsSpace, IsSqlQuote, Words;
    output := "";
    assert output + Squeeze(FRESH, value) == Squeeze(FRESH, value);
    var quote: Option<char> := None;
    var pending := false;
    ghost var z, rest := FRESH, value;
    for index := 0 to |value|
      invariant rest == value[index..]
      invariant z == Squeezer(quote, pending, output != "")
      invariant Squeeze(FRESH, value) == output + Squeeze(z, rest)
    {
      var c := value[index];
      SqueezeStep(z, rest);
      ghost var tail := Squeeze(Next(z, c), rest[1..]);
      Associate(output, Emit(z, c), tail);
      Associate(output, " ", [c]);
      z, rest := Next(z, c), rest[1..];
      if quote.Some? {
        output := output + [c];
        if c == quote.value { quote := None; }
        continue;
      }
      if IsSqlQuote(c) {
        if pending && output != "" {
          output := output + " ";
          pending := false;
        }
        output := output + [c];
        quote := Some(c);
        continue;
      }
      if IsSpace(c) {
        pending := true;
        continue;
      }
      if pending && output != "" { output := output + " "; }
      pending := false;
      output := output + [c];
    }
    assert rest == "" && Squeeze(z, "") == "" by { NothingSqueezed(z); }
    if value == "" || !IsSpace(value[0]) { SqueezeJoinsWords(value); }
  }

  lemma SqueezeStep(z: Squeezer, s: string)
    requires s != ""
    ensures Squeeze(z, s) == Emit(z, s[0]) + Squeeze(Next(z, s[0]), s[1..])
  {
  }

  lemma NothingSqueezed(z: Squeezer)
    ensures Squeeze(z, "") == ""
  {
  }

  lemma Associate(a: string, b: string, c: string)
    ensures a + (b + c) == (a + b) + c
  {
  }

  function NormalizeSql(raw: string): string {
    Squeeze(FRESH, Strip(raw))
  }

  /** `s` without its unquoted blanks. */
  function SqlVisible(s: string, quote: Option<char>): string
    decreases |s|
  {
    if s == "" then ""
    else
      (if quote.None? && !IsSqlQuote(s[0]) && IsSpace(s[0]) then "" else [s[0]])
      + SqlVisible(s[1..], Next(Squeezer(quote, false, true), s[0]).quote)
  }

  /** One character in front, inside a quote or not blank. */
  lemma SqueezeHead(z: Squeezer, c: char, t: string)
    requires z.quote.Some? || !IsSpace(c)
    ensures Squeeze(z, [c] + t) == Emit(z, c) + Squeeze(Next(z, c), t)
    ensures SqlVisible([c] + t, z.quote) == [c] + SqlVisible(t, Next(z, c).quote)
  {
    assert ([c] + t)[1..] == t;
  }

  lemma SqueezeGap(c: char, t: string)
    ensures Squeeze(Squeezer(None, false, true), " " + [c] + t) == Squeeze(Squeezer(None, true, true), [c] + t)
    ensures SqlVisible(" " + [c] + t, None) == SqlVisible([c] + t, None)
  {
    assert (" " + [c] + t)[1..] == [c] + t;
  }

  /** Squeezing is idempotent and changes nothing but unquoted blanks. */
  lemma {:induction false} SqueezeAgain(z: Squeezer, s: string)
    requires z.started && (z.quote.Some? ==> !z.pending)
    ensures var r := Squeeze(z, s);
      Squeeze(z.(pending := false), r) == r && SqlVisible(r, z.quote) == SqlVisible(s, z.quote)
    decreases |s|
  {
    if s != "" {
      hide SqlVisible, IsSpace;
      var c, y := s[0], Next(z, s[0]);
      SqueezeAgain(y, s[1..]);
      assert s == [c] + s[1..];
      if z.quote.Some? || !IsSpace(c) {
        hide Squeeze;
        var t := Squeeze(y, s[1..]);
        assert y.quote.Some? || !y.pending;
        SqueezeHead(z, c, s[1..]);
        SqueezeHead(z, c, t);
        SqueezeHead(z.(pending := false), c, t);
        if z.pending { SqueezeGap(c, t); }
      } else {
        BlankVanishes(z, c, s[1..]);
      }
    }
  }

  lemma BlankVanishes(z: Squeezer, c: char, t: string)
    requires z.quote.None? && IsSpace(c)
    ensures Squeeze(z, [c] + t) == Squeeze(z.(pending := true), t)
    ensures SqlVisible([c] + t, None) == SqlVisible(t, None)
  {
    assert ([c] + t)[1..] == t;
  }

  lemma {:induction false} SqueezeLast(z: Squeezer, s: string)
    requires s != "" && !IsSpace(s[|s| - 1])
    ensures var r := Squeeze(z, s); r != "" && r[|r| - 1] == s[|s| - 1]
    decreases |s|
  {
    if |s| > 1 {
      assert s[1..][|s| - 2] == s[|s| - 1];
      SqueezeLast(Next(z, s[0]), s[1..]);
    }
  }

  /** A stored SQL key normalises to itself, and keeps every character but unquoted blanks. */
  lemma NormalizeSqlIdempotent(raw: string)
    ensures NormalizeSql(NormalizeSql(raw)) == NormalizeSql(raw)
    ensures SqlVisible(NormalizeSql(raw), None) == SqlVisible(Strip(raw), None)
  {
    var s := Strip(raw);
    if s != "" {
      hide SqlVisible, Strip;
      var c, y := s[0], Next(FRESH, s[0]);
      var t := Squeeze(y, s[1..]);
      SqueezeAgain(y, s[1..]);
      SqueezeHead(FRESH, c, t);
      SqueezeHead(FRESH, c, s[1..]);
      assert s == [c] + s[1..];
      SqueezeLast(FRESH, s);
      StripTight([c] + t);
    }
  }

  // ------------------------------------------------------- the key, apart from the loop

  function QuoteAfter(quote: Option<char>, c: char): Option<char> {
    if quote.Some? then (if c == quote.value then None else quote) else if IsSqlQuote(c) then Some(c) else None
  }

  /** How far `s` reads, from inside `quote` if any, up to its first unquoted blank. */
  function InkLen(s: string, quote: Option<char>): (n: nat)
    ensures n <= |s| && (n < |s| ==> IsSpace(s[n]))
    decreases |s|
  {
    if s == "" || (quote.None? && IsSpace(s[0])) then 0 else 1 + InkLen(s[1..], QuoteAfter(quote, s[0]))
  }

  /** The stretches of `s` between its unquoted blanks. */
  function Words(s: string): seq<string>
    decreases |s|
  {
    if s == "" then []
    else if IsSpace(s[0]) then Words(s[1..])
    else var n := InkLen(s, None); [s[..n]] + Words(s[n..])
  }

  /** A stretch is written as it stands. */
  lemma {:induction false} SqueezeInk(quote: Option<char>, s: string)
    ensures var n := InkLen(s, quote);
      Squeeze(Squeezer(quote, false, true), s) == s[..n] + Squeeze(Squeezer(None, false, true), s[n..])
    decreases |s|
  {
    hide IsSpace, IsSqlQuote;
    var z, n := Squeezer(quote, false, true), InkLen(s, quote);
    if n == 0 {
      assert s[..0] + Squeeze(Squeezer(None, false, true), s) == Squeeze(Squeezer(None, false, true), s);
    } else {
      SqueezeInk(QuoteAfter(quote, s[0]), s[1..]);
      QuoteIsNoBlank(s[0]);
      assert Next(z, s[0]) == Squeezer(QuoteAfter(quote, s[0]), false, true) && Emit(z, s[0]) == [s[0]];
      assert s[..n] == [s[0]] + s[1..][..n - 1] && s[n..] == s[1..][n - 1..];
      Associate([s[0]], s[1..][..n - 1], Squeeze(Squeezer(None, false, true), s[n..]));
    }
  }

  lemma QuoteIsNoBlank(c: char)
    ensures IsSqlQuote(c) ==> !IsSpace(c)
  {
  }

  /** Behind a stretch, what follows is written as its stretches, each behind one space. */
  lemma {:induction false} SqueezeRest(pending: bool, s: string)
    requires pending || s == "" || IsSpace(s[0])
    ensures Squeeze(Squeezer(None, pending, true), s) == if Words(s) == [] then "" else " " + Join(Words(s))
    decreases |s|
  {
    var z := Squeezer(None, pending, true);
    if s != "" {
      QuoteIsNoBlank(s[0]);
      if IsSpace(s[0]) {
        SqueezeRest(true, s[1..]);
        BlankVanishes(z, s[0], s[1..]);
        assert s == [s[0]] + s[1..];
      } else {
        SqueezeWord(z, s);
      }
    }
  }

  lemma {:induction false} SqueezeWord(z: Squeezer, s: string)
    requires s != "" && !IsSpace(s[0]) && z.quote.None? && (z.started <==> z.pending)
    ensures Squeeze(z, s) == (if z.started then " " else "") + Join(Words(s))
    decreases |s|, 0
  {
    WordsStep(s);
    WordEmitted(z, s);
    hide Squeeze, Words, InkLen, IsSpace, IsSqlQuote, QuoteAfter, Join;
    var n, gap := InkLen(s, None), if z.started then " " else "";
    var rest := Words(s[n..]);
    var tail := if rest == [] then "" else " " + Join(rest);
    FirstSplit(s, n);
    SqueezeInk(QuoteAfter(None, s[0]), s[1..]);
    SqueezeRest(false, s[n..]);
    JoinCons(s[..n], rest);
    var inner := Squeeze(Squeezer(QuoteAfter(None, s[0]), false, true), s[1..]);
    Regroup(Squeeze(z, s), gap, [s[0]], s[1..][..n - 1], tail, inner, Join(Words(s)));
  }

  lemma FirstSplit(s: string, n: nat)
    requires 0 < n <= |s|
    ensures s[n..] == s[1..][n - 1..] && s[..n] == [s[0]] + s[1..][..n - 1]
  {
  }

  lemma Regroup(whole: string, a: string, b: string, c: string, d: string, inner: string, outer: string)
    requires whole == a + b + inner && inner == c + d && outer == (b + c) + d
    ensures whole == a + outer
  {
  }

  lemma WordEmitted(z: Squeezer, s: string)
    requires s != "" && !IsSpace(s[0]) && z.quote.None? && (z.started <==> z.pending)
    ensures Squeeze(z, s) ==
      (if z.started then " " else "") + [s[0]] + Squeeze(Squeezer(QuoteAfter(None, s[0]), false, true), s[1..])
  {
    QuoteIsNoBlank(s[0]);
  }

  lemma WordsStep(s: string)
    requires s != "" && !IsSpace(s[0])
    ensures InkLen(s, None) > 0 && InkLen(s[1..], QuoteAfter(None, s[0])) == InkLen(s, None) - 1
    ensures Words(s) == [s[..InkLen(s, None)]] + Words(s[InkLen(s, None)..])
  {
  }

  /** A text that does not begin with a blank becomes its stretches, one space apart. */
  lemma SqueezeJoinsWords(s: string)
    requires s == "" || !IsSpace(s[0])
    ensures Squeeze(FRESH, s) == Join(Words(s))
  {
    if s != "" {
      hide Words, Squeeze;
      SqueezeWord(FRESH, s);
      assert "" + Join(Words(s)) == Join(Words(s));
    }
  }

  /** The SQL key is the stretches of the stripped text, one space apart. */
  lemma NormalizeSqlJoinsWords(raw: string)
    ensures NormalizeSql(raw) == Join(Words(Strip(raw)))
  {
    SqueezeJoinsWords(Strip(raw));
  }

  // ------------------------------------------------------ the SQL key, spelt out

  /** The quote that is open behind `s`. */
  function OpenQuote(s: string, quote: Option<char>): Option<char>
    decreases |s|
  {
    if s == "" then quote else OpenQuote(s[1..], QuoteAfter(quote, s[0]))
  }

  lemma QuoteOpensIff(c: char)
    ensures OpenQuote([c], None) == if c == '\'' || c == '"' || c == '`' then Some(c) else None
  {
    assert [c][1..] == "";
  }

  lemma {:induction false} InkOfQuoted(q: char, inner: string, rest: string)
    requires q !in inner
    ensures InkLen(inner + [q] + rest, Some(q)) == |inner| + 1 + InkLen(rest, None)
    ensures OpenQuote(inner + [q] + rest, Some(q)) == OpenQuote(rest, None)
  {
    var s := inner + [q] + rest;
    if inner == "" {
      assert s[0] == q && s[1..] == rest;
    } else {
      assert s[0] == inner[0] && s[1..] == inner[1..] + [q] + rest;
      InkOfQuoted(q, inner[1..], rest);
    }
  }

  /** A text between two equal quotes is its own key, with all its blanks. */
  lemma QuotedSqlIsItsKey(q: char, inner: string)
    requires (q == '\'' || q == '"' || q == '`') && q !in inner
    ensures NormalizeSql([q] + inner + [q]) == [q] + inner + [q]
  {
    hide Squeeze, Strip;
    var w := [q] + inner + [q];
    StripTight(w);
    assert w[0] == q && w[1..] == inner + [q] + "" && !IsSpace(q);
    InkOfQuoted(q, inner, "");
    NormalizeSqlJoinsWords(w);
    WordsStep(w);
    assert w[..|w|] == w && Words(w[|w|..]) == [];
  }

  lemma {:induction false} InkBeforeBlank(s: string, quote: Option<char>, c: char, t: string)
    requires IsSpace(c) && OpenQuote(s, quote).None?
    ensures InkLen(s + [c] + t, quote) == InkLen(s, quote)
    decreases |s|
  {
    hide IsSpace, IsSqlQuote, QuoteAfter;
    var all := s + [c] + t;
    if s == "" {
      assert all[0] == c;
    } else {
      assert all[1..] == s[1..] + [c] + t && all[0] == s[0];
      if quote.Some? || !IsSpace(s[0]) { InkBeforeBlank(s[1..], QuoteAfter(quote, s[0]), c, t); }
    }
  }

  lemma {:induction false} QuoteBehindInk(s: string, quote: Option<char>)
    requires OpenQuote(s, quote).None? && InkLen(s, quote) < |s|
    ensures OpenQuote(s[InkLen(s, quote)..], None).None?
    decreases |s|
  {
    hide IsSpace, IsSqlQuote, QuoteAfter;
    if quote.None? && IsSpace(s[0]) {
      assert s[0..] == s;
    } else {
      QuoteBehindInk(s[1..], QuoteAfter(quote, s[0]));
      assert s[1..][InkLen(s, quote) - 1..] == s[InkLen(s, quote)..];
    }
  }

  lemma FirstWordStands(a: string, c: char, b: string)
    requires a != "" && !IsSpace(a[0]) && IsSpace(c) && OpenQuote(a, None).None?
    ensures var n := InkLen(a, None);
      && 0 < n && OpenQuote(a[n..], None).None? && Words(a) == [a[..n]] + Words(a[n..])
      && Words(a + [c] + b) == [a[..n]] + Words(a[n..] + [c] + b)
  {
    var s, n := a + [c] + b, InkLen(a, None);
    WordsStep(a);
    assert s[0] == a[0];
    WordsStep(s);
    hide Words, InkLen, IsSpace, IsSqlQuote, OpenQuote;
    InkBeforeBlank(a, None, c, b);
    assert s[..n] == a[..n] && s[n..] == a[n..] + [c] + b;
    if n < |a| { QuoteBehindInk(a, None); } else { NoOpenQuote(a[n..]); }
  }

  lemma NoOpenQuote(s: string)
    ensures s == "" ==> OpenQuote(s, None).None?
  {
  }

  lemma SkipsBlank(a: string)
    requires a != "" && IsSpace(a[0])
    ensures Words(a) == Words(a[1..]) && OpenQuote(a, None) == OpenQuote(a[1..], None)
  {
    QuoteIsNoBlank(a[0]);
  }

  /** A blank outside quotes separates the words of an SQL text. */
  lemma {:induction false} SqlBlankSeparates(a: string, c: char, b: string)
    requires OpenQuote(a, None).None? && c in {' ', '\t', '\n', '\r'}
    ensures Words(a + [c] + b) == Words(a) + Words(b)
    decreases |a|
  {
    assert IsSpace(c);
    hide Words, InkLen, OpenQuote, IsSpace;
    var s := a + [c] + b;
    if a == "" {
      assert s[0] == c && s[1..] == b;
      SkipsBlank(s);
      assert Words("") == [] by { NoWords(); }
    } else if IsSpace(a[0]) {
      assert s[0] == a[0] && s[1..] == a[1..] + [c] + b;
      SkipsBlank(a);
      SkipsBlank(s);
      SqlBlankSeparates(a[1..], c, b);
    } else {
      FirstWordStands(a, c, b);
      SqlBlankSeparates(a[InkLen(a, None)..], c, b);
    }
  }

  lemma NoWords()
    ensures Words("") == []
  {
  }

  /** A text without blanks is one word. */
  lemma OneSqlWord(s: string)
    requires s != "" && forall i :: 0 <= i < |s| ==> !IsSpace(s[i])
    ensures Words(s) == [s]
  {
    hide IsSpace;
    WordsStep(s);
    assert InkLen(s, None) == |s| && s[..|s|] == s && Words(s[|s|..]) == [];
  }

  // ----------------------------------------------------------------------- HTTP

  const HTTP_METHODS: set<string> :=
    {"CONNECT", "DELETE", "GET", "HEAD", "OPTIONS", "PATCH", "POST", "PUT", "TRACE"}

  predicate IsLetter(c: char) { 'A' <= c <= 'Z' || 'a' <= c <= 'z' }

  predicate IsInk(c: char) { !IsSpace(c) }

  /** Length of the longest prefix whose characters all satisfy `p`. */
  function Run(s: string, p: char -> bool): (n: nat)
    ensures n <= |s|
    ensures forall i :: 0 <= i < n ==> p(s[i])
    ensures n < |s| ==> !p(s[n])
  {
    if s == "" || !p(s[0]) then 0 else 1 + Run(s[1..], p)
  }

  lemma RunIs(s: string, p: char -> bool, n: nat)
    requires n <= |s|
    requires forall i :: 0 <= i < n ==> p(s[i])
    requires n < |s| ==> !p(s[n])
    ensures Run(s, p) == n
  {
  }

  function Upper(s: string): (u: string)
    ensures |u| == |s|
  {
    seq(|s|, i requires 0 <= i < |s| => if 'a' <= s[i] <= 'z' then (s[i] as int - 32) as char else s[i])
  }

  /** Method, path and rest of a request line, when the pattern of the source matches. */
  function SplitRequest(s: string): Option<(string, string, string)> {
    var n := Run(s, IsLetter);
    var m := Run(s[n..], IsSpace);
    var k := Run(s[n + m..], IsInk);
    if n == 0 || m == 0 || k == 0 then None
    else Some((s[..n], s[n + m..][..k], s[n + m..][k..]))
  }

  function NormalizeHttp(raw: string): string {
    var s := Strip(raw);
    match SplitRequest(s)
    case None => s
    case Some((verb, path, rest)) =>
      if Upper(verb) !in HTTP_METHODS then s
      else verb + " " + path + if Strip(rest) != "" then " " + Strip(rest) else ""
  }

  /** A rebuilt request line is split at the same places. */
  lemma SplitRebuilt(verb: string, path: string, tail: string)
    requires verb != "" && forall i :: 0 <= i < |verb| ==> IsLetter(verb[i])
    requires path != "" && forall i :: 0 <= i < |path| ==> IsInk(path[i])
    requires tail == "" || IsSpace(tail[0])
    ensures SplitRequest(verb + " " + path + tail) == Some((verb, path, tail))
  {
    hide Run, IsSpace;
    BlankFacts(verb[0]);
    var s := verb + " " + path + tail;
    RebuiltSlices(verb, path, tail);
    RunIs(s, IsLetter, |verb|);
    RunIs(" " + path + tail, IsSpace, 1);
    RunIs(path + tail, IsInk, |path|);
  }

  lemma RebuiltSlices(verb: string, path: string, tail: string)
    ensures var s, n := verb + " " + path + tail, |verb|;
      && s[n..] == " " + path + tail && s[n + 1..] == path + tail && s[..n] == verb
      && (path + tail)[..|path|] == path && (path + tail)[|path|..] == tail
  {
  }

  lemma BlankFacts(c: char)
    ensures IsSpace(' ') && !IsLetter(' ')
    ensures IsLetter(c) ==> !IsSpace(c)
  {
  }

  lemma SplitParts(s: string)
    requires SplitRequest(s).Some?
    ensures var (verb, path, rest) := SplitRequest(s).value;
      && verb != "" && (forall i :: 0 <= i < |verb| ==> IsLetter(verb[i]))
      && path != "" && (forall i :: 0 <= i < |path| ==> IsInk(path[i]))
  {
  }

  lemma RebuiltIsTight(verb: string, path: string, core: string)
    requires verb != "" && !IsSpace(verb[0])
    requires path != "" && !IsSpace(path[|path| - 1])
    requires core == "" || !IsSpace(core[|core| - 1])
    ensures var r := verb + " " + path + if core != "" then " " + core else ""; Strip(r) == r
  {
    StripTight(verb + " " + path + if core != "" then " " + core else "");
  }

  lemma StripBlank(core: string)
    ensures Strip(if core != "" then " " + core else "") == Strip(core)
  {
    hide RStrip, IsSpace;
    BlankFacts(' ');
    if core != "" { assert (" " + core)[1..] == core; }
  }

  lemma NormalizeHttpIdempotent(raw: string)
    ensures NormalizeHttp(NormalizeHttp(raw)) == NormalizeHttp(raw)
  {
    hide Run, Upper, SplitRequest, IsSpace, Strip;
    BlankFacts(' ');
    var s := Strip(raw);
    StripTight(s);
    if SplitRequest(s).Some? && Upper(SplitRequest(s).value.0) in HTTP_METHODS {
      var (verb, path, rest) := SplitRequest(s).value;
      var core := Strip(rest);
      var tail := if core != "" then " " + core else "";
      SplitParts(s);
      BlankFacts(verb[0]);
      RebuiltIsTight(verb, path, core);
      SplitRebuilt(verb, path, tail);
      StripTight(core);
      StripBlank(core);
    }
  }

  // ---------------------------------------------------- the HTTP key, spelt out

  /** `verb` is one of the nine methods, each letter in either case. */
  predicate IsMethod(verb: string) {
    exists m :: m in {"CONNECT", "DELETE", "GET", "HEAD", "OPTIONS", "PATCH", "POST", "PUT", "TRACE"}
      && Spells(verb, m)
  }

  predicate Spells(verb: string, m: string) {
    |verb| == |m| && forall i :: 0 <= i < |m| ==> verb[i] == m[i] || verb[i] as int == m[i] as int + 32
  }

  predicate AllBlank(s: string) { forall i :: 0 <= i < |s| ==> IsSpace(s[i]) }

  predicate NoBlank(s: string) { forall i :: 0 <= i < |s| ==> !IsSpace(s[i]) }

  /** A method, blanks, a path, and what stands behind it. */
  predicate IsRequestLine(s: string, verb: string, gap: string, path: string, rest: string) {
    && s == verb + gap + path + rest
    && IsMethod(verb)
    && gap != "" && AllBlank(gap)
    && path != "" && NoBlank(path)
    && (rest == "" || IsSpace(rest[0]))
  }

  function Rebuilt(verb: string, path: string, rest: string): string {
    verb + " " + path + if Strip(rest) != "" then " " + Strip(rest) else ""
  }

  lemma MethodIsUpper(m: string)
    requires m in {"CONNECT", "DELETE", "GET", "HEAD", "OPTIONS", "PATCH", "POST", "PUT", "TRACE"}
    ensures m in HTTP_METHODS && m != "" && forall i :: 0 <= i < |m| ==> 'A' <= m[i] <= 'Z'
  {
  }

  lemma SpelledUpper(verb: string, m: string)
    requires Spells(verb, m) && forall i :: 0 <= i < |m| ==> 'A' <= m[i] <= 'Z'
    ensures Upper(verb) == m && forall i :: 0 <= i < |verb| ==> IsLetter(verb[i])
  {
  }

  lemma MethodFacts(verb: string)
    requires IsMethod(verb)
    ensures verb != "" && (forall i :: 0 <= i < |verb| ==> IsLetter(verb[i])) && Upper(verb) in HTTP_METHODS
  {
    var m :| m in {"CONNECT", "DELETE", "GET", "HEAD", "OPTIONS", "PATCH", "POST", "PUT", "TRACE"} && Spells(verb, m);
    MethodIsUpper(m);
    hide Upper, IsLetter;
    SpelledUpper(verb, m);
  }

  lemma UpperIsMethod(verb: string)
    requires Upper(verb) in HTTP_METHODS && forall i :: 0 <= i < |verb| ==> IsLetter(verb[i])
    ensures IsMethod(verb)
  {
    var m := Upper(verb);
    assert Spells(verb, m);
  }

  lemma FrontAndBack(x: string, y: string)
    ensures (x + y)[..|x|] == x && (x + y)[|x|..] == y && (x != "" ==> (x + y)[0] == x[0])
  {
  }

  lemma BackOfBack(s: string, n: nat, m: nat)
    requires n + m <= |s|
    ensures s[n..][m..] == s[n + m..]
  {
  }

  lemma RegroupLine(verb: string, gap: string, path: string, rest: string)
    ensures verb + gap + path + rest == verb + (gap + (path + rest))
  {
    Associate(verb + gap, path, rest);
    Associate(verb, gap, path + rest);
  }

  lemma GapHoldsNoLetter(gap: string)
    requires AllBlank(gap)
    ensures forall i :: 0 <= i < |gap| ==> !IsLetter(gap[i])
  {
    hide IsSpace, IsLetter;
    forall i | 0 <= i < |gap|
      ensures !IsLetter(gap[i])
    {
      BlankFacts(gap[i]);
    }
  }

  lemma RunOfFront(x: string, y: string, p: char -> bool)
    requires forall i :: 0 <= i < |x| ==> p(x[i])
    requires y == "" || !p(y[0])
    ensures Run(x + y, p) == |x|
  {
    RunIs(x + y, p, |x|);
  }

  lemma SplitLine(s: string, verb: string, gap: string, path: string, rest: string)
    requires IsRequestLine(s, verb, gap, path, rest)
    ensures SplitRequest(s) == Some((verb, path, rest))
  {
    MethodFacts(verb);
    GapHoldsNoLetter(gap);
    RegroupLine(verb, gap, path, rest);
    hide IsRequestLine, Run, IsSpace, IsMethod, Upper, IsLetter;
    SplitJoined(s, verb, gap, path, rest, gap + (path + rest), path + rest);
  }

  lemma SplitJoined(s: string, verb: string, gap: string, path: string, rest: string, u: string, v: string)
    requires s == verb + u && u == gap + v && v == path + rest
    requires verb != "" && forall i :: 0 <= i < |verb| ==> IsLetter(verb[i])
    requires gap != "" && AllBlank(gap) && forall i :: 0 <= i < |gap| ==> !IsLetter(gap[i])
    requires path != "" && NoBlank(path) && (rest == "" || IsSpace(rest[0]))
    ensures SplitRequest(s) == Some((verb, path, rest))
  {
    hide Run, IsSpace, IsLetter;
    FrontAndBack(verb, u);
    FrontAndBack(gap, v);
    FrontAndBack(path, rest);
    BackOfBack(s, |verb|, |gap|);
    RunOfFront(verb, u, IsLetter);
    RunOfFront(gap, v, IsSpace);
    RunOfFront(path, rest, IsInk);
  }

  /** The key of a request line: its verb as typed, one space, its path, one space and the
      stripped rest if there is one. */
  lemma HttpKeyOfLine(raw: string, verb: string, gap: string, path: string, rest: string)
    requires IsRequestLine(Strip(raw), verb, gap, path, rest)
    ensures NormalizeHttp(raw) == Rebuilt(verb, path, rest)
  {
    SplitLine(Strip(raw), verb, gap, path, rest);
    MethodFacts(verb);
    hide SplitRequest, Upper, IsMethod;
  }

  /** Any other text is its own key, but for blanks at its ends. */
  lemma HttpKeyOfOther(raw: string)
    requires forall verb, gap, path, rest :: !IsRequestLine(Strip(raw), verb, gap, path, rest)
    ensures NormalizeHttp(raw) == Strip(raw)
  {
    hide IsRequestLine, Upper, IsSpace, Strip;
    var s := Strip(raw);
    if SplitRequest(s).Some? && Upper(SplitRequest(s).value.0) in HTTP_METHODS {
      var (verb, path, rest) := SplitRequest(s).value;
      var gap := LineOfSplit(s);
    }
  }

  lemma SplitRuns(s: string) returns (n: nat, m: nat, k: nat)
    requires SplitRequest(s).Some?
    ensures n > 0 && m > 0 && k > 0 && n + m + k <= |s|
    ensures SplitRequest(s) == Some((s[..n], s[n + m..][..k], s[n + m..][k..]))
    ensures (forall i :: 0 <= i < n ==> IsLetter(s[..n][i])) && AllBlank(s[n..][..m]) && NoBlank(s[n + m..][..k])
    ensures s[n + m..][k..] == "" || IsSpace(s[n + m..][k..][0])
  {
    hide IsSpace, IsLetter;
    n := Run(s, IsLetter);
    m := Run(s[n..], IsSpace);
    k := Run(s[n + m..], IsInk);
    hide Run;
  }

  lemma CutTwice(s: string, n: nat, m: nat, k: nat)
    requires n + m + k <= |s|
    ensures s == s[..n] + s[n..][..m] + s[n + m..][..k] + s[n + m..][k..]
  {
    assert s[n..][m..] == s[n + m..];
    CutOnce(s, n);
    CutOnce(s[n..], m);
    CutOnce(s[n + m..], k);
    Associate(s[..n], s[n..][..m], s[n + m..]);
    Associate(s[..n] + s[n..][..m], s[n + m..][..k], s[n + m..][k..]);
  }

  lemma CutOnce(s: string, n: nat)
    requires n <= |s|
    ensures s == s[..n] + s[n..]
  {
  }

  lemma LineOfSplit(s: string) returns (gap: string)
    requires SplitRequest(s).Some? && Upper(SplitRequest(s).value.0) in HTTP_METHODS
    ensures var (verb, path, rest) := SplitRequest(s).value; IsRequestLine(s, verb, gap, path, rest)
  {
    hide Upper, IsMethod, IsSpace, SplitRequest, AllBlank, NoBlank, IsLetter;
    var n, m, k := SplitRuns(s);
    gap := s[n..][..m];
    UpperIsMethod(s[..n]);
    CutTwice(s, n, m, k);
  }

  lemma RebuiltLine(s: string, verb: string, gap: string, path: string, rest: string)
    requires IsRequestLine(s, verb, gap, path, rest)
    ensures var r := if Strip(rest) != "" then " " + Strip(rest) else "";
      IsRequestLine(Rebuilt(verb, path, rest), verb, " ", path, r) && Strip(r) == Strip(rest)
  {
    hide IsMethod, Strip, IsSpace;
    var core := Strip(rest);
    StripTight(core);
    StripBlank(core);
    BlankFacts(' ');
    assert Rebuilt(verb, path, rest) == verb + " " + path + if core != "" then " " + core else "";
  }

  ghost predicate IsLine(s: string) {
    exists verb, gap, path, rest :: IsRequestLine(s, verb, gap, path, rest)
  }

  /** Two request lines with one verb, one path and one stripped rest. */
  ghost predicate SameLine(s: string, t: string) {
    exists verb, path, gap, rest, gap', rest' ::
      && IsRequestLine(s, verb, gap, path, rest) && IsRequestLine(t, verb, gap', path, rest')
      && Strip(rest) == Strip(rest')
  }

  lemma KeyIsLine(raw: string)
    ensures IsLine(NormalizeHttp(raw)) <==> IsLine(Strip(raw))
  {
    hide NormalizeHttp, IsRequestLine, Strip;
    if IsLine(Strip(raw)) {
      var verb, gap, path, rest :| IsRequestLine(Strip(raw), verb, gap, path, rest);
      HttpKeyOfLine(raw, verb, gap, path, rest);
      RebuiltLine(Strip(raw), verb, gap, path, rest);
    } else {
      HttpKeyOfOther(raw);
    }
  }

  lemma SameRebuilt(a: string, verb: string, gap: string, path: string, rest: string,
                    b: string, verb': string, gap': string, path': string, rest': string)
    requires IsRequestLine(a, verb, gap, path, rest) && IsRequestLine(b, verb', gap', path', rest')
    requires Rebuilt(verb, path, rest) == Rebuilt(verb', path', rest')
    ensures verb == verb' && path == path' && Strip(rest) == Strip(rest')
  {
    hide IsRequestLine, Rebuilt, Strip;
    RebuiltLine(a, verb, gap, path, rest);
    RebuiltLine(b, verb', gap', path', rest');
    SplitLine(Rebuilt(verb, path, rest), verb, " ", path, if Strip(rest) != "" then " " + Strip(rest) else "");
    SplitLine(Rebuilt(verb, path, rest), verb', " ", path', if Strip(rest') != "" then " " + Strip(rest') else "");
  }

  /** Two texts share a key exactly when they are equal but for blanks at their ends, or are
      request lines with the same verb, path and stripped rest. */
  lemma SameHttpKeyIff(a: string, b: string)
    ensures NormalizeHttp(a) == NormalizeHttp(b) <==> Strip(a) == Strip(b) || SameLine(Strip(a), Strip(b))
  {
    hide NormalizeHttp, IsRequestLine, Strip, Rebuilt;
    KeyIsLine(a);
    KeyIsLine(b);
    if IsLine(Strip(a)) && IsLine(Strip(b)) {
      var verb, gap, path, rest :| IsRequestLine(Strip(a), verb, gap, path, rest);
      var verb', gap', path', rest' :| IsRequestLine(Strip(b), verb', gap', path', rest');
      HttpKeyOfLine(a, verb, gap, path, rest);
      HttpKeyOfLine(b, verb', gap', path', rest');
      if NormalizeHttp(a) == NormalizeHttp(b) {
        SameRebuilt(Strip(a), verb, gap, path, rest, Strip(b), verb', gap', path', rest');
      }
      if SameLine(Strip(a), Strip(b)) { SameLineKeys(a, b); }
    } else {
      if !IsLine(Strip(a)) { HttpKeyOfOther(a); }
      if !IsLine(Strip(b)) { HttpKeyOfOther(b); }
    }
    if Strip(a) == Strip(b) { OnlyStripped(a, b); }
  }

  lemma SameLineKeys(a: string, b: string)
    requires SameLine(Strip(a), Strip(b))
    ensures NormalizeHttp(a) == NormalizeHttp(b)
  {
    hide NormalizeHttp, IsRequestLine, Strip;
    var verb, path, gap, rest, gap', rest' :|
      IsRequestLine(Strip(a), verb, gap, path, rest) && IsRequestLine(Strip(b), verb, gap', path, rest')
      && Strip(rest) == Strip(rest');
    HttpKeyOfLine(a, verb, gap, path, rest);
    HttpKeyOfLine(b, verb, gap', path, rest');
  }

  lemma OnlyStripped(a: string, b: string)
    requires Strip(a) == Strip(b)
    ensures NormalizeHttp(a) == NormalizeHttp(b)
  {
    hide Strip, SplitRequest, Upper;
  }

  lemma LineHoldsBlank(s: string, verb: string, gap: string, path: string, rest: string)
    requires IsRequestLine(s, verb, gap, path, rest)
    ensures !NoBlank(s)
  {
    hide IsMethod, IsSpace;
    assert s[|verb|] == gap[0];
  }

  /** A text without blanks, such as a path, is its own key. */
  lemma PathIsItsKey(raw: string)
    requires NoBlank(Strip(raw))
    ensures NormalizeHttp(raw) == Strip(raw)
  {
    hide IsRequestLine, NoBlank, Strip;
    forall verb, gap, path, rest
      ensures !IsRequestLine(Strip(raw), verb, gap, path, rest)
    {
      if IsRequestLine(Strip(raw), verb, gap, path, rest) { LineHoldsBlank(Strip(raw), verb, gap, path, rest); }
    }
    HttpKeyOfOther(raw);
  }

  // ----------------------------------------------------------- choosing the key

  datatype RequestType = Command | Sql | Http

  function NormalizeLookupKey(raw: string, kind: RequestType): string {
    match kind
    case Command => NormalizeCommand(raw)
    case Sql => NormalizeSql(raw)
    case Http => NormalizeHttp(raw)
  }

  /** Whatever the request type, a key is its own key. */
  lemma LookupKeyIdempotent(raw: string, kind: RequestType)
    ensures NormalizeLookupKey(NormalizeLookupKey(raw, kind), kind) == NormalizeLookupKey(raw, kind)
  {
    NormalizeCommandIdempotent(raw);
    NormalizeSqlIdempotent(raw);
    NormalizeHttpIdempotent(raw);
  }
}
