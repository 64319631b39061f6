/** Cache-first answering: the append-only answer table (src/infra/data_store.py) and the
    handler in front of it (src/infra/data_handler.py). */
module DataHandlers {
  import opened Text
  import Shell = InputNormalizer
  import Keys = LookupKeys
  import opened InvokeLimiters

  type Terms = map<string, string>

  // ---------------------------------------------------------------------- table

  datatype Row = Row(isStatic: bool, columns: Terms, data: string)

  /** The terms that name a column of the table. */
  function Project(structure: seq<string>, terms: Terms): Terms {
    map k | k in terms && k in structure :: terms[k]
  }

  predicate Matches(row: Row, key: Terms) {
    forall k :: k in key ==> k in row.columns && row.columns[k] == key[k]
  }

  /** The data of the oldest row that matches `key`. */
  function FirstMatch(rows: seq<Row>, key: Terms): Option<string> {
    if rows == [] then None
    else if Matches(rows[0], key) then Some(rows[0].data)
    else FirstMatch(rows[1..], key)
  }

  predicate IsOldest(rows: seq<Row>, i: nat, key: Terms) {
    i < |rows| && Matches(rows[i], key) && forall j :: 0 <= j < i ==> !Matches(rows[j], key)
  }

  class SqliteDataStore {
    const structure: seq<string>
    var rows: seq<Row>

    constructor (structure: seq<string>)
      ensures this.structure == structure && rows == []
    {
      this.structure := structure;
      rows := [];
    }

    /** The statement is malformed when no term names a column. */
    method Store(terms: Terms, isStatic: bool, data: string)
      requires Project(structure, terms) != map[]
      modifies this
      ensures rows == old(rows) + [Row(isStatic, Project(structure, terms), data)]
    {
      rows := rows + [Row(isStatic, Project(structure, terms), data)];
    }

    /** Some row matches all given columns, holds the data, and no older row matches. */
    method Search(terms: Terms) returns (data: Option<string>)
      requires Project(structure, terms) != map[]
      ensures data.Some? ==>
        exists i :: 0 <= i < |rows| && rows[i].data == data.value && IsOldest(rows, i, Project(structure, terms))
      ensures data.None? ==> forall i :: 0 <= i < |rows| ==> !Matches(rows[i], Project(structure, terms))
      ensures data == FirstMatch(rows, Project(structure, terms))
    {
      var key := Project(structure, terms);
      for i := 0 to |rows|
        invariant forall j :: 0 <= j < i ==> !Matches(rows[j], key)
        invariant FirstMatch(rows, key) == FirstMatch(rows[i..], key)
      {
        assert rows[i..][1..] == rows[i + 1..];
        if Matches(rows[i], key) {
          assert IsOldest(rows, i, key);
          return Some(rows[i].data);
        }
      }
      data := None;
    }

    /** Deletes what was not loaded from static files. */
    method Clear() returns (deleted: nat)
      modifies this
      ensures rows == StaticOnly(old(rows)) && deleted == |old(rows)| - |rows|
    {
      var kept: seq<Row> := [];
      for i := 0 to |rows|
        invariant kept == StaticOnly(rows[..i]) && |kept| <= i && rows == old(rows)
      {
        assert rows[..i + 1][..i] == rows[..i];
        if rows[i].isStatic { kept := kept + [rows[i]]; }
      }
      assert rows[..|rows|] == rows;
      deleted := |rows| - |kept|;
      rows := kept;
    }

    /** Each line of a static file that has all required fields becomes a row, in order. */
    method LoadStaticContent(lines: seq<Option<Terms>>)
      requires structure != []
      modifies this
      ensures rows == old(rows) + StaticRows(structure, lines)
    {
      for i := 0 to |lines|
        invariant rows == old(rows) + StaticRows(structure, lines[..i])
      {
        assert lines[..i + 1][..i] == lines[..i];
        if lines[i].Some? && Complete(structure, lines[i].value) {
          var line := lines[i].value;
          assert structure[0] in Project(structure, line);
          Store(line, true, if "response" in line then line["response"] else "");
        }
      }
      assert lines[..|lines|] == lines;
    }
  }

  /** The rows loaded from static files. */
  function StaticOnly(rows: seq<Row>): seq<Row> {
    if rows == [] then []
    else StaticOnly(rows[..|rows| - 1]) + if rows[|rows| - 1].isStatic then [rows[|rows| - 1]] else []
  }

  /** A line needs every column, and the answer too unless the table is the path/name one. */
  predicate Complete(structure: seq<string>, line: Terms) {
    && (forall k :: k in structure ==> k in line)
    && ((set k | k in structure) != {"path", "name"} ==> "response" in line)
  }

  function StaticRows(structure: seq<string>, lines: seq<Option<Terms>>): seq<Row> {
    if lines == [] then []
    else
      var last := lines[|lines| - 1];
      StaticRows(structure, lines[..|lines| - 1])
      + if last.Some? && Complete(structure, last.value)
        then [Row(true, Project(structure, last.value),
                  if "response" in last.value then last.value["response"] else "")]
        else []
  }

  /** A row that a static file gives: the columns of one of its lines with its answer, empty
      if the table is the path/name one and the line has none. */
  ghost predicate GivenBy(structure: seq<string>, lines: seq<Option<Terms>>, i: nat, row: Row) {
    && i < |lines| && lines[i].Some? && row.isStatic
    && (forall k :: k in structure ==> k in lines[i].value && k in row.columns && row.columns[k] == lines[i].value[k])
    && (forall k :: k in row.columns ==> k in structure)
    && if "response" in lines[i].value then row.data == lines[i].value["response"]
       else row.data == "" && forall k :: k == "path" || k == "name" <==> k in structure
  }

  /** Every such line gives its row, and no other row is loaded. */
  lemma {:induction false} StaticRowsAreLines(structure: seq<string>, lines: seq<Option<Terms>>)
    ensures forall row :: row in StaticRows(structure, lines) <==> exists i :: GivenBy(structure, lines, i, row)
  {
    if lines != [] {
      var front, last := lines[..|lines| - 1], |lines| - 1;
      StaticRowsAreLines(structure, front);
      forall row
        ensures row in StaticRows(structure, lines) <==> exists i :: GivenBy(structure, lines, i, row)
      {
        LastLine(structure, lines, row);
        hide StaticRows;
        if i: nat :| GivenBy(structure, lines, i, row) && i < last { assert GivenBy(structure, front, i, row); }
        if i: nat :| GivenBy(structure, front, i, row) { assert GivenBy(structure, lines, i, row); }
      }
    }
  }

  lemma LastLine(structure: seq<string>, lines: seq<Option<Terms>>, row: Row)
    requires lines != []
    ensures row in StaticRows(structure, lines) <==>
      row in StaticRows(structure, lines[..|lines| - 1]) || GivenBy(structure, lines, |lines| - 1, row)
  {
    var last := lines[|lines| - 1];
    if last.Some? {
      var line := last.value;
      var columns := set k | k in structure;
      assert (forall k :: k == "path" || k == "name" <==> k in structure) <==> columns == {"path", "name"} by {
        if columns == {"path", "name"} { assert forall k :: k in structure <==> k in columns; }
        if forall k :: k == "path" || k == "name" <==> k in structure { assert columns == {"path", "name"}; }
      }
      if GivenBy(structure, lines, |lines| - 1, row) { assert row.columns == Project(structure, line); }
    }
  }

  // ---------------------------------------------------------------------- terms

  function RequestTypeForKey(key: string): Option<Keys.RequestType> {
    if key == "command" then Some(Keys.Command)
    else if key == "query" then Some(Keys.Sql)
    else if key in {"path", "args", "routing_key"} then Some(Keys.Http)
    else None
  }

  function NormalizeTerm(key: string, value: string): string {
    match RequestTypeForKey(key)
    case Some(kind) => Keys.NormalizeLookupKey(value, kind)
    case None => value
  }

  function NormalizeTerms(enabled: bool, info: Terms): (r: Terms)
    ensures r.Keys == info.Keys
  {
    map k | k in info :: if enabled then NormalizeTerm(k, info[k]) else info[k]
  }

  method NormalizeSearchTerms(enabled: bool, info: Terms) returns (normalized: Terms)
    ensures normalized == NormalizeTerms(enabled, info)
  {
    normalized := info;
    if !enabled { return; }
    var todo := info.Keys;
    while todo != {}
      invariant todo <= info.Keys == normalized.Keys
      invariant forall k :: k in info ==> normalized[k] == if k in todo then info[k] else NormalizeTerm(k, info[k])
    {
      var key :| key in todo;
      var kind := RequestTypeForKey(key);
      if kind.Some? {
        normalized := normalized[key := Keys.NormalizeLookupKey(info[key], kind.value)];
      }
      todo := todo - {key};
    }
  }

  /** Normalising normalised terms changes nothing, so a key used as a request is its own key. */
  lemma NormalizeTermsIdempotent(enabled: bool, info: Terms)
    ensures NormalizeTerms(enabled, NormalizeTerms(enabled, info)) == NormalizeTerms(enabled, info)
  {
    forall k | k in info
      ensures NormalizeTerm(k, NormalizeTerm(k, info[k])) == NormalizeTerm(k, info[k])
    {
      var kind := RequestTypeForKey(k);
      if kind.Some? { Keys.LookupKeyIdempotent(info[k], kind.value); }
    }
  }

  // -------------------------------------------------------------------- request

  const BLOCKED := "Internal error. Please try again later."
  const LIMIT := 20
  const PERIOD := 600

  datatype Action = Hardcoded | Llm | Blocked | Raised

  /** One request with the model's reply to it, if it is asked (`None`: it raises). */
  datatype Request = Request(info: Terms, reply: Option<string>, now: int)

  datatype Config = Config(structure: seq<string>, enabled: bool)

  datatype State = State(rows: seq<Row>, limits: Limits)

  datatype Answer = Answer(action: Action, output: string)

  /** An empty stored answer counts as a miss. */
  predicate Found(data: Option<string>) { data.Some? && data.value != "" }

  function KeyOf(c: Config, info: Terms): Terms {
    Project(c.structure, NormalizeTerms(c.enabled, info))
  }

  function Serve(c: Config, st: State, r: Request): (State, Answer) {
    var key := KeyOf(c, r.info);
    var raw := Project(c.structure, r.info);
    var hit, rawHit := FirstMatch(st.rows, key), FirstMatch(st.rows, raw);
    if Found(hit) then (st, Answer(Hardcoded, hit.value))
    else if NormalizeTerms(c.enabled, r.info) != r.info && Found(rawHit) then
      (st.(rows := st.rows + [Row(false, key, rawHit.value)]), Answer(Hardcoded, rawHit.value))
    else
      var (limits, granted) := Invoke(LIMIT, PERIOD, st.limits, "visitor", r.now);
      if !granted then (st.(limits := limits), Answer(Blocked, BLOCKED))
      else if r.reply.None? then (st.(limits := limits), Answer(Raised, ""))
      else (State(st.rows + [Row(false, key, r.reply.value)], limits), Answer(Llm, r.reply.value))
  }

  class DataHandler {
    const store: SqliteDataStore
    const limiter: InvokeLimiter
    const enabled: bool
    /** The session's `_last_parser_action`. */
    var lastParserAction: Option<Action>

    ghost function Configuration(): Config {
      Config(store.structure, enabled)
    }

    ghost function View(): State
      reads store, limiter
    {
      State(store.rows, limiter.State())
    }

    ghost predicate Valid() {
      limiter.limit == LIMIT && limiter.period == PERIOD
    }

    constructor (structure: seq<string>, enabled: bool)
      ensures Valid() && Configuration() == Config(structure, enabled)
      ensures fresh(store) && fresh(limiter) && View() == State([], FRESH)
    {
      store := new SqliteDataStore(structure);
      limiter := new InvokeLimiter(LIMIT, PERIOD);
      this.enabled := enabled;
      lastParserAction := None;
    }

    method SearchWithRawFallback(info: Terms) returns (result: Option<string>, lookup: Terms)
      requires Project(store.structure, info) != map[]
      modifies store
      ensures lookup == NormalizeTerms(enabled, info) || Found(result)
      ensures var key, raw := KeyOf(Configuration(), info), Project(store.structure, info);
        var hit, rawHit := FirstMatch(old(store.rows), key), FirstMatch(old(store.rows), raw);
        if Found(hit) then result == hit && store.rows == old(store.rows)
        else if NormalizeTerms(enabled, info) != info && Found(rawHit) then
          result == rawHit && store.rows == old(store.rows) + [Row(false, key, rawHit.value)]
        else result == None && store.rows == old(store.rows)
    {
      lookup := NormalizeSearchTerms(enabled, info);
      SameColumns(store.structure, info, lookup);
      result := store.Search(lookup);
      if Found(result) { return; }
      if lookup != info {
        result := store.Search(info);
        if Found(result) {
          store.Store(lookup, false, result.value);
          return result, info;
        }
      }
      return None, lookup;
    }

    /** When the model raises, the answer stands for the exception and the session keeps
        its last action. */
    method Request(r: Request) returns (answer: Answer)
      requires Valid() && Project(store.structure, r.info) != map[]
      modifies this, store, limiter
      ensures (View(), answer) == Serve(Configuration(), old(View()), r)
      ensures lastParserAction == if answer.action == Raised then old(lastParserAction) else Some(answer.action)
    {
      var result, lookup := SearchWithRawFallback(r.info);
      if Found(result) {
        lastParserAction := Some(Hardcoded);
        return Answer(Hardcoded, result.value);
      }
      var invoked := limiter.CanInvoke("visitor", r.now);
      if invoked {
        if r.reply.None? { return Answer(Raised, ""); }
        SameColumns(store.structure, r.info, lookup);
        store.Store(lookup, false, r.reply.value);
        lastParserAction := Some(Llm);
        return Answer(Llm, r.reply.value);
      } else {
        lastParserAction := Some(Blocked);
        return Answer(Blocked, BLOCKED);
      }
    }
  }

  lemma SameColumns(structure: seq<string>, a: Terms, b: Terms)
    requires a.Keys == b.Keys
    ensures Project(structure, a) != map[] ==> Project(structure, b) != map[]
  {
    if Project(structure, a) != map[] {
      var k :| k in Project(structure, a);
      assert k in Project(structure, b);
    }
  }

  // ----------------------------------------------------------------------- runs

  /** The state before request `i` of the run. */
  function StateAt(c: Config, start: State, run: seq<Request>, i: nat): State
    requires i <= |run|
  {
    if i == 0 then start else Serve(c, StateAt(c, start, run, i - 1), run[i - 1]).0
  }

  function AnswerAt(c: Config, start: State, run: seq<Request>, i: nat): Answer
    requires i < |run|
  {
    Serve(c, StateAt(c, start, run, i), run[i]).1
  }

  predicate NonEmpty(rows: seq<Row>) {
    forall i :: 0 <= i < |rows| ==> rows[i].data != ""
  }

  predicate RepliesNonEmpty(run: seq<Request>) {
    forall i :: 0 <= i < |run| ==> run[i].reply != Some("")
  }

  lemma {:induction false} FirstMatchAppend(rows: seq<Row>, more: seq<Row>, key: Terms)
    ensures FirstMatch(rows + more, key) == if FirstMatch(rows, key).Some? then FirstMatch(rows, key)
      else FirstMatch(more, key)
    ensures NonEmpty(rows) ==> FirstMatch(rows, key) != Some("")
  {
    if rows == [] {
      assert rows + more == more;
    } else {
      assert (rows + more)[1..] == rows[1..] + more;
      FirstMatchAppend(rows[1..], more, key);
    }
  }

  /** One request keeps every stored answer, and files the answer it gives under its key. */
  lemma ServeFiles(c: Config, st: State, r: Request, key: Terms)
    requires NonEmpty(st.rows) && r.reply != Some("")
    ensures var (next, answer) := Serve(c, st, r);
      && NonEmpty(next.rows)
      && (FirstMatch(st.rows, key).Some? ==> FirstMatch(next.rows, key) == FirstMatch(st.rows, key))
      && (answer.action in {Hardcoded, Llm} ==> FirstMatch(next.rows, KeyOf(c, r.info)) == Some(answer.output))
      && (FirstMatch(st.rows, KeyOf(c, r.info)).Some? ==>
        answer == Answer(Hardcoded, FirstMatch(st.rows, KeyOf(c, r.info)).value))
  {
    var k := KeyOf(c, r.info);
    var (next, answer) := Serve(c, st, r);
    var more := next.rows[|st.rows|..];
    assert next.rows == st.rows + more;
    FirstMatchAppend(st.rows, more, key);
    FirstMatchAppend(st.rows, more, k);
    FirstMatchAppend(st.rows, more, Project(c.structure, r.info));
  }

  lemma {:induction false} FiledStays(c: Config, start: State, run: seq<Request>, i: nat, j: nat, key: Terms)
    requires i <= j <= |run|
    requires NonEmpty(start.rows) && RepliesNonEmpty(run)
    ensures NonEmpty(StateAt(c, start, run, j).rows)
    ensures FirstMatch(StateAt(c, start, run, i).rows, key).Some?
      ==> FirstMatch(StateAt(c, start, run, j).rows, key) == FirstMatch(StateAt(c, start, run, i).rows, key)
    decreases j
  {
    hide Serve, KeyOf, FirstMatch, NonEmpty;
    if j > 0 {
      FiledStays(c, start, run, if i < j then i else j - 1, j - 1, key);
      ServeFiles(c, StateAt(c, start, run, j - 1), run[j - 1], key);
    }
  }

  /** Once a key is answered, by the table or the model, every later request with that key
      gets the same answer from the table; so a key is answered by the model at most once. */
  lemma AnswersAreConsistent(c: Config, start: State, run: seq<Request>, i: nat, j: nat)
    requires NonEmpty(start.rows) && RepliesNonEmpty(run)
    requires i < j < |run| && KeyOf(c, run[i].info) == KeyOf(c, run[j].info)
    requires AnswerAt(c, start, run, i).action in {Hardcoded, Llm}
    ensures AnswerAt(c, start, run, j) == Answer(Hardcoded, AnswerAt(c, start, run, i).output)
  {
    hide Serve, KeyOf, FirstMatch, NonEmpty;
    var key := KeyOf(c, run[i].info);
    FiledStays(c, start, run, i, i, key);
    assert StateAt(c, start, run, i + 1) == Serve(c, StateAt(c, start, run, i), run[i]).0;
    ServeFiles(c, StateAt(c, start, run, i), run[i], key);
    FiledStays(c, start, run, i + 1, j, key);
    ServeFiles(c, StateAt(c, start, run, j), run[j], key);
  }

  /** Asking for the normalised key itself later gives the same answer as the raw request. */
  lemma KeyAsRequest(c: Config, start: State, run: seq<Request>, i: nat, j: nat)
    requires NonEmpty(start.rows) && RepliesNonEmpty(run)
    requires i < j < |run| && run[j].info == NormalizeTerms(c.enabled, run[i].info)
    requires AnswerAt(c, start, run, i).action in {Hardcoded, Llm}
    ensures AnswerAt(c, start, run, j) == Answer(Hardcoded, AnswerAt(c, start, run, i).output)
  {
    NormalizeTermsIdempotent(c.enabled, run[i].info);
    AnswersAreConsistent(c, start, run, i, j);
  }

  /** Every stored answer was there at the start or is a reply the model gave: a refusal
      is never stored. */
  lemma {:induction false} OnlyRepliesAreStored(c: Config, start: State, run: seq<Request>, n: nat, row: Row)
    requires n <= |run| && row in StateAt(c, start, run, n).rows
    ensures (exists first :: first in start.rows && first.data == row.data)
      || (exists i :: 0 <= i < n && AnswerAt(c, start, run, i) == Answer(Llm, row.data))
  {
    hide Serve;
    if n > 0 {
      var st := StateAt(c, start, run, n - 1);
      var source := StoredFrom(c, st, run[n - 1], row);
      if source.Some? {
        OnlyRepliesAreStored(c, start, run, n - 1, source.value);
      } else {
        assert AnswerAt(c, start, run, n - 1) == Answer(Llm, row.data);
      }
    }
  }

  /** A row after one request copies an earlier row's answer or holds the model's reply. */
  lemma StoredFrom(c: Config, st: State, r: Request, row: Row) returns (source: Option<Row>)
    requires row in Serve(c, st, r).0.rows
    ensures source.Some? ==> source.value in st.rows && source.value.data == row.data
    ensures source.None? ==> Serve(c, st, r).1 == Answer(Llm, row.data)
  {
    if row in st.rows {
      source := Some(row);
    } else if Serve(c, st, r).1.action == Llm {
      source := None;
    } else {
      var found := MatchedRow(st.rows, Project(c.structure, r.info));
      source := Some(found);
    }
  }

  lemma {:induction false} MatchedRow(rows: seq<Row>, key: Terms) returns (row: Row)
    requires FirstMatch(rows, key).Some?
    ensures row in rows && row.data == FirstMatch(rows, key).value
  {
    if Matches(rows[0], key) { row := rows[0]; } else { row := MatchedRow(rows[1..], key); }
  }

  /** The model answers at most one request for a key. */
  lemma OneModelAnswerPerKey(c: Config, start: State, run: seq<Request>, i: nat, j: nat)
    requires NonEmpty(start.rows) && RepliesNonEmpty(run)
    requires i < |run| && j < |run| && KeyOf(c, run[i].info) == KeyOf(c, run[j].info)
    requires AnswerAt(c, start, run, i).action == Llm && AnswerAt(c, start, run, j).action == Llm
    ensures i == j
  {
    hide Serve, KeyOf;
    if i < j { AnswersAreConsistent(c, start, run, i, j); }
    if j < i { AnswersAreConsistent(c, start, run, j, i); }
  }

  // ------------------------------------------------------------------ empty answers

  /** A request leaves what matches `key` as it is; and nothing it stores matches terms that
      normalising would change. */
  lemma MatchStays(c: Config, st: State, r: Request, info: Terms)
    ensures var rows, key, raw := Serve(c, st, r).0.rows, KeyOf(c, info), Project(c.structure, info);
      && (FirstMatch(st.rows, key).Some? ==> FirstMatch(rows, key) == FirstMatch(st.rows, key))
      && (raw != key ==> FirstMatch(rows, raw) == FirstMatch(st.rows, raw))
  {
    hide FirstMatch, NormalizeTerm, Invoke;
    var rows, key, raw := Serve(c, st, r).0.rows, KeyOf(c, info), Project(c.structure, info);
    var more := rows[|st.rows|..];
    assert rows == st.rows + more;
    FirstMatchAppend(st.rows, more, key);
    FirstMatchAppend(st.rows, more, raw);
    if raw != key && more != [] {
      assert more == [Row(false, KeyOf(c, r.info), more[0].data)];
      StoredIsNormal(c, r.info, info);
      NoMatch(more[0], raw);
    }
  }

  lemma StoredIsNormal(c: Config, stored: Terms, info: Terms)
    requires Project(c.structure, info) != KeyOf(c, info)
    ensures var raw, key := Project(c.structure, info), KeyOf(c, stored);
      exists k :: k in raw && (k in key ==> key[k] != raw[k])
  {
    hide NormalizeTerm;
    var raw := Project(c.structure, info);
    var k :| k in raw && NormalizeTerms(c.enabled, info)[k] != info[k];
    NormalizeTermsIdempotent(c.enabled, stored);
    if k in stored {
      assert NormalizeTerms(c.enabled, NormalizeTerms(c.enabled, stored))[k] == NormalizeTerms(c.enabled, stored)[k];
    }
    assert k in KeyOf(c, stored) ==> KeyOf(c, stored)[k] != raw[k];
  }

  lemma NoMatch(row: Row, key: Terms)
    requires exists k :: k in key && (k in row.columns ==> row.columns[k] != key[k])
    ensures FirstMatch([row], key) == None
  {
    assert !Matches(row, key);
    assert [row][1..] == [];
  }

  lemma {:induction false} MatchStaysAlong(c: Config, start: State, run: seq<Request>, i: nat, j: nat, info: Terms)
    requires i <= j <= |run|
    ensures var rows, later, key, raw := StateAt(c, start, run, i).rows, StateAt(c, start, run, j).rows,
      KeyOf(c, info), Project(c.structure, info);
      && (FirstMatch(rows, key).Some? ==> FirstMatch(later, key) == FirstMatch(rows, key))
      && (raw != key ==> FirstMatch(later, raw) == FirstMatch(rows, raw))
    decreases j
  {
    hide Serve, KeyOf, FirstMatch;
    if i < j {
      MatchStaysAlong(c, start, run, i, j - 1, info);
      MatchStays(c, StateAt(c, start, run, j - 1), run[j - 1], info);
    }
  }

  /** Exactly when a request gets the answer that an earlier one with the same key got: the
      answer is not empty, and no empty one already stood under the key, or the raw terms
      are another entry that always held the same answer. */
  lemma AnsweredAgainIff(c: Config, start: State, run: seq<Request>, i: nat, j: nat)
    requires i < j < |run| && KeyOf(c, run[i].info) == KeyOf(c, run[j].info)
    requires AnswerAt(c, start, run, i).action in {Hardcoded, Llm}
    ensures var output, key, raw := AnswerAt(c, start, run, i).output, KeyOf(c, run[i].info),
      Project(c.structure, run[j].info);
      AnswerAt(c, start, run, j) == Answer(Hardcoded, output) <==>
        && output != ""
        && (FirstMatch(StateAt(c, start, run, i).rows, key) != Some("")
            || (raw != key && FirstMatch(start.rows, raw) == Some(output)))
  {
    hide Serve, FirstMatch, KeyOf, Project;
    MatchStaysAlong(c, start, run, i + 1, j, run[j].info);
    MatchStaysAlong(c, start, run, 0, j, run[j].info);
    AnsweredLater(c, StateAt(c, start, run, i), run[i], StateAt(c, start, run, j), run[j], start.rows);
  }

  lemma AnsweredLater(c: Config, st: State, r: Request, later: State, again: Request, first: seq<Row>)
    requires KeyOf(c, again.info) == KeyOf(c, r.info) && Serve(c, st, r).1.action in {Hardcoded, Llm}
    requires var rows, key, raw := Serve(c, st, r).0.rows, KeyOf(c, r.info), Project(c.structure, again.info);
      && (FirstMatch(rows, key).Some? ==> FirstMatch(later.rows, key) == FirstMatch(rows, key))
      && (raw != key ==> FirstMatch(later.rows, raw) == FirstMatch(first, raw))
    ensures var output, key, raw := Serve(c, st, r).1.output, KeyOf(c, r.info), Project(c.structure, again.info);
      Serve(c, later, again).1 == Answer(Hardcoded, output) <==>
        && output != ""
        && (FirstMatch(st.rows, key) != Some("") || (raw != key && FirstMatch(first, raw) == Some(output)))
  {
    Outcome(c, st, r);
    Outcome(c, later, again);
    var key, output := KeyOf(c, r.info), Serve(c, st, r).1.output;
    assert NormalizeTerms(c.enabled, again.info) == again.info ==> Project(c.structure, again.info) == key;
    hide Serve, FirstMatch, NormalizeTerms, Project, KeyOf;
    FirstMatchAppend(st.rows, [Row(false, key, output)], key);
    OnlyRow(Row(false, key, output));
  }

  /** Exactly when a reply of the model is given again to a later identical request: it is
      not empty, and no empty answer was stored for its key before. */
  lemma ReusedIff(c: Config, start: State, run: seq<Request>, i: nat, j: nat)
    requires i < j < |run| && run[j].info == run[i].info
    requires AnswerAt(c, start, run, i).action == Llm
    ensures AnswerAt(c, start, run, j) == Answer(Hardcoded, AnswerAt(c, start, run, i).output)
      <==> run[i].reply != Some("") && FirstMatch(StateAt(c, start, run, i).rows, KeyOf(c, run[i].info)).None?
  {
    AnsweredAgainIff(c, start, run, i, j);
    MatchStaysAlong(c, start, run, 0, i, run[i].info);
    Outcome(c, StateAt(c, start, run, i), run[i]);
    assert NormalizeTerms(c.enabled, run[i].info) == run[i].info ==>
      Project(c.structure, run[i].info) == KeyOf(c, run[i].info);
    hide Serve, FirstMatch, KeyOf, Project, NormalizeTerms, StateAt;
  }

  /** An empty reply is asked for again, and the second answer differs. */
  lemma EmptyReplyIsForgotten(c: Config, info: Terms)
    ensures var run := [Request(info, Some(""), 0), Request(info, Some("root"), 0)];
      && AnswerAt(c, State([], FRESH), run, 0) == Answer(Llm, "")
      && AnswerAt(c, State([], FRESH), run, 1) == Answer(Llm, "root")
  {
    var run := [Request(info, Some(""), 0), Request(info, Some("root"), 0)];
    var key := KeyOf(c, info);
    hide NormalizeTerms, Project, KeyOf;
    assert StateAt(c, State([], FRESH), run, 1).rows == [Row(false, key, "")];
    assert [Row(false, key, "")][1..] == [];
  }

  /** When the table answers, and what an answer of the model leaves behind. */
  lemma Outcome(c: Config, st: State, r: Request)
    ensures var (next, answer) := Serve(c, st, r);
      var hit, rawHit := FirstMatch(st.rows, KeyOf(c, r.info)), FirstMatch(st.rows, Project(c.structure, r.info));
      && (answer.action == Hardcoded <==> Found(hit) || (NormalizeTerms(c.enabled, r.info) != r.info && Found(rawHit)))
      && (Found(hit) ==> answer.output == hit.value && next.rows == st.rows)
      && (answer.action == Hardcoded && !Found(hit) ==>
        rawHit == Some(answer.output) && next.rows == st.rows + [Row(false, KeyOf(c, r.info), answer.output)])
      && (answer.action == Llm ==>
        r.reply == Some(answer.output) && next.rows == st.rows + [Row(false, KeyOf(c, r.info), answer.output)])
  {
    hide FirstMatch, NormalizeTerms, Project, Invoke;
  }

  lemma OnlyRow(row: Row)
    ensures FirstMatch([row], row.columns) == Some(row.data)
  {
  }

  // ----------------------------------------------------- model calls and the limit

  /** The limiter calls that a run makes, one for each request the table cannot answer. */
  function LimiterCalls(c: Config, start: State, run: seq<Request>, n: nat): seq<Call>
    requires n <= |run|
  {
    if n == 0 then []
    else
      LimiterCalls(c, start, run, n - 1)
      + if AnswerAt(c, start, run, n - 1).action == Hardcoded then [] else [Call("visitor", run[n - 1].now)]
  }

  /** When the model was invoked in the first `n` requests. */
  function ModelCalls(c: Config, start: State, run: seq<Request>, n: nat): seq<int>
    requires n <= |run|
  {
    if n == 0 then []
    else
      ModelCalls(c, start, run, n - 1)
      + if AnswerAt(c, start, run, n - 1).action in {Llm, Raised} then [run[n - 1].now] else []
  }

  lemma ServeLimits(c: Config, st: State, r: Request)
    ensures var (next, answer) := Serve(c, st, r);
      var (limits, granted) := Invoke(LIMIT, PERIOD, st.limits, "visitor", r.now);
      if answer.action == Hardcoded then next.limits == st.limits
      else next.limits == limits && (granted <==> answer.action in {Llm, Raised})
  {
    hide Invoke;
  }

  lemma {:induction false} ModelCallsAreGrants(c: Config, start: State, run: seq<Request>, n: nat)
    requires n <= |run| && start.limits == FRESH
    ensures var calls := LimiterCalls(c, start, run, n);
      && ModelCalls(c, start, run, n) == Granted(LIMIT, PERIOD, calls, "visitor")
      && StateAt(c, start, run, n).limits == After(LIMIT, PERIOD, calls)
  {
    hide Serve, Invoke, LimiterCalls, ModelCalls, StateAt, AnswerAt, After, Granted;
    if n == 0 {
      NothingRequested(c, start, run);
    } else {
      var before, call := LimiterCalls(c, start, run, n - 1), Call("visitor", run[n - 1].now);
      ModelCallsAreGrants(c, start, run, n - 1);
      OneMoreRequest(c, start, run, n);
      ServeLimits(c, StateAt(c, start, run, n - 1), run[n - 1]);
      OneMoreCall(LIMIT, PERIOD, before, call, "visitor");
    }
  }

  lemma NothingRequested(c: Config, start: State, run: seq<Request>)
    ensures LimiterCalls(c, start, run, 0) == [] && ModelCalls(c, start, run, 0) == [] &&
      StateAt(c, start, run, 0) == start
    ensures Granted(LIMIT, PERIOD, [], "visitor") == [] && After(LIMIT, PERIOD, []) == FRESH
  {
  }

  /** What request `n - 1` adds to the calls of the limiter and of the model. */
  lemma OneMoreRequest(c: Config, start: State, run: seq<Request>, n: nat)
    requires 0 < n <= |run|
    ensures var (next, answer) := Serve(c, StateAt(c, start, run, n - 1), run[n - 1]);
      && StateAt(c, start, run, n) == next
      && LimiterCalls(c, start, run, n) == (if answer.action == Hardcoded then LimiterCalls(c, start, run, n - 1)
        else LimiterCalls(c, start, run, n - 1) + [Call("visitor", run[n - 1].now)])
      && ModelCalls(c, start, run, n) ==
        ModelCalls(c, start, run, n - 1) + if answer.action in {Llm, Raised} then [run[n - 1].now] else []
  {
    hide Serve;
  }

  lemma {:induction false} LimiterCallsAreClocked(c: Config, start: State, run: seq<Request>, n: nat)
    requires n <= |run|
    requires forall i, j :: 0 <= i < j < |run| ==> run[i].now <= run[j].now
    ensures var calls := LimiterCalls(c, start, run, n);
      Clocked(calls) && (calls != [] ==> n > 0 && calls[|calls| - 1].now <= run[n - 1].now)
  {
    hide Serve;
    if n > 0 { LimiterCallsAreClocked(c, start, run, n - 1); }
  }

  /** Whatever is asked, more than twenty model calls never fit in ten minutes. */
  lemma ModelCallsAreLimited(c: Config, start: State, run: seq<Request>, a: nat, b: nat)
    requires start.limits == FRESH
    requires forall i, j :: 0 <= i < j < |run| ==> run[i].now <= run[j].now
    requires a + 20 < b <= |ModelCalls(c, start, run, |run|)|
    ensures var m := ModelCalls(c, start, run, |run|); m[b - 1] - m[a] > 600 * 1_000_000
  {
    ModelCallsAreGrants(c, start, run, |run|);
    LimiterCallsAreClocked(c, start, run, |run|);
    MoreThanLimitNeverFit(LIMIT, PERIOD, LimiterCalls(c, start, run, |run|), "visitor", a, b);
  }

  /** The first twenty requests that the table cannot answer all reach the model. */
  lemma FirstTwentyAreAsked(c: Config, start: State, run: seq<Request>, n: nat)
    requires n < |run| && start.limits == FRESH && |LimiterCalls(c, start, run, n)| < 20
    ensures AnswerAt(c, start, run, n).action != Blocked
  {
    hide Serve;
    var calls := LimiterCalls(c, start, run, n);
    ModelCallsAreGrants(c, start, run, n);
    OneVisitor(c, start, run, n);
    FirstCallsAreGranted(LIMIT, PERIOD, calls, "visitor");
    ServeLimits(c, StateAt(c, start, run, n), run[n]);
    OneVisitor(c, start, run, n);
    Actions(c, StateAt(c, start, run, n), run[n]);
  }

  lemma {:induction false} OneVisitor(c: Config, start: State, run: seq<Request>, n: nat)
    requires n <= |run|
    ensures Asked(LimiterCalls(c, start, run, n), "visitor") == |LimiterCalls(c, start, run, n)|
  {
    hide Serve;
    if n > 0 {
      var front, call := LimiterCalls(c, start, run, n - 1), Call("visitor", run[n - 1].now);
      OneVisitor(c, start, run, n - 1);
      assert (front + [call])[..|front|] == front;
      assert Asked(front + [call], "visitor") == |front| + 1;
      assert LimiterCalls(c, start, run, n) == front || LimiterCalls(c, start, run, n) == front + [call];
    }
  }

  /** What each action tells its client. */
  lemma Actions(c: Config, st: State, r: Request)
    ensures var (next, answer) := Serve(c, st, r);
      match answer.action
      case Hardcoded => answer.output != "" && next.limits == st.limits
      case Llm => r.reply == Some(answer.output)
      case Blocked => answer.output == "Internal error. Please try again later." && next.rows == st.rows
      case Raised => r.reply.None? && next.rows == st.rows
  {
    hide FirstMatch, NormalizeTerms, Project, Invoke;
  }

  // ------------------------------------------------------------- keys, column by column

  /** Commands, SQL texts and request lines are normalised each by their own rules, other
      terms not at all, and none when normalisation is switched off. */
  lemma KeyByColumn(c: Config, info: Terms, k: string)
    requires k in info && k in c.structure
    ensures k in KeyOf(c, info)
    ensures KeyOf(c, info)[k] ==
      if !c.enabled then info[k]
      else if k == "command" then Shell.NormalizeCommand(info[k])
      else if k == "query" then Keys.NormalizeSql(info[k])
      else if k == "path" || k == "args" || k == "routing_key" then Keys.NormalizeHttp(info[k])
      else info[k]
  {
    hide Shell.NormalizeCommand, Keys.NormalizeSql, Keys.NormalizeHttp;
  }

  /** The row holds the terms of `info` that name columns, with the values they have in `terms`. */
  ghost predicate Agrees(c: Config, row: Row, info: Terms, terms: Terms) {
    forall k :: k in info && k in c.structure ==> k in row.columns && k in terms && row.columns[k] == terms[k]
  }

  /** An answer from the table is that of a row that agrees with the request in every column
      of the table: in the normalised terms, or else in the raw ones. */
  lemma HitsAgree(c: Config, st: State, r: Request)
    requires Serve(c, st, r).1.action == Hardcoded
    ensures exists row :: (row in st.rows && row.data == Serve(c, st, r).1.output && row.data != ""
                           && (Agrees(c, row, r.info, KeyOf(c, r.info)) || Agrees(c, row, r.info, r.info)))
  {
    var key, raw := KeyOf(c, r.info), Project(c.structure, r.info);
    if Found(FirstMatch(st.rows, key)) {
      var row := MatchedFor(st.rows, key);
    } else {
      var row := MatchedFor(st.rows, raw);
    }
  }

  lemma {:induction false} MatchedFor(rows: seq<Row>, key: Terms) returns (row: Row)
    requires FirstMatch(rows, key).Some?
    ensures row in rows && row.data == FirstMatch(rows, key).value
    ensures forall k :: k in key ==> k in row.columns && row.columns[k] == key[k]
  {
    if Matches(rows[0], key) { row := rows[0]; } else { row := MatchedFor(rows[1..], key); }
  }

  /** A command typed with or without blanks around an operator gets one answer. */
  lemma SpellingsShareAnswers(c: Config, start: State, run: seq<Request>, i: nat, j: nat, a: string, op: string,
                              b: string)
    requires NonEmpty(start.rows) && RepliesNonEmpty(run) && i < j < |run|
    requires c.enabled && Shell.After(Shell.Rest, a).Rest? && Shell.StandsBetween(a, op, b)
    requires run[i].info == map["command" := a + op + b] && run[j].info == map["command" := a + " " + op + " " + b]
    requires AnswerAt(c, start, run, i).action in {Hardcoded, Llm}
    ensures AnswerAt(c, start, run, j) == Answer(Hardcoded, AnswerAt(c, start, run, i).output)
  {
    Shell.BlanksAroundOperator(a, op, b);
    hide *;
    CommandsShareKey(c, a + op + b, a + " " + op + " " + b);
    AnswersAreConsistent(c, start, run, i, j);
  }

  lemma CommandsShareKey(c: Config, a: string, b: string)
    requires c.enabled && Shell.NormalizeCommand(a) == Shell.NormalizeCommand(b)
    ensures KeyOf(c, map["command" := a]) == KeyOf(c, map["command" := b])
  {
    hide Shell.NormalizeCommand;
    var x, y := KeyOf(c, map["command" := a]), KeyOf(c, map["command" := b]);
    assert x.Keys == y.Keys;
  }

  /** A request for what a static file answers gets an answer from the table, as long as no
      line has an empty one. */
  lemma StaticIsAnswered(c: Config, lines: seq<Option<Terms>>, limits: Limits, i: nat, row: Row, r: Request)
    requires NonEmpty(StaticRows(c.structure, lines)) && GivenBy(c.structure, lines, i, row)
    requires r.info == row.columns
    ensures Serve(c, State(StaticRows(c.structure, lines), limits), r).1.action == Hardcoded
  {
    var rows := StaticRows(c.structure, lines);
    StaticRowsAreLines(c.structure, lines);
    hide StaticRows, GivenBy, NormalizeTerm, Invoke;
    assert Project(c.structure, r.info) == row.columns by { OnlyColumns(c.structure, lines, i, row); }
    RowIsMatched(rows, row);
    FirstMatchAppend(rows, [], row.columns);
  }

  lemma OnlyColumns(structure: seq<string>, lines: seq<Option<Terms>>, i: nat, row: Row)
    requires GivenBy(structure, lines, i, row)
    ensures Project(structure, row.columns) == row.columns
  {
  }

  lemma {:induction false} RowIsMatched(rows: seq<Row>, row: Row)
    requires row in rows
    ensures FirstMatch(rows, row.columns).Some?
  {
    if rows[0] != row { RowIsMatched(rows[1..], row); }
  }

  lemma {:induction false} StaticOnlyAppends(rows: seq<Row>, more: seq<Row>)
    requires forall row :: row in more ==> !row.isStatic
    ensures StaticOnly(rows + more) == StaticOnly(rows)
  {
    if more == [] {
      assert rows + more == rows;
    } else {
      var front, last := more[..|more| - 1], more[|more| - 1];
      assert (rows + more)[..|rows + more| - 1] == rows + front && last in more;
      StaticOnlyAppends(rows, front);
    }
  }

  lemma {:induction false} LoadedIsStatic(structure: seq<string>, lines: seq<Option<Terms>>)
    ensures StaticOnly(StaticRows(structure, lines)) == StaticRows(structure, lines)
  {
    if lines != [] {
      var front, last := lines[..|lines| - 1], lines[|lines| - 1];
      LoadedIsStatic(structure, front);
      var rows := StaticRows(structure, front);
      if last.Some? && Complete(structure, last.value) {
        assert StaticRows(structure, lines)[..|rows|] == rows;
      } else {
        assert StaticRows(structure, lines) == rows;
      }
    }
  }

  /** On every run from a loaded table, clearing brings back exactly what was loaded: nothing
      that was answered since survives, and nothing loaded is lost. */
  lemma {:induction false} ClearingForgets(c: Config, lines: seq<Option<Terms>>, limits: Limits, run: seq<Request>,
                                           n: nat)
    requires n <= |run|
    ensures StaticOnly(StateAt(c, State(StaticRows(c.structure, lines), limits), run, n).rows)
      == StaticRows(c.structure, lines)
  {
    hide Serve, StaticRows, StaticOnly;
    var start := State(StaticRows(c.structure, lines), limits);
    if n == 0 {
      LoadedIsStatic(c.structure, lines);
    } else {
      ClearingForgets(c, lines, limits, run, n - 1);
      var st := StateAt(c, start, run, n - 1);
      var more := AddedRows(c, st, run[n - 1]);
      StaticOnlyAppends(st.rows, more);
    }
  }

  lemma AddedRows(c: Config, st: State, r: Request) returns (more: seq<Row>)
    ensures Serve(c, st, r).0.rows == st.rows + more && forall row :: row in more ==> !row.isStatic
  {
    hide FirstMatch, NormalizeTerms, Project, Invoke;
    more := Serve(c, st, r).0.rows[|st.rows|..];
  }
}
